/** The slot engine: the weekly grid expanded over a range of dates, in UTC, minus what is too
    soon, booked or blocked. */
module Slots {
  import opened Clock
  import opened Wrappers
  import opened Zones

  datatype GridRule = GridRule(dayOfWeek: int, start: TimeOfDay, end: TimeOfDay) {
    function StartMinute(): int { MinuteOf(start) }

    function EndMinute(): int { MinuteOf(end) }
  }

  /** A half-open stretch of time in UTC: a slot, a booked range or an exception. */
  datatype Range = Range(start: int, end: int)

  datatype EngineError = DurationNotPositive

  predicate RangesOverlap(a: Range, b: Range) {
    a.start < b.end && b.start < a.end
  }

  predicate OverlapsAny(slot: Range, ranges: seq<Range>) {
    exists r :: r in ranges && RangesOverlap(slot, r)
  }

  // ----- what the engine computes, as functions -----

  /** The slot whose wall-clock start is minute m of the date, when clocks read that time. */
  function SlotAt(z: Zone, duration: int, date: int, m: int): Option<Range>
    requires 0 <= m < 1440
  {
    match LocalToUtcOrNone(z, WallStart(date, m), false)
    case None => None
    case Some(u) => Some(Range(u, u + duration * MINUTE))
  }

  /** The slots of one window that begin at minute `cursor` or a whole number of slots later. */
  function WindowSlots(z: Zone, duration: int, date: int, cursor: int, end: int): seq<Range>
    requires 0 < duration && 0 <= cursor && end < 1440
    decreases end - cursor
  {
    if end < cursor + duration then []
    else
      (match SlotAt(z, duration, date, cursor)
       case None => []
       case Some(s) => [s])
      + WindowSlots(z, duration, date, cursor + duration, end)
  }

  function RuleSlots(z: Zone, duration: int, date: int, rule: GridRule): seq<Range>
    requires 0 < duration
  {
    WindowSlots(z, duration, date, rule.StartMinute(), rule.EndMinute())
  }

  function RulesSlots(z: Zone, duration: int, date: int, rules: seq<GridRule>): seq<Range>
    requires 0 < duration
  {
    if rules == [] then []
    else RuleSlots(z, duration, date, rules[0]) + RulesSlots(z, duration, date, rules[1..])
  }

  /** The rules of one weekday, in their given order. */
  function RulesOn(rules: seq<GridRule>, dayOfWeek: int): seq<GridRule> {
    if rules == [] then []
    else
      (if rules[0].dayOfWeek == dayOfWeek then [rules[0]] else []) + RulesOn(rules[1..], dayOfWeek)
  }

  /** Every slot of the grid in the range of dates, in the order the loops meet them. */
  function GridSlots(z: Zone, duration: int, rules: seq<GridRule>, first: int, last: int): seq<Range>
    requires 0 < duration
    decreases last - first
  {
    if last < first then []
    else
      RulesSlots(z, duration, first, RulesOn(rules, Weekday(first))) + GridSlots(z, duration, rules, first + 1, last)
  }

  predicate Free(slot: Range, threshold: int, bookings: seq<Range>, exceptions: seq<Range>) {
    && threshold <= slot.start
    && !OverlapsAny(slot, bookings)
    && !OverlapsAny(slot, exceptions)
  }

  /** The slots that are free, in their given order. */
  function KeepFree(slots: seq<Range>, threshold: int, bookings: seq<Range>, exceptions: seq<Range>): seq<Range> {
    if slots == [] then []
    else
      (if Free(slots[0], threshold, bookings, exceptions) then [slots[0]] else [])
      + KeepFree(slots[1..], threshold, bookings, exceptions)
  }

  // ----- sorting by start -----

  ghost predicate SortedByStart(s: seq<Range>) {
    forall i, j :: 0 <= i < j < |s| ==> s[i].start <= s[j].start
  }

  function InsertByStart(r: Range, s: seq<Range>): seq<Range> {
    if s == [] || r.start <= s[0].start then [r] + s else [s[0]] + InsertByStart(r, s[1..])
  }

  /** A stable sort on the start. */
  function SortByStart(s: seq<Range>): seq<Range> {
    if s == [] then [] else InsertByStart(s[0], SortByStart(s[1..]))
  }

  /** The listing: free slots of the grid, earliest first. */
  function AvailableSlots(z: Zone, duration: int, rules: seq<GridRule>, bookings: seq<Range>,
                          exceptions: seq<Range>, first: int, last: int, threshold: int): seq<Range>
    requires 0 < duration
  {
    SortByStart(KeepFree(GridSlots(z, duration, rules, first, last), threshold, bookings, exceptions))
  }

  // ----- the engine -----

  function RulesFor(byDow: map<int, seq<GridRule>>, d: int): seq<GridRule> {
    if d in byDow then byDow[d] else []
  }

  lemma {:induction false} RulesOnAppend(rules: seq<GridRule>, rule: GridRule, d: int)
    ensures RulesOn(rules + [rule], d) == RulesOn(rules, d) + (if rule.dayOfWeek == d then [rule] else [])
  {
    if rules == [] {
      assert rules + [rule] == [rule];
    } else {
      RulesOnAppend(rules[1..], rule, d);
      assert (rules + [rule])[1..] == rules[1..] + [rule];
    }
  }

  lemma PrefixGrows(rules: seq<GridRule>, i: nat)
    requires i < |rules|
    ensures rules[..i + 1] == rules[..i] + [rules[i]]
  {
  }

  /** Indexing one more rule, seen from one weekday. */
  lemma IndexGrows(byDow: map<int, seq<GridRule>>, rules: seq<GridRule>, i: nat, d: int)
    requires i < |rules| && RulesFor(byDow, d) == RulesOn(rules[..i], d)
    ensures var rule := rules[i];
      RulesFor(byDow[rule.dayOfWeek := RulesFor(byDow, rule.dayOfWeek) + [rule]], d) == RulesOn(rules[..i + 1], d)
  {
    PrefixGrows(rules, i);
    RulesOnAppend(rules[..i], rules[i], d);
  }

  method IndexRules(rules: seq<GridRule>) returns (byDow: map<int, seq<GridRule>>)
    ensures forall d :: RulesFor(byDow, d) == RulesOn(rules, d)
  {
    byDow := map[];
    for i := 0 to |rules|
      invariant forall d :: RulesFor(byDow, d) == RulesOn(rules[..i], d)
    {
      var rule := rules[i];
      ghost var before := byDow;
      byDow := byDow[rule.dayOfWeek := RulesFor(byDow, rule.dayOfWeek) + [rule]];
      forall d
        ensures RulesFor(byDow, d) == RulesOn(rules[..i + 1], d)
      {
        IndexGrows(before, rules, i, d);
      }
    }
    assert rules[..|rules|] == rules;
  }

  /** Moving the first part of what is left over to what is done. */
  lemma Absorb<T>(all: seq<T>, done: seq<T>, left: seq<T>, first: seq<T>, rest: seq<T>)
    requires all == done + left && left == first + rest
    ensures all == done + first + rest
  {
  }

  lemma AppendAssociates<T>(a: seq<T>, b: seq<T>, c: seq<T>)
    ensures a + (b + c) == (a + b) + c
  {
  }

  lemma KeepFreeHead(a: seq<Range>, b: seq<Range>, threshold: int, bookings: seq<Range>, exceptions: seq<Range>)
    requires a != []
    requires KeepFree(a[1..] + b, threshold, bookings, exceptions)
          == KeepFree(a[1..], threshold, bookings, exceptions) + KeepFree(b, threshold, bookings, exceptions)
    ensures KeepFree(a + b, threshold, bookings, exceptions)
         == KeepFree(a, threshold, bookings, exceptions) + KeepFree(b, threshold, bookings, exceptions)
  {
    assert (a + b)[1..] == a[1..] + b;
    AppendAssociates(if Free(a[0], threshold, bookings, exceptions) then [a[0]] else [],
                     KeepFree(a[1..], threshold, bookings, exceptions), KeepFree(b, threshold, bookings, exceptions));
  }

  lemma {:induction false} KeepFreeAppend(
    a: seq<Range>, b: seq<Range>, threshold: int, bookings: seq<Range>, exceptions: seq<Range>)
    ensures KeepFree(a + b, threshold, bookings, exceptions)
         == KeepFree(a, threshold, bookings, exceptions) + KeepFree(b, threshold, bookings, exceptions)
  {
    if a == [] {
      assert a + b == b;
    } else {
      KeepFreeAppend(a[1..], b, threshold, bookings, exceptions);
      KeepFreeHead(a, b, threshold, bookings, exceptions);
    }
  }

  /** What one turn of the cursor loop contributes. */
  ghost function Turn(z: Zone, duration: int, date: int, m: int, threshold: int,
                      bookings: seq<Range>, exceptions: seq<Range>): seq<Range>
    requires 0 <= m < 1440
  {
    match SlotAt(z, duration, date, m)
    case None => []
    case Some(s) => if Free(s, threshold, bookings, exceptions) then [s] else []
  }

  lemma TurnIsFreeHead(z: Zone, duration: int, date: int, m: int, threshold: int,
                       bookings: seq<Range>, exceptions: seq<Range>)
    requires 0 <= m < 1440
    ensures var head := match SlotAt(z, duration, date, m) case None => [] case Some(s) => [s];
      KeepFree(head, threshold, bookings, exceptions) == Turn(z, duration, date, m, threshold, bookings, exceptions)
  {
  }

  /** The free slots of a window are those of its first position followed by those of the rest. */
  lemma WindowSplits(z: Zone, duration: int, date: int, cursor: int, end: int, threshold: int,
                     bookings: seq<Range>, exceptions: seq<Range>)
    requires 0 < duration && 0 <= cursor && cursor + duration <= end < 1440
    ensures KeepFree(WindowSlots(z, duration, date, cursor, end), threshold, bookings, exceptions)
         == Turn(z, duration, date, cursor, threshold, bookings, exceptions)
            + KeepFree(WindowSlots(z, duration, date, cursor + duration, end), threshold, bookings, exceptions)
  {
    var head := match SlotAt(z, duration, date, cursor) case None => [] case Some(s) => [s];
    KeepFreeAppend(head, WindowSlots(z, duration, date, cursor + duration, end), threshold, bookings, exceptions);
    TurnIsFreeHead(z, duration, date, cursor, threshold, bookings, exceptions);
  }

  lemma RuleTurn(z: Zone, duration: int, date: int, rules: seq<GridRule>, i: nat, threshold: int,
                 bookings: seq<Range>, exceptions: seq<Range>, before: seq<Range>)
    requires 0 < duration && i < |rules|
    ensures before + KeepFree(RulesSlots(z, duration, date, rules[i..]), threshold, bookings, exceptions)
         == before + KeepFree(RuleSlots(z, duration, date, rules[i]), threshold, bookings, exceptions)
            + KeepFree(RulesSlots(z, duration, date, rules[i + 1..]), threshold, bookings, exceptions)
  {
    assert rules[i..][1..] == rules[i + 1..];
    KeepFreeAppend(RuleSlots(z, duration, date, rules[i]), RulesSlots(z, duration, date, rules[i + 1..]),
                   threshold, bookings, exceptions);
  }

  lemma DateTurn(z: Zone, duration: int, rules: seq<GridRule>, d: int, last: int, threshold: int,
                 bookings: seq<Range>, exceptions: seq<Range>, before: seq<Range>)
    requires 0 < duration && d <= last
    ensures before + KeepFree(GridSlots(z, duration, rules, d, last), threshold, bookings, exceptions)
         == before
            + KeepFree(RulesSlots(z, duration, d, RulesOn(rules, Weekday(d))), threshold, bookings, exceptions)
            + KeepFree(GridSlots(z, duration, rules, d + 1, last), threshold, bookings, exceptions)
  {
    KeepFreeAppend(RulesSlots(z, duration, d, RulesOn(rules, Weekday(d))), GridSlots(z, duration, rules, d + 1, last),
                   threshold, bookings, exceptions);
  }

  /** The body of the cursor loop: the slot at this minute, unless something rules it out. */
  method OfferSlot(z: Zone, duration: int, date: int, cursor: int, bookings: seq<Range>,
                   exceptions: seq<Range>, threshold: int) returns (offered: seq<Range>)
    requires 0 <= cursor < 1440
    ensures offered == Turn(z, duration, date, cursor, threshold, bookings, exceptions)
  {
    var hour, minute := cursor / 60, cursor % 60;
    var slotStart := LocalToUtcOrNone(z, Combine(date, TimeOf(hour, minute)), false);
    if slotStart.None? {
      return [];
    }
    var slot := Range(slotStart.value, slotStart.value + duration * MINUTE);
    if slot.start < threshold {
      return [];
    }
    if OverlapsAny(slot, bookings) {
      return [];
    }
    if OverlapsAny(slot, exceptions) {
      return [];
    }
    return [slot];
  }

  /** The cursor loop of one rule, between its start and end minutes. */
  method AppendWindowSlots(z: Zone, duration: int, date: int, startMinutes: int, endMinutes: int,
                           bookings: seq<Range>, exceptions: seq<Range>, threshold: int, before: seq<Range>)
    returns (out: seq<Range>)
    requires 0 < duration && 0 <= startMinutes && endMinutes < 1440
    ensures out
         == before + KeepFree(WindowSlots(z, duration, date, startMinutes, endMinutes), threshold, bookings, exceptions)
  {
    out := before;
    var cursor := startMinutes;
    ghost var left := KeepFree(WindowSlots(z, duration, date, cursor, endMinutes), threshold, bookings, exceptions);
    ghost var all := before + left;
    while cursor + duration <= endMinutes
      invariant 0 <= cursor
      invariant left == KeepFree(WindowSlots(z, duration, date, cursor, endMinutes), threshold, bookings, exceptions)
      invariant all == out + left
      decreases endMinutes - cursor
    {
      WindowSplits(z, duration, date, cursor, endMinutes, threshold, bookings, exceptions);
      var offered := OfferSlot(z, duration, date, cursor, bookings, exceptions, threshold);
      cursor := cursor + duration;
      ghost var rest := KeepFree(WindowSlots(z, duration, date, cursor, endMinutes), threshold, bookings, exceptions);
      Absorb(all, out, left, offered, rest);
      out, left := out + offered, rest;
    }
  }

  /** One rule of one date. */
  method AppendRuleSlots(z: Zone, duration: int, date: int, rule: GridRule, bookings: seq<Range>,
                         exceptions: seq<Range>, threshold: int, before: seq<Range>) returns (out: seq<Range>)
    requires 0 < duration
    ensures out == before + KeepFree(RuleSlots(z, duration, date, rule), threshold, bookings, exceptions)
  {
    out := AppendWindowSlots(z, duration, date, rule.StartMinute(), rule.EndMinute(),
                             bookings, exceptions, threshold, before);
  }

  /** The rules of one date: the middle loop. */
  method AppendRulesSlots(z: Zone, duration: int, date: int, rules: seq<GridRule>, bookings: seq<Range>,
                          exceptions: seq<Range>, threshold: int, before: seq<Range>) returns (out: seq<Range>)
    requires 0 < duration
    ensures out == before + KeepFree(RulesSlots(z, duration, date, rules), threshold, bookings, exceptions)
  {
    out := before;
    for i := 0 to |rules|
      invariant out + KeepFree(RulesSlots(z, duration, date, rules[i..]), threshold, bookings, exceptions)
             == before + KeepFree(RulesSlots(z, duration, date, rules), threshold, bookings, exceptions)
    {
      RuleTurn(z, duration, date, rules, i, threshold, bookings, exceptions, out);
      out := AppendRuleSlots(z, duration, date, rules[i], bookings, exceptions, threshold, out);
    }
  }

  /** compute_available_slots. */
  method ComputeAvailableSlots(z: Zone, duration: int, rules: seq<GridRule>, bookings: seq<Range>,
                               exceptions: seq<Range>, fromDate: int, toDate: int, now: int, minLead: int)
    returns (r: Result<seq<Range>, EngineError>)
    ensures duration <= 0 ==> r == Err(DurationNotPositive)
    ensures 0 < duration ==>
      r == Ok(AvailableSlots(z, duration, rules, bookings, exceptions, fromDate, toDate, now + minLead * MINUTE))
  {
    if duration <= 0 {
      return Err(DurationNotPositive);
    }
    var threshold := now + minLead * MINUTE;
    var rulesByDow := IndexRules(rules);
    var out := [];
    var d := fromDate;
    ghost var all := KeepFree(GridSlots(z, duration, rules, fromDate, toDate), threshold, bookings, exceptions);
    while d <= toDate
      invariant out + KeepFree(GridSlots(z, duration, rules, d, toDate), threshold, bookings, exceptions) == all
    {
      DateTurn(z, duration, rules, d, toDate, threshold, bookings, exceptions, out);
      out := AppendRulesSlots(z, duration, d, RulesFor(rulesByDow, Weekday(d)), bookings, exceptions, threshold, out);
      d := d + 1;
    }
    assert out == all;
    out := SortByStart(out);
    return Ok(out);
  }
}
