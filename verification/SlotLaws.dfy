/** What the listing of the slot engine contains, in what order, and how it reacts to its inputs. */
module SlotLaws {
  import opened Clock
  import opened Modulo
  import opened Slots
  import opened Wrappers
  import opened Zones

  // ----- the grid, declaratively -----

  /** Minute m of the day begins slot number k of the rule, which ends within the rule. */
  ghost predicate StepStart(rule: GridRule, duration: int, k: nat, m: int) {
    m == rule.StartMinute() + k * duration && rule.StartMinute() + (k + 1) * duration <= rule.EndMinute()
  }

  /** A whole number of slots after the rule's start. */
  predicate Aligned(rule: GridRule, duration: int, m: int)
    requires duration != 0
  {
    rule.StartMinute() <= m && (m - rule.StartMinute()) % duration == 0
  }

  /** The closed form: on the rule's raster and fitting before its end. */
  predicate OnRaster(rule: GridRule, duration: int, m: int)
    requires duration != 0
  {
    Aligned(rule, duration, m) && m + duration <= rule.EndMinute()
  }

  /** Counting slots from the start of a rule and testing the remainder select the same minutes. */
  lemma EnumerationIsClosedForm(rule: GridRule, duration: int, m: int)
    requires 0 < duration
    ensures (exists k: nat :: StepStart(rule, duration, k, m)) <==> OnRaster(rule, duration, m)
  {
    if k: nat :| StepStart(rule, duration, k, m) {
      AddMultiple(0, k, duration);
      assert 0 <= k * duration;
    }
    if OnRaster(rule, duration, m) {
      var k := ZeroRemainderIsMultiple(m - rule.StartMinute(), duration);
      assert StepStart(rule, duration, k, m);
    }
  }

  /** The slot s is offered on this date by this rule at minute m. */
  ghost predicate OfferedAt(z: Zone, duration: int, date: int, rule: GridRule, m: int, s: Range)
    requires 0 < duration
  {
    && rule.dayOfWeek == Weekday(date)
    && OnRaster(rule, duration, m)
    && SlotAt(z, duration, date, m) == Some(s)
  }

  ghost predicate InGrid(z: Zone, duration: int, rules: seq<GridRule>, first: int, last: int, s: Range)
    requires 0 < duration
  {
    exists date, rule, m :: first <= date <= last && rule in rules && OfferedAt(z, duration, date, rule, m, s)
  }

  lemma {:induction false} WindowHas(z: Zone, duration: int, date: int, cursor: int, end: int, m: int, s: Range)
    requires 0 < duration && 0 <= cursor <= m && m + duration <= end < 1440
    requires (m - cursor) % duration == 0 && SlotAt(z, duration, date, m) == Some(s)
    ensures s in WindowSlots(z, duration, date, cursor, end)
    decreases end - cursor
  {
    if cursor < m {
      SameRemainderGap(0, m - cursor, duration);
      AddMultiple(m - cursor, -1, duration);
      WindowHas(z, duration, date, cursor + duration, end, m, s);
    }
  }

  lemma {:induction false} WindowHasOnly(z: Zone, duration: int, date: int, cursor: int, end: int, s: Range)
    returns (m: int)
    requires 0 < duration && 0 <= cursor && end < 1440
    requires s in WindowSlots(z, duration, date, cursor, end)
    ensures cursor <= m && m + duration <= end && (m - cursor) % duration == 0
    ensures SlotAt(z, duration, date, m) == Some(s)
    decreases end - cursor
  {
    if SlotAt(z, duration, date, cursor) == Some(s) {
      m := cursor;
    } else {
      m := WindowHasOnly(z, duration, date, cursor + duration, end, s);
      AddMultiple(m - cursor, -1, duration);
    }
  }

  lemma RulesOnMembers(rules: seq<GridRule>, d: int, r: GridRule)
    ensures r in RulesOn(rules, d) <==> r in rules && r.dayOfWeek == d
  {
  }

  lemma {:induction false} RulesHave(z: Zone, duration: int, date: int, rules: seq<GridRule>, rule: GridRule, s: Range)
    requires 0 < duration && rule in rules && s in RuleSlots(z, duration, date, rule)
    ensures s in RulesSlots(z, duration, date, rules)
  {
    if rules[0] != rule { RulesHave(z, duration, date, rules[1..], rule, s); }
  }

  lemma {:induction false} RulesHaveOnly(z: Zone, duration: int, date: int, rules: seq<GridRule>, s: Range)
    returns (rule: GridRule)
    requires 0 < duration && s in RulesSlots(z, duration, date, rules)
    ensures rule in rules && s in RuleSlots(z, duration, date, rule)
  {
    if s in RuleSlots(z, duration, date, rules[0]) {
      rule := rules[0];
    } else {
      rule := RulesHaveOnly(z, duration, date, rules[1..], s);
    }
  }

  lemma {:induction false} GridHas(z: Zone, duration: int, rules: seq<GridRule>, first: int, last: int, date: int,
                                   s: Range)
    requires 0 < duration && first <= date <= last
    requires s in RulesSlots(z, duration, date, RulesOn(rules, Weekday(date)))
    ensures s in GridSlots(z, duration, rules, first, last)
    decreases last - first
  {
    var today := RulesSlots(z, duration, first, RulesOn(rules, Weekday(first)));
    var later := GridSlots(z, duration, rules, first + 1, last);
    assert GridSlots(z, duration, rules, first, last) == today + later;
    if first < date {
      GridHas(z, duration, rules, first + 1, last, date, s);
      assert s in later;
    } else {
      assert s in today;
    }
  }

  lemma {:induction false} GridHasOnly(z: Zone, duration: int, rules: seq<GridRule>, first: int, last: int, s: Range)
    returns (date: int)
    requires 0 < duration && s in GridSlots(z, duration, rules, first, last)
    ensures first <= date <= last
    ensures s in RulesSlots(z, duration, date, RulesOn(rules, Weekday(date)))
    decreases last - first
  {
    if s in RulesSlots(z, duration, first, RulesOn(rules, Weekday(first))) {
      date := first;
    } else {
      date := GridHasOnly(z, duration, rules, first + 1, last, s);
    }
  }

  lemma RuleHasOnly(z: Zone, duration: int, date: int, rule: GridRule, s: Range) returns (m: int)
    requires 0 < duration && s in RuleSlots(z, duration, date, rule)
    ensures OnRaster(rule, duration, m) && SlotAt(z, duration, date, m) == Some(s)
  {
    m := WindowHasOnly(z, duration, date, rule.StartMinute(), rule.EndMinute(), s);
  }

  lemma GridWitness(z: Zone, duration: int, rules: seq<GridRule>, first: int, last: int, s: Range)
    returns (date: int, rule: GridRule, m: int)
    requires 0 < duration && s in GridSlots(z, duration, rules, first, last)
    ensures first <= date <= last && rule in rules && OfferedAt(z, duration, date, rule, m, s)
  {
    date := GridHasOnly(z, duration, rules, first, last, s);
    rule := RulesHaveOnly(z, duration, date, RulesOn(rules, Weekday(date)), s);
    RulesOnMembers(rules, Weekday(date), rule);
    m := RuleHasOnly(z, duration, date, rule, s);
  }

  /** The three loops meet exactly the slots the grid offers. */
  lemma GridIsExact(z: Zone, duration: int, rules: seq<GridRule>, first: int, last: int, s: Range)
    requires 0 < duration
    ensures s in GridSlots(z, duration, rules, first, last) <==> InGrid(z, duration, rules, first, last, s)
  {
    if s in GridSlots(z, duration, rules, first, last) {
      var date, rule, m := GridWitness(z, duration, rules, first, last, s);
    }
    if InGrid(z, duration, rules, first, last, s) {
      var date, rule, m :| first <= date <= last && rule in rules && OfferedAt(z, duration, date, rule, m, s);
      WindowHas(z, duration, date, rule.StartMinute(), rule.EndMinute(), m, s);
      RulesOnMembers(rules, Weekday(date), rule);
      RulesHave(z, duration, date, RulesOn(rules, Weekday(date)), rule, s);
      GridHas(z, duration, rules, first, last, date, s);
    }
  }

  lemma KeepFreeMembers(slots: seq<Range>, threshold: int, bookings: seq<Range>, exceptions: seq<Range>, s: Range)
    ensures s in KeepFree(slots, threshold, bookings, exceptions) <==>
              s in slots && Free(s, threshold, bookings, exceptions)
  {
  }

  // ----- sorting -----

  lemma InsertMembers(r: Range, s: seq<Range>, x: Range)
    ensures x in InsertByStart(r, s) <==> x == r || x in s
  {
  }

  lemma SortMembers(s: seq<Range>, x: Range)
    ensures x in SortByStart(s) <==> x in s
  {
    if s != [] { InsertMembers(s[0], SortByStart(s[1..]), x); }
  }

  lemma {:induction false} InsertSorts(r: Range, s: seq<Range>)
    requires SortedByStart(s)
    ensures SortedByStart(InsertByStart(r, s))
  {
    if s != [] && s[0].start < r.start {
      var rest := InsertByStart(r, s[1..]);
      InsertSorts(r, s[1..]);
      forall x | x in rest
        ensures s[0].start <= x.start
      {
        InsertMembers(r, s[1..], x);
      }
    }
  }

  lemma {:induction false} SortSorts(s: seq<Range>)
    ensures SortedByStart(SortByStart(s))
  {
    if s != [] {
      SortSorts(s[1..]);
      InsertSorts(s[0], SortByStart(s[1..]));
    }
  }

  lemma {:induction false} InsertAdds(r: Range, s: seq<Range>)
    ensures multiset(InsertByStart(r, s)) == multiset(s) + multiset{r}
  {
    if s != [] && s[0].start < r.start {
      InsertAdds(r, s[1..]);
      assert s == [s[0]] + s[1..];
    }
  }

  lemma {:induction false} SortPermutes(s: seq<Range>)
    ensures multiset(SortByStart(s)) == multiset(s)
  {
    if s != [] {
      SortPermutes(s[1..]);
      InsertAdds(s[0], SortByStart(s[1..]));
      assert s == [s[0]] + s[1..];
    }
  }

  /** The listing holds exactly the free slots of the grid, in order of their starts. */
  lemma ListingIsExact(z: Zone, duration: int, rules: seq<GridRule>, bookings: seq<Range>,
                       exceptions: seq<Range>, first: int, last: int, threshold: int)
    requires 0 < duration
    ensures var out := AvailableSlots(z, duration, rules, bookings, exceptions, first, last, threshold);
      && SortedByStart(out)
      && forall s :: s in out <==>
           InGrid(z, duration, rules, first, last, s) && Free(s, threshold, bookings, exceptions)
  {
    var grid := GridSlots(z, duration, rules, first, last);
    var free := KeepFree(grid, threshold, bookings, exceptions);
    SortSorts(free);
    forall s
      ensures s in SortByStart(free) <==>
                InGrid(z, duration, rules, first, last, s) && Free(s, threshold, bookings, exceptions)
    {
      SortMembers(free, s);
      KeepFreeMembers(grid, threshold, bookings, exceptions, s);
      GridIsExact(z, duration, rules, first, last, s);
    }
  }

  // ----- the grid's slots are apart -----

  /** Rules of one weekday have disjoint windows, to the minute. */
  ghost predicate RulesDisjoint(rules: seq<GridRule>) {
    forall i, j :: 0 <= i < j < |rules| && rules[i].dayOfWeek == rules[j].dayOfWeek ==>
      rules[i].EndMinute() <= rules[j].StartMinute() || rules[j].EndMinute() <= rules[i].StartMinute()
  }

  /** On the wall, two grid slots either start together or do not overlap. */
  lemma WallWindowsApart(duration: int, rules: seq<GridRule>, date1: int, rule1: GridRule, m1: int,
                         date2: int, rule2: GridRule, m2: int)
    requires 0 < duration && RulesDisjoint(rules) && rule1 in rules && rule2 in rules
    requires rule1.dayOfWeek == Weekday(date1) && rule2.dayOfWeek == Weekday(date2)
    requires OnRaster(rule1, duration, m1) && OnRaster(rule2, duration, m2)
    requires WallStart(date1, m1) < WallStart(date2, m2)
    ensures WallStart(date1, m1 + duration) <= WallStart(date2, m2)
  {
    if date1 == date2 {
      if rule1 == rule2 {
        SameRemainderGap(m1 - rule1.StartMinute(), m2 - rule1.StartMinute(), duration);
      }
    }
  }

  lemma SlotAtWall(z: Zone, duration: int, date: int, rule: GridRule, m: int, s: Range)
    requires z.Valid() && 0 < duration && OfferedAt(z, duration, date, rule, m, s)
    ensures z.Wall(s.start) == WallStart(date, m) && s.end == s.start + duration * MINUTE
    ensures LocalToUtcOrNone(z, WallStart(date, m), false) == Some(s.start)
  {
  }

  /** How much local clocks gain on UTC from u to v. */
  function Gain(z: Zone, u: int, v: int): int { z.OffsetAt(v) - z.OffsetAt(u) }

  /** The wall-clock time between the end of a slot, counted from its reading at u, and the reading at v. */
  function Slack(z: Zone, duration: int, u: int, v: int): int { z.Wall(v) - (z.Wall(u) + duration * MINUTE) }

  lemma OfferedSlotsHaveRoom(z: Zone, duration: int, rules: seq<GridRule>, date1: int, rule1: GridRule, m1: int,
                             s1: Range, date2: int, rule2: GridRule, m2: int, s2: Range)
    requires z.Valid() && 0 < duration && RulesDisjoint(rules) && rule1 in rules && rule2 in rules
    requires OfferedAt(z, duration, date1, rule1, m1, s1) && OfferedAt(z, duration, date2, rule2, m2, s2)
    requires s1.start < s2.start
    ensures 0 <= Slack(z, duration, s1.start, s2.start)
  {
    SlotAtWall(z, duration, date1, rule1, m1, s1);
    SlotAtWall(z, duration, date2, rule2, m2, s2);
    FirstReadersKeepOrder(z, WallStart(date1, m1), WallStart(date2, m2), s1.start, s2.start);
    WallWindowsApart(duration, rules, date1, rule1, m1, date2, rule2, m2);
  }

  lemma GridSlotLength(z: Zone, duration: int, rules: seq<GridRule>, first: int, last: int, s: Range)
    requires 0 < duration && InGrid(z, duration, rules, first, last, s)
    ensures s.end == s.start + duration * MINUTE
  {
    var date, rule, m :| first <= date <= last && rule in rules && OfferedAt(z, duration, date, rule, m, s);
  }

  /** Between two grid slots there is room on the wall for the earlier one. */
  lemma GridSlotsHaveRoom(z: Zone, duration: int, rules: seq<GridRule>, first: int, last: int, s1: Range, s2: Range)
    requires z.Valid() && 0 < duration && RulesDisjoint(rules)
    requires InGrid(z, duration, rules, first, last, s1) && InGrid(z, duration, rules, first, last, s2)
    requires s1.start < s2.start
    ensures 0 <= Slack(z, duration, s1.start, s2.start)
  {
    var date1, rule1, m1 :| first <= date1 <= last && rule1 in rules && OfferedAt(z, duration, date1, rule1, m1, s1);
    var date2, rule2, m2 :| first <= date2 <= last && rule2 in rules && OfferedAt(z, duration, date2, rule2, m2, s2);
    OfferedSlotsHaveRoom(z, duration, rules, date1, rule1, m1, s1, date2, rule2, m2, s2);
  }

  /** At no instant of the slot are clocks further ahead than when it starts. */
  ghost predicate NoJumpForward(z: Zone, s: Range) {
    forall u :: s.start <= u < s.end ==> z.OffsetAt(u) <= z.OffsetAt(s.start)
  }

  /** Grid slots never overlap as long as no forward jump falls inside them. */
  lemma GridSlotsApart(z: Zone, duration: int, rules: seq<GridRule>, first: int, last: int, s1: Range, s2: Range)
    requires z.Valid() && 0 < duration && RulesDisjoint(rules)
    requires InGrid(z, duration, rules, first, last, s1) && InGrid(z, duration, rules, first, last, s2)
    requires s1.start < s2.start && NoJumpForward(z, s1)
    ensures s1.end <= s2.start
  {
    GridSlotsHaveRoom(z, duration, rules, first, last, s1, s2);
    GridSlotLength(z, duration, rules, first, last, s1);
  }
}
