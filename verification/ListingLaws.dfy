/** Laws of the whole listing: blockers act as filters, input order is irrelevant, starts are
    distinct, and what a forward clock jump can break. */
module ListingLaws {
  import opened Clock
  import opened Slots
  import opened SlotLaws
  import opened Wrappers
  import opened Zones

  // ----- more blockers mean a further filter -----

  lemma FreeSplits(s: Range, threshold: int, bookings: seq<Range>, more: seq<Range>, exceptions: seq<Range>)
    ensures Free(s, threshold, bookings + more, exceptions) <==>
              Free(s, threshold, bookings, exceptions) && !OverlapsAny(s, more)
  {
    assert forall r :: r in bookings + more <==> r in bookings || r in more;
  }

  /** The ranges that overlap none of the blockers, in their given order. */
  function Without(slots: seq<Range>, blockers: seq<Range>): seq<Range> {
    if slots == [] then []
    else (if OverlapsAny(slots[0], blockers) then [] else [slots[0]]) + Without(slots[1..], blockers)
  }

  lemma WithoutHead(a: seq<Range>, b: seq<Range>, blockers: seq<Range>)
    requires a != [] && Without(a[1..] + b, blockers) == Without(a[1..], blockers) + Without(b, blockers)
    ensures Without(a + b, blockers) == Without(a, blockers) + Without(b, blockers)
  {
    assert (a + b)[1..] == a[1..] + b;
    AppendAssociates(if OverlapsAny(a[0], blockers) then [] else [a[0]],
                     Without(a[1..], blockers), Without(b, blockers));
  }

  lemma {:induction false} WithoutAppend(a: seq<Range>, b: seq<Range>, blockers: seq<Range>)
    ensures Without(a + b, blockers) == Without(a, blockers) + Without(b, blockers)
  {
    if a == [] {
      assert a + b == b;
    } else {
      WithoutAppend(a[1..], b, blockers);
      WithoutHead(a, b, blockers);
    }
  }

  lemma {:induction false} KeepFreeSplits(slots: seq<Range>, threshold: int, bookings: seq<Range>, more: seq<Range>,
                                          exceptions: seq<Range>)
    ensures KeepFree(slots, threshold, bookings + more, exceptions)
         == Without(KeepFree(slots, threshold, bookings, exceptions), more)
  {
    if slots != [] {
      var rest := KeepFree(slots[1..], threshold, bookings, exceptions);
      KeepFreeSplits(slots[1..], threshold, bookings, more, exceptions);
      FreeSplits(slots[0], threshold, bookings, more, exceptions);
      var head := if Free(slots[0], threshold, bookings, exceptions) then [slots[0]] else [];
      WithoutAppend(head, rest, more);
    }
  }

  lemma WithoutMembers(slots: seq<Range>, blockers: seq<Range>, s: Range)
    ensures s in Without(slots, blockers) <==> s in slots && !OverlapsAny(s, blockers)
  {
  }

  lemma InsertInFront(r: Range, s: seq<Range>)
    requires forall x :: x in s ==> r.start <= x.start
    ensures InsertByStart(r, s) == [r] + s
  {
  }

  lemma {:induction false} WithoutInsert(r: Range, s: seq<Range>, blockers: seq<Range>)
    requires SortedByStart(s)
    ensures Without(InsertByStart(r, s), blockers)
         == if OverlapsAny(r, blockers) then Without(s, blockers) else InsertByStart(r, Without(s, blockers))
  {
    if s == [] || r.start <= s[0].start {
      WithoutAppend([r], s, blockers);
      assert Without([r], blockers) == if OverlapsAny(r, blockers) then [] else [r];
      forall x | x in Without(s, blockers)
        ensures r.start <= x.start
      {
        WithoutMembers(s, blockers, x);
      }
      InsertInFront(r, Without(s, blockers));
    } else {
      WithoutInsert(r, s[1..], blockers);
      WithoutAppend([s[0]], InsertByStart(r, s[1..]), blockers);
      var head := if OverlapsAny(s[0], blockers) then [] else [s[0]];
      var tail := Without(s[1..], blockers);
      assert Without([s[0]], blockers) == head;
      assert Without(s, blockers) == head + tail;
      if !OverlapsAny(r, blockers) {
        assert [] + tail == tail && [] + InsertByStart(r, tail) == InsertByStart(r, tail);
        assert head != [] ==> (head + tail)[0] == s[0] && (head + tail)[1..] == tail;
      }
    }
  }

  lemma {:induction false} WithoutSort(s: seq<Range>, blockers: seq<Range>)
    ensures Without(SortByStart(s), blockers) == SortByStart(Without(s, blockers))
  {
    if s != [] {
      WithoutSort(s[1..], blockers);
      SortSorts(s[1..]);
      WithoutInsert(s[0], SortByStart(s[1..]), blockers);
      var tail := Without(s[1..], blockers);
      assert [] + tail == tail && ([s[0]] + tail)[1..] == tail;
    }
  }

  /** Listing against more bookings is filtering the listing against fewer, order kept. */
  lemma MoreBookingsFilter(z: Zone, duration: int, rules: seq<GridRule>, bookings: seq<Range>, more: seq<Range>,
                           exceptions: seq<Range>, first: int, last: int, threshold: int)
    requires 0 < duration
    ensures AvailableSlots(z, duration, rules, bookings + more, exceptions, first, last, threshold)
         == Without(AvailableSlots(z, duration, rules, bookings, exceptions, first, last, threshold), more)
  {
    var grid := GridSlots(z, duration, rules, first, last);
    KeepFreeSplits(grid, threshold, bookings, more, exceptions);
    WithoutSort(KeepFree(grid, threshold, bookings, exceptions), more);
  }

  // ----- the order of the inputs does not matter -----

  ghost predicate OneDuration(s: seq<Range>, length: int) {
    forall x :: x in s ==> x.end == x.start + length
  }

  lemma SameHead(a: seq<Range>, b: seq<Range>, length: int)
    requires SortedByStart(a) && SortedByStart(b) && multiset(a) == multiset(b) && a != []
    requires OneDuration(a, length)
    ensures b != [] && a[0] == b[0]
  {
    assert a[0] in multiset(b);
    assert b[0] in multiset(a);
    assert b[0] in a;
  }

  lemma SameTail(a: seq<Range>, b: seq<Range>)
    requires multiset(a) == multiset(b) && a != [] && b != [] && a[0] == b[0]
    ensures multiset(a[1..]) == multiset(b[1..])
  {
    assert a == [a[0]] + a[1..] && b == [b[0]] + b[1..];
    assert multiset(a[1..]) == multiset(a) - multiset{a[0]};
    assert multiset(b[1..]) == multiset(b) - multiset{b[0]};
  }

  lemma {:induction false} SortedIsUnique(a: seq<Range>, b: seq<Range>, length: int)
    requires SortedByStart(a) && SortedByStart(b) && multiset(a) == multiset(b)
    requires OneDuration(a, length)
    ensures a == b
  {
    if a == [] {
      assert |multiset(b)| == 0;
    } else {
      SameHead(a, b, length);
      SameTail(a, b);
      SortedIsUnique(a[1..], b[1..], length);
    }
  }

  lemma {:induction false} KeepFreeCount(slots: seq<Range>, threshold: int, bookings: seq<Range>,
                                         exceptions: seq<Range>, s: Range)
    ensures multiset(KeepFree(slots, threshold, bookings, exceptions))[s]
         == if Free(s, threshold, bookings, exceptions) then multiset(slots)[s] else 0
  {
    if slots != [] {
      KeepFreeCount(slots[1..], threshold, bookings, exceptions, s);
      assert slots == [slots[0]] + slots[1..];
    }
  }

  lemma RulesSlotsHead(z: Zone, duration: int, date: int, a: seq<GridRule>, b: seq<GridRule>)
    requires 0 < duration && a != []
    ensures RulesSlots(z, duration, date, a)
         == RuleSlots(z, duration, date, a[0]) + RulesSlots(z, duration, date, a[1..])
    ensures RulesSlots(z, duration, date, a + b)
         == RuleSlots(z, duration, date, a[0]) + RulesSlots(z, duration, date, a[1..] + b)
  {
    assert (a + b)[1..] == a[1..] + b;
  }

  lemma {:induction false} RulesSlotsAppend(z: Zone, duration: int, date: int, a: seq<GridRule>, b: seq<GridRule>)
    requires 0 < duration
    ensures RulesSlots(z, duration, date, a + b) == RulesSlots(z, duration, date, a) + RulesSlots(z, duration, date, b)
    decreases |a|
  {
    if a == [] {
      assert a + b == b;
    } else {
      RulesSlotsAppend(z, duration, date, a[1..], b);
      RulesSlotsHead(z, duration, date, a, b);
      AppendAssociates(RuleSlots(z, duration, date, a[0]), RulesSlots(z, duration, date, a[1..]),
                       RulesSlots(z, duration, date, b));
    }
  }

  lemma {:induction false} RulesOnCount(rules: seq<GridRule>, d: int, r: GridRule)
    ensures multiset(RulesOn(rules, d))[r] == if r.dayOfWeek == d then multiset(rules)[r] else 0
  {
    if rules != [] {
      RulesOnCount(rules[1..], d, r);
      assert rules == [rules[0]] + rules[1..];
    }
  }

  lemma RemoveAt<T>(s: seq<T>, i: nat)
    requires i < |s|
    ensures multiset(s[..i] + s[i + 1..]) == multiset(s) - multiset{s[i]}
  {
    assert s == s[..i] + [s[i]] + s[i + 1..];
  }

  lemma RulesSlotsMiddle(z: Zone, duration: int, date: int, b: seq<GridRule>, i: nat)
    requires 0 < duration && i < |b|
    ensures multiset(RulesSlots(z, duration, date, b))
         == multiset(RuleSlots(z, duration, date, b[i])) + multiset(RulesSlots(z, duration, date, b[..i] + b[i + 1..]))
  {
    assert b == b[..i] + b[i..] && b[i..][1..] == b[i + 1..];
    RulesSlotsAppend(z, duration, date, b[..i], b[i..]);
    RulesSlotsAppend(z, duration, date, b[..i], b[i + 1..]);
  }

  lemma {:induction false} RulesSlotsPermute(z: Zone, duration: int, date: int, a: seq<GridRule>, b: seq<GridRule>)
    requires 0 < duration && multiset(a) == multiset(b)
    ensures multiset(RulesSlots(z, duration, date, a)) == multiset(RulesSlots(z, duration, date, b))
    decreases |a|
  {
    if a == [] {
      assert |multiset(b)| == 0;
    } else {
      assert a[0] in multiset(b);
      var i :| 0 <= i < |b| && b[i] == a[0];
      RemoveAt(b, i);
      assert a == [a[0]] + a[1..];
      RulesSlotsPermute(z, duration, date, a[1..], b[..i] + b[i + 1..]);
      RulesSlotsMiddle(z, duration, date, b, i);
    }
  }

  lemma {:induction false} GridPermutes(z: Zone, duration: int, a: seq<GridRule>, b: seq<GridRule>,
                                        first: int, last: int)
    requires 0 < duration && multiset(a) == multiset(b)
    ensures multiset(GridSlots(z, duration, a, first, last)) == multiset(GridSlots(z, duration, b, first, last))
    decreases last - first
  {
    if first <= last {
      var d := Weekday(first);
      GridPermutes(z, duration, a, b, first + 1, last);
      forall r ensures multiset(RulesOn(a, d))[r] == multiset(RulesOn(b, d))[r] {
        RulesOnCount(a, d, r);
        RulesOnCount(b, d, r);
      }
      RulesSlotsPermute(z, duration, first, RulesOn(a, d), RulesOn(b, d));
    }
  }

  lemma GridOneDuration(z: Zone, duration: int, rules: seq<GridRule>, first: int, last: int)
    requires 0 < duration
    ensures OneDuration(GridSlots(z, duration, rules, first, last), duration * MINUTE)
  {
    forall s | s in GridSlots(z, duration, rules, first, last)
      ensures s.end == s.start + duration * MINUTE
    {
      var date, rule, m := GridWitness(z, duration, rules, first, last, s);
    }
  }

  lemma SameMembersOverlapAlike(s: Range, a: seq<Range>, b: seq<Range>)
    requires multiset(a) == multiset(b)
    ensures OverlapsAny(s, a) <==> OverlapsAny(s, b)
  {
    assert forall r :: r in a <==> r in multiset(a);
    assert forall r :: r in b <==> r in multiset(b);
  }

  lemma FreeOneDuration(z: Zone, duration: int, rules: seq<GridRule>, bookings: seq<Range>, exceptions: seq<Range>,
                        first: int, last: int, threshold: int)
    requires 0 < duration
    ensures OneDuration(AvailableSlots(z, duration, rules, bookings, exceptions, first, last, threshold),
                        duration * MINUTE)
  {
    var grid := GridSlots(z, duration, rules, first, last);
    GridOneDuration(z, duration, rules, first, last);
    forall s | s in AvailableSlots(z, duration, rules, bookings, exceptions, first, last, threshold)
      ensures s in grid
    {
      SortMembers(KeepFree(grid, threshold, bookings, exceptions), s);
      KeepFreeMembers(grid, threshold, bookings, exceptions, s);
    }
  }

  /** Reordering rules, bookings and exceptions leaves the listing as it was, overlapping rules included. */
  lemma OrderIsIrrelevant(z: Zone, duration: int, first: int, last: int, threshold: int,
                          rules: seq<GridRule>, rules': seq<GridRule>, bookings: seq<Range>, bookings': seq<Range>,
                          exceptions: seq<Range>, exceptions': seq<Range>)
    requires 0 < duration && multiset(rules) == multiset(rules')
    requires multiset(bookings) == multiset(bookings') && multiset(exceptions) == multiset(exceptions')
    ensures AvailableSlots(z, duration, rules, bookings, exceptions, first, last, threshold)
         == AvailableSlots(z, duration, rules', bookings', exceptions', first, last, threshold)
  {
    var grid, grid' := GridSlots(z, duration, rules, first, last), GridSlots(z, duration, rules', first, last);
    var free := KeepFree(grid, threshold, bookings, exceptions);
    var free' := KeepFree(grid', threshold, bookings', exceptions');
    GridPermutes(z, duration, rules, rules', first, last);
    forall s ensures multiset(free)[s] == multiset(free')[s] {
      KeepFreeCount(grid, threshold, bookings, exceptions, s);
      KeepFreeCount(grid', threshold, bookings', exceptions', s);
      SameMembersOverlapAlike(s, bookings, bookings');
      SameMembersOverlapAlike(s, exceptions, exceptions');
    }
    FreeOneDuration(z, duration, rules, bookings, exceptions, first, last, threshold);
    SortSorts(free);
    SortSorts(free');
    SortPermutes(free);
    SortPermutes(free');
    assert multiset(free) == multiset(free');
    SortedIsUnique(SortByStart(free), SortByStart(free'), duration * MINUTE);
  }

  // ----- every rule adds its own slots -----

  lemma {:induction false} RulesOnConcat(a: seq<GridRule>, b: seq<GridRule>, d: int)
    ensures RulesOn(a + b, d) == RulesOn(a, d) + RulesOn(b, d)
  {
    if a == [] {
      assert a + b == b;
    } else {
      assert (a + b)[1..] == a[1..] + b;
      RulesOnConcat(a[1..], b, d);
      AppendAssociates(if a[0].dayOfWeek == d then [a[0]] else [], RulesOn(a[1..], d), RulesOn(b, d));
    }
  }

  lemma {:induction false} GridAddsUp(z: Zone, duration: int, a: seq<GridRule>, b: seq<GridRule>, first: int, last: int)
    requires 0 < duration
    ensures multiset(GridSlots(z, duration, a + b, first, last))
         == multiset(GridSlots(z, duration, a, first, last)) + multiset(GridSlots(z, duration, b, first, last))
    decreases last - first
  {
    if first <= last {
      var d := Weekday(first);
      GridAddsUp(z, duration, a, b, first + 1, last);
      RulesOnConcat(a, b, d);
      RulesSlotsAppend(z, duration, first, RulesOn(a, d), RulesOn(b, d));
    }
  }

  lemma ListedCount(z: Zone, duration: int, rules: seq<GridRule>, bookings: seq<Range>, exceptions: seq<Range>,
                    first: int, last: int, threshold: int, s: Range)
    requires 0 < duration
    ensures multiset(AvailableSlots(z, duration, rules, bookings, exceptions, first, last, threshold))[s]
         == if Free(s, threshold, bookings, exceptions) then multiset(GridSlots(z, duration, rules, first, last))[s]
            else 0
  {
    var grid := GridSlots(z, duration, rules, first, last);
    SortPermutes(KeepFree(grid, threshold, bookings, exceptions));
    KeepFreeCount(grid, threshold, bookings, exceptions, s);
  }

  /** How often a slot is listed: as often by the rules together as by some of them and by the others. */
  lemma RulesAddUp(z: Zone, duration: int, a: seq<GridRule>, b: seq<GridRule>, bookings: seq<Range>,
                   exceptions: seq<Range>, first: int, last: int, threshold: int, s: Range)
    requires 0 < duration
    ensures multiset(AvailableSlots(z, duration, a + b, bookings, exceptions, first, last, threshold))[s]
         == multiset(AvailableSlots(z, duration, a, bookings, exceptions, first, last, threshold))[s]
            + multiset(AvailableSlots(z, duration, b, bookings, exceptions, first, last, threshold))[s]
  {
    GridAddsUp(z, duration, a, b, first, last);
    ListedCount(z, duration, a + b, bookings, exceptions, first, last, threshold, s);
    ListedCount(z, duration, a, bookings, exceptions, first, last, threshold, s);
    ListedCount(z, duration, b, bookings, exceptions, first, last, threshold, s);
  }

  // ----- distinct starts -----

  ghost predicate DistinctStarts(s: seq<Range>) {
    forall i, j :: 0 <= i < j < |s| ==> s[i].start != s[j].start
  }

  ghost predicate StrictByStart(s: seq<Range>) {
    forall i, j :: 0 <= i < j < |s| ==> s[i].start < s[j].start
  }

  ghost predicate NoSharedStart(a: seq<Range>, b: seq<Range>) {
    forall x, y :: x in a && y in b ==> x.start != y.start
  }

  lemma DistinctAppend(a: seq<Range>, b: seq<Range>)
    requires DistinctStarts(a) && DistinctStarts(b) && NoSharedStart(a, b)
    ensures DistinctStarts(a + b)
  {
  }

  lemma ReaderReads(z: Zone, wall: int, u: int)
    requires LocalToUtcOrNone(z, wall, false) == Some(u)
    ensures z.Wall(u) == wall
  {
  }

  lemma WallStartInjective(date1: int, m1: int, date2: int, m2: int)
    requires 0 <= m1 < 1440 && 0 <= m2 < 1440 && (date1 != date2 || m1 != m2)
    ensures WallStart(date1, m1) != WallStart(date2, m2)
  {
  }

  lemma SlotStartsOnWall(z: Zone, duration: int, date: int, m: int, s: Range)
    requires 0 <= m < 1440 && SlotAt(z, duration, date, m) == Some(s)
    ensures LocalToUtcOrNone(z, WallStart(date, m), false) == Some(s.start)
  {
  }

  lemma DistinctMinutes(z: Zone, duration: int, date1: int, m1: int, s1: Range, date2: int, m2: int, s2: Range)
    requires z.Valid() && 0 <= m1 < 1440 && 0 <= m2 < 1440
    requires SlotAt(z, duration, date1, m1) == Some(s1) && SlotAt(z, duration, date2, m2) == Some(s2)
    requires date1 != date2 || m1 != m2
    ensures s1.start != s2.start
  {
    SlotStartsOnWall(z, duration, date1, m1, s1);
    SlotStartsOnWall(z, duration, date2, m2, s2);
    ReaderReads(z, WallStart(date1, m1), s1.start);
    ReaderReads(z, WallStart(date2, m2), s2.start);
    WallStartInjective(date1, m1, date2, m2);
  }

  lemma FirstOfWindowDistinct(z: Zone, duration: int, date: int, cursor: int, end: int, s: Range, y: Range)
    requires z.Valid() && 0 < duration && 0 <= cursor && end < 1440 && cursor + duration <= end
    requires SlotAt(z, duration, date, cursor) == Some(s)
    requires y in WindowSlots(z, duration, date, cursor + duration, end)
    ensures s.start != y.start
  {
    var m := WindowHasOnly(z, duration, date, cursor + duration, end, y);
    DistinctMinutes(z, duration, date, cursor, s, date, m, y);
  }

  lemma HeadDistinct(head: Option<Range>, rest: seq<Range>)
    requires DistinctStarts(rest) && (head.Some? ==> forall y :: y in rest ==> head.value.start != y.start)
    ensures DistinctStarts((match head case None => [] case Some(s) => [s]) + rest)
  {
  }

  lemma {:induction false} WindowDistinct(z: Zone, duration: int, date: int, cursor: int, end: int)
    requires z.Valid() && 0 < duration && 0 <= cursor && end < 1440
    ensures DistinctStarts(WindowSlots(z, duration, date, cursor, end))
    decreases end - cursor
  {
    if cursor + duration <= end {
      WindowDistinct(z, duration, date, cursor + duration, end);
      var first := SlotAt(z, duration, date, cursor);
      if first.Some? {
        forall y | y in WindowSlots(z, duration, date, cursor + duration, end)
          ensures first.value.start != y.start
        {
          FirstOfWindowDistinct(z, duration, date, cursor, end, first.value, y);
        }
      }
      HeadDistinct(first, WindowSlots(z, duration, date, cursor + duration, end));
    }
  }

  lemma RulePairDistinct(z: Zone, duration: int, date: int, rule1: GridRule, rule2: GridRule, x: Range, y: Range)
    requires z.Valid() && 0 < duration
    requires rule1.EndMinute() <= rule2.StartMinute() || rule2.EndMinute() <= rule1.StartMinute()
    requires x in RuleSlots(z, duration, date, rule1) && y in RuleSlots(z, duration, date, rule2)
    ensures x.start != y.start
  {
    var m1 := RuleHasOnly(z, duration, date, rule1, x);
    var m2 := RuleHasOnly(z, duration, date, rule2, y);
    DistinctMinutes(z, duration, date, m1, x, date, m2, y);
  }

  /** Rules of one weekday that are already selected: every two of them have disjoint windows. */
  ghost predicate WindowsDisjoint(rules: seq<GridRule>) {
    forall i, j :: 0 <= i < j < |rules| ==>
      rules[i].EndMinute() <= rules[j].StartMinute() || rules[j].EndMinute() <= rules[i].StartMinute()
  }

  lemma {:induction false} RulesDistinct(z: Zone, duration: int, date: int, rules: seq<GridRule>)
    requires z.Valid() && 0 < duration && WindowsDisjoint(rules)
    ensures DistinctStarts(RulesSlots(z, duration, date, rules))
  {
    if rules != [] {
      var head, rest := RuleSlots(z, duration, date, rules[0]), RulesSlots(z, duration, date, rules[1..]);
      WindowDistinct(z, duration, date, rules[0].StartMinute(), rules[0].EndMinute());
      RulesDistinct(z, duration, date, rules[1..]);
      forall x, y | x in head && y in rest
        ensures x.start != y.start
      {
        var other := RulesHaveOnly(z, duration, date, rules[1..], y);
        var j :| 1 <= j < |rules| && rules[j] == other;
        RulePairDistinct(z, duration, date, rules[0], rules[j], x, y);
      }
      DistinctAppend(head, rest);
    }
  }

  lemma {:induction false} RulesOnDisjoint(rules: seq<GridRule>, d: int)
    requires RulesDisjoint(rules)
    ensures WindowsDisjoint(RulesOn(rules, d))
  {
    if rules != [] {
      RulesOnDisjoint(rules[1..], d);
      var rest := RulesOn(rules[1..], d);
      forall j | 0 <= j < |rest| && rules[0].dayOfWeek == d
        ensures rules[0].EndMinute() <= rest[j].StartMinute() || rest[j].EndMinute() <= rules[0].StartMinute()
      {
        RulesOnMembers(rules[1..], d, rest[j]);
        var i :| 1 <= i < |rules| && rules[i] == rest[j];
      }
    }
  }

  lemma {:induction false} GridDistinct(z: Zone, duration: int, rules: seq<GridRule>, first: int, last: int)
    requires z.Valid() && 0 < duration && RulesDisjoint(rules)
    ensures DistinctStarts(GridSlots(z, duration, rules, first, last))
    decreases last - first
  {
    if first <= last {
      var on := RulesOn(rules, Weekday(first));
      var today, later := RulesSlots(z, duration, first, on), GridSlots(z, duration, rules, first + 1, last);
      GridDistinct(z, duration, rules, first + 1, last);
      RulesOnDisjoint(rules, Weekday(first));
      RulesDistinct(z, duration, first, on);
      forall x, y | x in today && y in later
        ensures x.start != y.start
      {
        var rule1 := RulesHaveOnly(z, duration, first, on, x);
        var m1 := RuleHasOnly(z, duration, first, rule1, x);
        var date, rule2, m2 := GridWitness(z, duration, rules, first + 1, last, y);
        DistinctMinutes(z, duration, first, m1, x, date, m2, y);
      }
      DistinctAppend(today, later);
    }
  }

  lemma {:induction false} KeepFreeDistinct(slots: seq<Range>, threshold: int, bookings: seq<Range>,
                                            exceptions: seq<Range>)
    requires DistinctStarts(slots)
    ensures DistinctStarts(KeepFree(slots, threshold, bookings, exceptions))
  {
    if slots != [] {
      var rest := KeepFree(slots[1..], threshold, bookings, exceptions);
      KeepFreeDistinct(slots[1..], threshold, bookings, exceptions);
      forall y | y in rest
        ensures slots[0].start != y.start
      {
        KeepFreeMembers(slots[1..], threshold, bookings, exceptions, y);
      }
      DistinctAppend([slots[0]], rest);
    }
  }

  lemma {:induction false} InsertStrict(r: Range, s: seq<Range>)
    requires StrictByStart(s) && forall x :: x in s ==> x.start != r.start
    ensures StrictByStart(InsertByStart(r, s))
  {
    if s != [] && s[0].start < r.start {
      InsertStrict(r, s[1..]);
      forall x | x in InsertByStart(r, s[1..])
        ensures s[0].start < x.start
      {
        InsertMembers(r, s[1..], x);
      }
    }
  }

  lemma {:induction false} SortStrict(s: seq<Range>)
    requires DistinctStarts(s)
    ensures StrictByStart(SortByStart(s))
  {
    if s != [] {
      SortStrict(s[1..]);
      forall x | x in SortByStart(s[1..])
        ensures x.start != s[0].start
      {
        SortMembers(s[1..], x);
      }
      InsertStrict(s[0], SortByStart(s[1..]));
    }
  }

  /** With disjoint rules no start is listed twice. */
  lemma ListingIsStrict(z: Zone, duration: int, rules: seq<GridRule>, bookings: seq<Range>,
                        exceptions: seq<Range>, first: int, last: int, threshold: int)
    requires z.Valid() && 0 < duration && RulesDisjoint(rules)
    ensures StrictByStart(AvailableSlots(z, duration, rules, bookings, exceptions, first, last, threshold))
  {
    var grid := GridSlots(z, duration, rules, first, last);
    GridDistinct(z, duration, rules, first, last);
    KeepFreeDistinct(grid, threshold, bookings, exceptions);
    SortStrict(KeepFree(grid, threshold, bookings, exceptions));
  }

  /** With disjoint rules and no forward jump inside a listed slot, it ends before every later one starts. */
  lemma ListedSlotsApart(z: Zone, duration: int, rules: seq<GridRule>, bookings: seq<Range>,
                         exceptions: seq<Range>, first: int, last: int, threshold: int)
    requires z.Valid() && 0 < duration && RulesDisjoint(rules)
    ensures var out := AvailableSlots(z, duration, rules, bookings, exceptions, first, last, threshold);
      forall i, j :: 0 <= i < j < |out| && NoJumpForward(z, out[i]) ==> out[i].end <= out[j].start
  {
    var out := AvailableSlots(z, duration, rules, bookings, exceptions, first, last, threshold);
    ListingIsStrict(z, duration, rules, bookings, exceptions, first, last, threshold);
    ListingIsExact(z, duration, rules, bookings, exceptions, first, last, threshold);
    forall i, j | 0 <= i < j < |out| && NoJumpForward(z, out[i])
      ensures out[i].end <= out[j].start
    {
      GridSlotsApart(z, duration, rules, first, last, out[i], out[j]);
    }
  }
}
