/** What forward jumps of the clocks do to slots: exactly which grids they can make overlap. */
module Jumps {
  import opened Clock
  import opened ListingLaws
  import opened Modulo
  import opened Slots
  import opened SlotLaws
  import opened Validation
  import opened Wrappers
  import opened Zones

  /** Transitions are at least this far apart. */
  ghost predicate Spaced(z: Zone, gap: int) {
    forall i: nat :: i + 1 < |z.transitions| ==> z.transitions[i].at + gap <= z.transitions[i + 1].at
  }

  /** Transition i sets clocks forward. */
  predicate IsJump(z: Zone, i: nat) { i < |z.transitions| && z.Offset(i) < z.Offset(i + 1) }

  /** By how much. */
  function Rise(z: Zone, i: nat): int
    requires i < |z.transitions|
  {
    z.Offset(i + 1) - z.Offset(i)
  }

  /** What clocks read when they are about to jump. */
  function JumpsFrom(z: Zone, i: nat): int
    requires i < |z.transitions|
  {
    z.transitions[i].at + z.Offset(i)
  }

  // ----- only starts on both sides of a jump can collide -----

  /** Slots of this length from these starts do not overlap. */
  ghost predicate AllClear(starts: iset<int>, length: int) {
    forall u, v :: u in starts && v in starts && u < v ==> u + length <= v
  }

  /** Starts on both sides of a forward jump are further apart on the wall than a slot, by what the jump skips. */
  ghost predicate ClearOfJumps(z: Zone, starts: iset<int>, length: int) {
    forall i: nat, u, v :: IsJump(z, i) && u in starts && v in starts && z.Index(u) == i && z.Index(v) == i + 1 ==>
      length + Rise(z, i) <= z.Wall(v) - z.Wall(u)
  }

  /** Starts too close for their slots are close because clocks have gained in between. */
  ghost predicate OnlyGainsCollide(z: Zone, starts: iset<int>, length: int) {
    forall u, v :: u in starts && v in starts && u < v < u + length ==> 0 < Gain(z, u, v)
  }

  lemma CloseStartsAdjacent(z: Zone, gap: int, u: int, v: int)
    requires z.Valid() && Spaced(z, gap) && u <= v < u + gap
    ensures z.Index(u) <= z.Index(v) <= z.Index(u) + 1
  {
    var m, n := z.Index(u), z.Index(v);
    IndexIsStretch(z, u);
    IndexIsStretch(z, v);
    if n < m {
      LaterStretchLater(z, v, u);
    } else if m + 1 < n {
      WallKeysOrderedWeakly(z, m, n - 1);
      if m + 1 < n - 1 { WallKeysOrdered(z, m + 1, n - 1); }
    }
  }

  lemma CollisionIsAtJump(z: Zone, starts: iset<int>, length: int, u: int, v: int)
    requires z.Valid() && Spaced(z, length) && OnlyGainsCollide(z, starts, length)
    requires u in starts && v in starts && u < v < u + length
    ensures IsJump(z, z.Index(u)) && z.Index(v) == z.Index(u) + 1
    ensures z.Wall(v) - z.Wall(u) < length + Rise(z, z.Index(u))
  {
    assert 0 < Gain(z, u, v);
    CloseStartsAdjacent(z, length, u, v);
  }

  lemma ClearIff(z: Zone, starts: iset<int>, length: int)
    requires z.Valid() && Spaced(z, length) && OnlyGainsCollide(z, starts, length)
    ensures AllClear(starts, length) <==> ClearOfJumps(z, starts, length)
  {
    if AllClear(starts, length) {
      forall i: nat, u, v | IsJump(z, i) && u in starts && v in starts && z.Index(u) == i && z.Index(v) == i + 1
        ensures length + Rise(z, i) <= z.Wall(v) - z.Wall(u)
      {
        LaterStretchLater(z, u, v);
      }
    }
    if ClearOfJumps(z, starts, length) {
      forall u, v | u in starts && v in starts && u < v
        ensures u + length <= v
      {
        if v < u + length { CollisionIsAtJump(z, starts, length, u, v); }
      }
    }
  }

  // ----- the grid -----

  ghost predicate StartsInGrid(z: Zone, duration: int, rules: seq<GridRule>, first: int, last: int, u: int)
    requires 0 < duration
  {
    InGrid(z, duration, rules, first, last, Range(u, u + duration * MINUTE))
  }

  ghost function GridStarts(z: Zone, duration: int, rules: seq<GridRule>, first: int, last: int): iset<int>
    requires 0 < duration
  {
    iset u | StartsInGrid(z, duration, rules, first, last, u)
  }

  lemma GridOnlyGainsCollide(z: Zone, duration: int, rules: seq<GridRule>, first: int, last: int)
    requires z.Valid() && 0 < duration && RulesDisjoint(rules)
    ensures OnlyGainsCollide(z, GridStarts(z, duration, rules, first, last), duration * MINUTE)
  {
    var length := duration * MINUTE;
    var starts := GridStarts(z, duration, rules, first, last);
    forall u, v | u in starts && v in starts && u < v < u + length
      ensures 0 < Gain(z, u, v)
    {
      GridSlotsHaveRoom(z, duration, rules, first, last, Range(u, u + length), Range(v, v + length));
    }
  }

  /** The slots of a grid with disjoint rules are pairwise disjoint if and only if they are clear of every jump. */
  lemma GridClearIff(z: Zone, duration: int, rules: seq<GridRule>, first: int, last: int)
    requires z.Valid() && 0 < duration && RulesDisjoint(rules) && Spaced(z, duration * MINUTE)
    ensures var starts, length := GridStarts(z, duration, rules, first, last), duration * MINUTE;
      AllClear(starts, length) <==> ClearOfJumps(z, starts, length)
  {
    GridOnlyGainsCollide(z, duration, rules, first, last);
    ClearIff(z, GridStarts(z, duration, rules, first, last), duration * MINUTE);
  }

  // ----- the grid, in wall-clock terms -----

  /** Minute m of the date is on the grid. */
  ghost predicate OnGridAt(rules: seq<GridRule>, duration: int, date: int, m: int)
    requires 0 < duration
  {
    0 <= m < 1440 && Room(rules, duration, date, m, m + duration)
  }

  /** Two readings on either side of jump i: a is a first pass so shortly before the jump that a slot from it runs into
      the jump, and b comes behind the jump but before that slot is over. */
  predicate Meet(z: Zone, length: int, i: nat, a: int, b: int)
    requires i < |z.transitions|
  {
    && JumpsFrom(z, i) - length < a < JumpsFrom(z, i) && (0 < i ==> z.WallKey(i - 1, false) <= a)
    && JumpsFrom(z, i) + Rise(z, i) <= b < a + length + Rise(z, i)
  }

  /** Some jump makes two slots of the grid of these dates meet. */
  ghost predicate GridMeets(z: Zone, duration: int, rules: seq<GridRule>, first: int, last: int)
    requires 0 < duration
  {
    exists i: nat, date1, m1, date2, m2 ::
      && IsJump(z, i) && first <= date1 <= last && first <= date2 <= last
      && OnGridAt(rules, duration, date1, m1) && OnGridAt(rules, duration, date2, m2)
      && Meet(z, duration * MINUTE, i, WallStart(date1, m1), WallStart(date2, m2))
  }

  lemma ShortlyBefore(z: Zone, gap: int, i: nat, u: int)
    requires z.Valid() && Spaced(z, gap) && i < |z.transitions|
    requires z.transitions[i].at - gap <= u < z.transitions[i].at
    ensures z.Index(u) == i
  {
    assert i > 0 ==> z.transitions[i - 1].at + gap <= z.transitions[i - 1 + 1].at;
    assert InStretch(z, u, i);
    IndexIsStretch(z, u);
  }

  lemma ShortlyAfter(z: Zone, gap: int, i: nat, v: int)
    requires z.Valid() && Spaced(z, gap) && i < |z.transitions|
    requires z.transitions[i].at <= v < z.transitions[i].at + gap
    ensures z.Index(v) == i + 1
  {
    assert InStretch(z, v, i + 1);
    IndexIsStretch(z, v);
  }

  /** Which pass a reading shortly before a transition is. */
  lemma FirstPassIff(z: Zone, u: int)
    requires z.Valid()
    ensures var n := z.Index(u); !z.Fold(u) <==> (0 < n ==> z.WallKey(n - 1, false) <= z.Wall(u))
  {
    IndexIsStretch(z, u);
  }

  lemma OnGridStarts(z: Zone, duration: int, rules: seq<GridRule>, first: int, last: int, u: int, date: int, m: int)
    requires z.Valid() && 0 < duration && first <= date <= last && OnGridAt(rules, duration, date, m)
    requires z.Wall(u) == WallStart(date, m) && !z.Fold(u)
    ensures StartsInGrid(z, duration, rules, first, last, u)
  {
    PartsOfWallStart(date, m);
    FirstReaderIsGridSlot(Organization(z, duration, 0, 0), rules, first, last, u);
  }

  lemma StartsOnGrid(z: Zone, duration: int, rules: seq<GridRule>, first: int, last: int, u: int)
    returns (date: int, m: int)
    requires z.Valid() && 0 < duration && StartsInGrid(z, duration, rules, first, last, u)
    ensures first <= date <= last && OnGridAt(rules, duration, date, m)
    ensures z.Wall(u) == WallStart(date, m) && !z.Fold(u)
  {
    GridSlotIsFirstReader(Organization(z, duration, 0, 0), rules, first, last, u);
    WallParts(z.Wall(u));
    date, m := DateOf(z.Wall(u)), MinuteOfDay(z.Wall(u));
  }

  /** Readings that meet are read by instants that collide. */
  lemma MeetingReadings(z: Zone, length: int, i: nat, a: int, b: int) returns (u: int, v: int)
    requires z.Valid() && 0 < length && Spaced(z, length) && IsJump(z, i) && Meet(z, length, i, a, b)
    ensures z.Wall(u) == a && z.Wall(v) == b && !z.Fold(u) && !z.Fold(v) && u < v < u + length
  {
    u, v := a - z.Offset(i), b - z.Offset(i + 1);
    ShortlyBefore(z, length, i, u);
    ShortlyAfter(z, length, i, v);
    FirstPassIff(z, u);
    FirstPassIff(z, v);
  }

  lemma CollisionMeets(z: Zone, starts: iset<int>, length: int, u: int, v: int)
    requires z.Valid() && Spaced(z, length) && OnlyGainsCollide(z, starts, length)
    requires u in starts && v in starts && u < v < u + length && !z.Fold(u)
    ensures IsJump(z, z.Index(u)) && Meet(z, length, z.Index(u), z.Wall(u), z.Wall(v))
  {
    CollisionIsAtJump(z, starts, length, u, v);
    IndexIsStretch(z, u);
    IndexIsStretch(z, v);
    FirstPassIff(z, u);
  }

  /** When generated slots overlap, exactly, by the wall clock: the slots of a grid with disjoint rules are pairwise
      disjoint if and only if no jump makes two of its readings meet. */
  lemma GridMeetsIff(z: Zone, duration: int, rules: seq<GridRule>, first: int, last: int)
    requires z.Valid() && 0 < duration && RulesDisjoint(rules) && Spaced(z, duration * MINUTE)
    ensures AllClear(GridStarts(z, duration, rules, first, last), duration * MINUTE) <==>
              !GridMeets(z, duration, rules, first, last)
  {
    var starts, length := GridStarts(z, duration, rules, first, last), duration * MINUTE;
    if GridMeets(z, duration, rules, first, last) {
      var i: nat, date1, m1, date2, m2 :|
        && IsJump(z, i) && first <= date1 <= last && first <= date2 <= last
        && OnGridAt(rules, duration, date1, m1) && OnGridAt(rules, duration, date2, m2)
        && Meet(z, duration * MINUTE, i, WallStart(date1, m1), WallStart(date2, m2));
      var u, v := MeetingReadings(z, length, i, WallStart(date1, m1), WallStart(date2, m2));
      OnGridStarts(z, duration, rules, first, last, u, date1, m1);
      OnGridStarts(z, duration, rules, first, last, v, date2, m2);
      assert u in starts && v in starts;
    }
    if !AllClear(starts, length) {
      var u, v :| u in starts && v in starts && u < v && v < u + length;
      var date1, m1 := StartsOnGrid(z, duration, rules, first, last, u);
      var date2, m2 := StartsOnGrid(z, duration, rules, first, last, v);
      GridOnlyGainsCollide(z, duration, rules, first, last);
      CollisionMeets(z, starts, length, u, v);
      assert GridMeets(z, duration, rules, first, last);
    }
  }

  // ----- listings -----

  ghost predicate AllApart(s: seq<Range>) {
    forall i, j :: 0 <= i < j < |s| ==> !RangesOverlap(s[i], s[j])
  }

  /** Whatever is booked and blocked and whenever one asks, the listing of these dates shows no two slots that
      overlap. */
  ghost predicate NeverListsOverlap(z: Zone, duration: int, rules: seq<GridRule>, first: int, last: int)
    requires 0 < duration
  {
    forall bookings, exceptions, threshold ::
      AllApart(AvailableSlots(z, duration, rules, bookings, exceptions, first, last, threshold))
  }

  lemma ListedStartsInGrid(z: Zone, duration: int, rules: seq<GridRule>, bookings: seq<Range>, exceptions: seq<Range>,
                           first: int, last: int, threshold: int, s: Range)
    requires z.Valid() && 0 < duration
    requires s in AvailableSlots(z, duration, rules, bookings, exceptions, first, last, threshold)
    ensures s == Range(s.start, s.start + duration * MINUTE)
    ensures s.start in GridStarts(z, duration, rules, first, last)
  {
    ListingIsExact(z, duration, rules, bookings, exceptions, first, last, threshold);
    FreeOneDuration(z, duration, rules, bookings, exceptions, first, last, threshold);
    assert StartsInGrid(z, duration, rules, first, last, s.start);
  }

  lemma ClearRangesApart(out: seq<Range>, starts: iset<int>, length: int)
    requires AllClear(starts, length) && StrictByStart(out)
    requires forall i :: 0 <= i < |out| ==> out[i].start in starts && out[i].end == out[i].start + length
    ensures AllApart(out)
  {
  }

  lemma ListingClear(z: Zone, duration: int, rules: seq<GridRule>, bookings: seq<Range>, exceptions: seq<Range>,
                     first: int, last: int, threshold: int)
    requires z.Valid() && 0 < duration && RulesDisjoint(rules)
    requires AllClear(GridStarts(z, duration, rules, first, last), duration * MINUTE)
    ensures AllApart(AvailableSlots(z, duration, rules, bookings, exceptions, first, last, threshold))
  {
    var out := AvailableSlots(z, duration, rules, bookings, exceptions, first, last, threshold);
    var starts := GridStarts(z, duration, rules, first, last);
    ListingIsStrict(z, duration, rules, bookings, exceptions, first, last, threshold);
    forall i | 0 <= i < |out|
      ensures out[i].start in starts && out[i].end == out[i].start + duration * MINUTE
    {
      ListedStartsInGrid(z, duration, rules, bookings, exceptions, first, last, threshold, out[i]);
    }
    ClearRangesApart(out, starts, duration * MINUTE);
  }

  lemma CollisionIsListed(z: Zone, duration: int, rules: seq<GridRule>, first: int, last: int, u: int, v: int)
    requires z.Valid() && 0 < duration && RulesDisjoint(rules)
    requires StartsInGrid(z, duration, rules, first, last, u) && StartsInGrid(z, duration, rules, first, last, v)
    requires u < v < u + duration * MINUTE
    ensures !AllApart(AvailableSlots(z, duration, rules, [], [], first, last, u))
  {
    var out := AvailableSlots(z, duration, rules, [], [], first, last, u);
    ListingIsExact(z, duration, rules, [], [], first, last, u);
    var s, t := Range(u, u + duration * MINUTE), Range(v, v + duration * MINUTE);
    assert Free(s, u, [], []) && Free(t, u, [], []);
    var i :| 0 <= i < |out| && out[i] == s;
    var j :| 0 <= j < |out| && out[j] == t;
    assert RangesOverlap(out[i], out[j]) && RangesOverlap(out[j], out[i]) && i != j;
  }

  /** When listed slots can overlap, exactly: with disjoint rules no listing of these dates ever shows two that do if
      and only if no jump makes two readings of the grid meet. */
  lemma NeverListsOverlapIff(z: Zone, duration: int, rules: seq<GridRule>, first: int, last: int)
    requires z.Valid() && 0 < duration && RulesDisjoint(rules) && Spaced(z, duration * MINUTE)
    ensures NeverListsOverlap(z, duration, rules, first, last) <==> !GridMeets(z, duration, rules, first, last)
  {
    var starts, length := GridStarts(z, duration, rules, first, last), duration * MINUTE;
    GridMeetsIff(z, duration, rules, first, last);
    if AllClear(starts, length) {
      forall bookings, exceptions, threshold
        ensures AllApart(AvailableSlots(z, duration, rules, bookings, exceptions, first, last, threshold))
      {
        ListingClear(z, duration, rules, bookings, exceptions, first, last, threshold);
      }
    } else {
      var u, v :| u in starts && v in starts && u < v && v < u + length;
      CollisionIsListed(z, duration, rules, first, last, u, v);
    }
  }
}
