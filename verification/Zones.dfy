/** Time zones as piecewise-constant offsets, and the conversion of wall-clock readings to UTC. */
module Zones {
  import opened Clock
  import opened Wrappers

  /** From the instant `at` on, local clocks are `offset` ahead of UTC. */
  datatype Transition = Transition(at: int, offset: int)

  function Min(a: int, b: int): int { if a < b then a else b }

  function Max(a: int, b: int): int { if a < b then b else a }

  ghost predicate Increasing(keys: seq<int>) {
    forall i, j :: 0 <= i < j < |keys| ==> keys[i] < keys[j]
  }

  /** The number of keys that are at most x, for increasing keys. */
  function Bisect(keys: seq<int>, x: int): (n: nat)
    ensures n <= |keys|
    ensures Increasing(keys) ==> forall i :: 0 <= i < |keys| ==> (i < n <==> keys[i] <= x)
  {
    if keys == [] then 0
    else if keys[|keys| - 1] <= x then |keys|
    else Bisect(keys[..|keys| - 1], x)
  }

  datatype Zone = Zone(base: int, transitions: seq<Transition>) {

    /** The offset in force once n transitions have happened. */
    function Offset(n: nat): int
      requires n <= |transitions|
    {
      if n == 0 then base else transitions[n - 1].offset
    }

    /** The wall-clock reading at which a lookup with this fold bit switches to offset i + 1. */
    function WallKey(i: nat, fold: bool): int
      requires i < |transitions|
    {
      transitions[i].at + if fold then Min(Offset(i), Offset(i + 1)) else Max(Offset(i), Offset(i + 1))
    }

    function UtcKeys(): (keys: seq<int>) {
      seq(|transitions|, i requires 0 <= i < |transitions| => transitions[i].at)
    }

    function WallKeys(fold: bool): (keys: seq<int>) {
      seq(|transitions|, i requires 0 <= i < |transitions| => WallKey(i, fold))
    }

    /** Offsets are under a day, and the wall readings disturbed by one transition end before
        those disturbed by the next begin. */
    ghost predicate Valid() {
      && (forall n: nat :: n <= |transitions| ==> -DAY < Offset(n) < DAY)
      && (forall i: nat :: i + 1 < |transitions| ==> WallKey(i, false) < WallKey(i + 1, true))
    }

    /** The number of transitions that have happened at the instant u. */
    function Index(u: int): nat { Bisect(UtcKeys(), u) }

    function OffsetAt(u: int): int
    {
      Offset(Index(u))
    }

    /** What local clocks read at the instant u. */
    function Wall(u: int): int { u + OffsetAt(u) }

    /** True on the second pass through a repeated stretch of wall-clock readings. */
    predicate Fold(u: int) {
      var n := Index(u);
      n > 0 && Offset(n - 1) - Offset(n) > u - transitions[n - 1].at
    }

    function WallIndex(wall: int, fold: bool): nat { Bisect(WallKeys(fold), wall) }

    /** The instant a zone-aware datetime stands for, whether or not clocks ever read it. */
    function ToInstant(wall: int, fold: bool): int
    {
      wall - Offset(WallIndex(wall, fold))
    }
  }

  /** local_to_utc_or_none: convert, convert back, compare. */
  function LocalToUtcOrNone(z: Zone, naive: int, fold: bool): Option<int> {
    var utc := z.ToInstant(naive, fold);
    if z.Wall(utc) != naive then None else Some(utc)
  }

  /** Some instant reads this wall time. */
  ghost predicate Exists(z: Zone, wall: int) {
    exists u :: z.Wall(u) == wall
  }

  // ----- the order of transitions, seen in UTC and on the wall -----

  lemma {:induction false} WallKeysOrdered(z: Zone, i: nat, j: nat)
    requires z.Valid() && i < j < |z.transitions|
    ensures z.WallKey(i, true) <= z.WallKey(i, false) < z.WallKey(j, true) <= z.WallKey(j, false)
    ensures z.transitions[i].at < z.transitions[j].at
    decreases j
  {
    if i + 1 < j {
      WallKeysOrdered(z, i, j - 1);
    }
    assert z.WallKey(j - 1, false) < z.WallKey(j - 1 + 1, true);
  }

  lemma KeysIncrease(z: Zone)
    requires z.Valid()
    ensures Increasing(z.UtcKeys()) && forall fold :: Increasing(z.WallKeys(fold))
  {
    forall i: nat, j: nat | i < j < |z.transitions|
      ensures z.transitions[i].at < z.transitions[j].at
      ensures z.WallKey(i, true) < z.WallKey(j, true) && z.WallKey(i, false) < z.WallKey(j, false)
    {
      WallKeysOrdered(z, i, j);
    }
    forall fold ensures Increasing(z.WallKeys(fold)) {
    }
  }

  /** The instant u lies in stretch n: after transition n - 1, before transition n. */
  ghost predicate InStretch(z: Zone, u: int, n: nat) {
    && n <= |z.transitions|
    && (n > 0 ==> z.transitions[n - 1].at <= u)
    && (n < |z.transitions| ==> u < z.transitions[n].at)
  }

  lemma StretchIsUnique(z: Zone, u: int, m: nat, n: nat)
    requires z.Valid() && InStretch(z, u, m) && InStretch(z, u, n) && m <= n
    ensures m == n
  {
    if m < n - 1 { WallKeysOrdered(z, m, n - 1); }
  }

  lemma IndexIsStretch(z: Zone, u: int)
    requires z.Valid()
    ensures InStretch(z, u, z.Index(u))
    ensures forall n: nat :: InStretch(z, u, n) ==> n == z.Index(u)
  {
    KeysIncrease(z);
    var keys := z.UtcKeys();
    if z.Index(u) > 0 { assert keys[z.Index(u) - 1] <= u; }
    if z.Index(u) < |z.transitions| { assert u < keys[z.Index(u)]; }
    forall n: nat | InStretch(z, u, n)
      ensures n == z.Index(u)
    {
      if n <= z.Index(u) { StretchIsUnique(z, u, n, z.Index(u)); } else { StretchIsUnique(z, u, z.Index(u), n); }
    }
  }

  lemma WallIndexBrackets(z: Zone, wall: int, fold: bool)
    requires z.Valid()
    ensures var n := z.WallIndex(wall, fold);
      && (n > 0 ==> z.WallKey(n - 1, fold) <= wall)
      && (n < |z.transitions| ==> wall < z.WallKey(n, fold))
  {
    KeysIncrease(z);
    var keys := z.WallKeys(fold);
    var n := z.WallIndex(wall, fold);
    if n > 0 { assert keys[n - 1] <= wall; }
    if n < |z.transitions| { assert wall < keys[n]; }
  }

  lemma WallKeysOrderedWeakly(z: Zone, i: nat, j: nat)
    requires z.Valid() && i <= j < |z.transitions|
    ensures z.WallKey(i, true) <= z.WallKey(j, true) && z.WallKey(i, false) <= z.WallKey(j, false)
  {
    if i < j { WallKeysOrdered(z, i, j); }
  }

  lemma LookupsAreAdjacent(z: Zone, wall: int)
    requires z.Valid()
    ensures z.WallIndex(wall, false) <= z.WallIndex(wall, true) <= z.WallIndex(wall, false) + 1
  {
    var first, second := z.WallIndex(wall, false), z.WallIndex(wall, true);
    WallIndexBrackets(z, wall, false);
    WallIndexBrackets(z, wall, true);
    if second < first {
      WallKeysOrderedWeakly(z, second, first - 1);
    } else if first + 1 < second {
      WallKeysOrdered(z, first, second - 1);
    }
  }

  /** What is read in a stretch stays between the readings at its two ends. */
  lemma StretchReads(z: Zone, u: int)
    requires z.Valid()
    ensures var n := z.Index(u);
      && (n > 0 ==> z.WallKey(n - 1, true) <= z.Wall(u))
      && (n < |z.transitions| ==> z.Wall(u) < z.WallKey(n, false))
  {
    IndexIsStretch(z, u);
  }

  lemma ReaderIsNotBefore(z: Zone, u: int)
    requires z.Valid()
    ensures z.WallIndex(z.Wall(u), false) <= z.Index(u)
  {
    var first := z.WallIndex(z.Wall(u), false);
    IndexIsStretch(z, u);
    WallIndexBrackets(z, z.Wall(u), false);
    if z.Index(u) < first {
      WallKeysOrderedWeakly(z, z.Index(u), first - 1);
      StretchReads(z, u);
    }
  }

  lemma ReaderIsNotAfter(z: Zone, u: int)
    requires z.Valid()
    ensures z.Index(u) <= z.WallIndex(z.Wall(u), true)
  {
    var second := z.WallIndex(z.Wall(u), true);
    IndexIsStretch(z, u);
    WallIndexBrackets(z, z.Wall(u), true);
    if second < z.Index(u) {
      WallKeysOrderedWeakly(z, second, z.Index(u) - 1);
      StretchReads(z, u);
    }
  }

  /** An instant reading `wall` is in one of at most two neighbouring stretches, and those are
      the ones the two fold lookups choose. */
  lemma ReadersAreAdjacent(z: Zone, wall: int)
    requires z.Valid()
    ensures z.WallIndex(wall, false) <= z.WallIndex(wall, true) <= z.WallIndex(wall, false) + 1
    ensures forall u :: z.Wall(u) == wall ==>
                          z.WallIndex(wall, false) <= z.Index(u) <= z.WallIndex(wall, true)
  {
    LookupsAreAdjacent(z, wall);
    forall u | z.Wall(u) == wall
      ensures z.WallIndex(wall, false) <= z.Index(u) <= z.WallIndex(wall, true)
    {
      ReaderIsNotBefore(z, u);
      ReaderIsNotAfter(z, u);
    }
  }

  // ----- local_to_utc_or_none -----

  lemma LaterStretchReadsToo(z: Zone, u: int, n: nat)
    requires n < |z.transitions| && InStretch(z, u, n)
    requires var wall := u + z.Offset(n);
      z.WallKey(n, true) <= wall && (n + 1 < |z.transitions| ==> wall < z.WallKey(n + 1, true))
    ensures InStretch(z, u + z.Offset(n) - z.Offset(n + 1), n + 1)
  {
  }

  lemma OtherReaderLater(z: Zone, u: int, n: nat)
    requires z.Valid() && InStretch(z, u, n) && z.WallIndex(u + z.Offset(n), true) == n + 1
    ensures InStretch(z, z.ToInstant(u + z.Offset(n), true), n + 1)
  {
    WallIndexBrackets(z, u + z.Offset(n), true);
    LaterStretchReadsToo(z, u, n);
  }

  lemma EarlierStretchReadsToo(z: Zone, u: int, n: nat)
    requires n < |z.transitions| && InStretch(z, u, n + 1)
    requires var wall := u + z.Offset(n + 1);
      wall < z.WallKey(n, false) && (n > 0 ==> z.WallKey(n - 1, false) <= wall)
    ensures InStretch(z, u + z.Offset(n + 1) - z.Offset(n), n)
  {
  }

  lemma OtherReaderEarlier(z: Zone, u: int, n: nat)
    requires z.Valid() && InStretch(z, u, n + 1) && z.WallIndex(u + z.Offset(n + 1), false) == n
    ensures InStretch(z, z.ToInstant(u + z.Offset(n + 1), false), n)
  {
    WallIndexBrackets(z, u + z.Offset(n + 1), false);
    EarlierStretchReadsToo(z, u, n);
  }

  /** When a lookup picks the neighbour of the stretch an instant lies in, that neighbour reads the wall time too. */
  lemma OtherReader(z: Zone, u: int, fold: bool)
    requires z.Valid() && z.Index(u) != z.WallIndex(z.Wall(u), fold)
    ensures InStretch(z, z.ToInstant(z.Wall(u), fold), z.WallIndex(z.Wall(u), fold))
  {
    ReadersAreAdjacent(z, z.Wall(u));
    IndexIsStretch(z, u);
    if fold { OtherReaderLater(z, u, z.Index(u)); } else { OtherReaderEarlier(z, u, z.Index(u) - 1); }
  }

  /** A wall time some clock shows is resolved inside the stretch its lookup chose. */
  lemma LookupLandsInItsStretch(z: Zone, wall: int, fold: bool)
    requires z.Valid() && Exists(z, wall)
    ensures z.Index(z.ToInstant(wall, fold)) == z.WallIndex(wall, fold)
    ensures z.Wall(z.ToInstant(wall, fold)) == wall
  {
    var u :| z.Wall(u) == wall;
    ReadersAreAdjacent(z, wall);
    var n := z.WallIndex(wall, fold);
    if z.Index(u) == n {
      assert z.ToInstant(wall, fold) == u;
    } else {
      OtherReader(z, u, fold);
      IndexIsStretch(z, z.ToInstant(wall, fold));
    }
  }

  /** local_to_utc_or_none inverts the wall-clock map exactly: it answers None just when no
      instant reads the wall time, and otherwise the earliest (fold 0) or latest (fold 1)
      of the instants that do. */
  lemma LocalToUtcIsExact(z: Zone, wall: int, fold: bool)
    requires z.Valid()
    ensures LocalToUtcOrNone(z, wall, fold).None? <==> !Exists(z, wall)
    ensures forall u :: LocalToUtcOrNone(z, wall, fold) == Some(u) <==>
              && z.Wall(u) == wall
              && forall v :: z.Wall(v) == wall ==> if fold then v <= u else u <= v
  {
    if Exists(z, wall) {
      LookupLandsInItsStretch(z, wall, fold);
      ReadersAreAdjacent(z, wall);
      var u := z.ToInstant(wall, fold);
      forall v | z.Wall(v) == wall
        ensures if fold then v <= u else u <= v
      {
        IndexIsStretch(z, u);
        IndexIsStretch(z, v);
      }
    }
  }

  lemma FoldHasEarlierReader(z: Zone, u: int) returns (v: int)
    requires z.Valid() && z.Fold(u)
    ensures v < u && z.Wall(v) == z.Wall(u)
  {
    var n := z.Index(u);
    v := z.Wall(u) - z.Offset(n - 1);
    IndexIsStretch(z, u);
    if n > 1 {
      assert z.WallKey(n - 2, false) < z.WallKey(n - 2 + 1, true);
    }
    assert InStretch(z, v, n - 1);
    IndexIsStretch(z, v);
  }

  lemma EarlierReaderMeansFold(z: Zone, v: int, u: int)
    requires z.Valid() && v < u && z.Wall(v) == z.Wall(u)
    ensures z.Fold(u)
  {
    IndexIsStretch(z, u);
    IndexIsStretch(z, v);
    ReadersAreAdjacent(z, z.Wall(u));
  }

  /** The fold bit says which of the readers of its wall time an instant is. */
  lemma FoldMeansLaterReader(z: Zone, u: int)
    requires z.Valid()
    ensures z.Fold(u) <==> exists v :: v < u && z.Wall(v) == z.Wall(u)
  {
    if z.Fold(u) {
      var v := FoldHasEarlierReader(z, u);
    } else if v :| v < u && z.Wall(v) == z.Wall(u) {
      EarlierReaderMeansFold(z, v, u);
      assert false;
    }
  }

  lemma FirstReaderHasNoFold(z: Zone, wall: int, u: int)
    requires z.Valid() && LocalToUtcOrNone(z, wall, false) == Some(u)
    ensures z.Wall(u) == wall && !z.Fold(u)
  {
    LocalToUtcIsExact(z, wall, false);
    FoldMeansLaterReader(z, u);
  }

  lemma AtMostTwoReaders(z: Zone, u: int, v: int, w: int)
    requires z.Valid() && u < v && z.Wall(u) == z.Wall(v) == z.Wall(w)
    ensures w == u || w == v
  {
    ReadersAreAdjacent(z, z.Wall(u));
  }

  /** UTC to local, fold bit included, and back is the identity at every instant. */
  lemma RoundTrip(z: Zone, u: int)
    requires z.Valid()
    ensures LocalToUtcOrNone(z, z.Wall(u), z.Fold(u)) == Some(u)
  {
    var wall := z.Wall(u);
    LocalToUtcIsExact(z, wall, z.Fold(u));
    FoldMeansLaterReader(z, u);
    if z.Fold(u) {
      var earlier :| earlier < u && z.Wall(earlier) == wall;
      forall v | z.Wall(v) == wall
        ensures v <= u
      {
        AtMostTwoReaders(z, earlier, u, v);
      }
    }
  }

  lemma WallIndexGrows(z: Zone, wall1: int, wall2: int, fold: bool)
    requires z.Valid() && wall1 < wall2
    ensures z.WallIndex(wall1, fold) <= z.WallIndex(wall2, fold)
  {
    KeysIncrease(z);
    var keys := z.WallKeys(fold);
    var n := z.WallIndex(wall1, fold);
    if n > 0 { assert keys[n - 1] <= wall1; }
  }

  lemma LaterStretchLater(z: Zone, u: int, v: int)
    requires z.Valid() && z.Index(u) < z.Index(v)
    ensures u < v
  {
    IndexIsStretch(z, u);
    IndexIsStretch(z, v);
    if z.Index(u) < z.Index(v) - 1 { WallKeysOrdered(z, z.Index(u), z.Index(v) - 1); }
  }

  lemma FirstReadersIncrease(z: Zone, wall1: int, wall2: int)
    requires z.Valid() && wall1 < wall2 && Exists(z, wall1) && Exists(z, wall2)
    ensures z.ToInstant(wall1, false) < z.ToInstant(wall2, false)
  {
    LookupLandsInItsStretch(z, wall1, false);
    LookupLandsInItsStretch(z, wall2, false);
    WallIndexGrows(z, wall1, wall2, false);
    if z.WallIndex(wall1, false) < z.WallIndex(wall2, false) {
      LaterStretchLater(z, z.ToInstant(wall1, false), z.ToInstant(wall2, false));
    }
  }

  /** Existing wall times keep their order, and stay distinct, under the fold 0 conversion. */
  lemma FirstReadersKeepOrder(z: Zone, wall1: int, wall2: int, u1: int, u2: int)
    requires z.Valid()
    requires LocalToUtcOrNone(z, wall1, false) == Some(u1)
    requires LocalToUtcOrNone(z, wall2, false) == Some(u2)
    ensures wall1 < wall2 <==> u1 < u2
  {
    assert Exists(z, wall1) && Exists(z, wall2);
    LookupLandsInItsStretch(z, wall1, false);
    LookupLandsInItsStretch(z, wall2, false);
    if wall1 < wall2 {
      FirstReadersIncrease(z, wall1, wall2);
    } else if wall2 < wall1 {
      FirstReadersIncrease(z, wall2, wall1);
    }
  }

  /** Whatever an earlier instant reads, a later one that is not a second pass reads more. */
  lemma FirstPassReadsLater(z: Zone, u: int, v: int)
    requires z.Valid() && u < v && !z.Fold(v)
    ensures z.Wall(u) < z.Wall(v)
  {
    LocalToUtcIsExact(z, z.Wall(u), false);
    assert Exists(z, z.Wall(u));
    var first := LocalToUtcOrNone(z, z.Wall(u), false).value;
    RoundTrip(z, v);
    FirstReadersKeepOrder(z, z.Wall(u), z.Wall(v), first, v);
  }
}
