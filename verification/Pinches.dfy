/** Which starts the checks accept on both sides of a forward jump, and when their slots overlap. */
module Pinches {
  import opened Clock
  import opened Jumps
  import opened Modulo
  import opened Slots
  import opened SlotLaws
  import opened Validation
  import opened Zones

  /** A plain start that the grid check accepts. */
  ghost predicate PlainlyAccepted(org: Organization, rules: seq<GridRule>, u: int)
    requires 0 < org.duration
  {
    PlainStart(org, u) && FitsByEnd(org, rules, u)
  }

  ghost function AcceptedStarts(org: Organization, rules: seq<GridRule>): iset<int>
    requires 0 < org.duration
  {
    iset u | PlainlyAccepted(org, rules, u)
  }

  function Length(org: Organization): int { org.duration * MINUTE }

  lemma NoDropBeforeEnd(org: Organization, u: int, v: int)
    requires org.Valid() && Spaced(org.zone, Length(org)) && u < v < u + Length(org) && NoNetDrop(org, u)
    ensures 0 <= Gain(org.zone, u, v)
  {
    var z := org.zone;
    CloseStartsAdjacent(z, Length(org), u, v);
    if z.Index(v) == z.Index(u) + 1 {
      IndexIsStretch(z, u);
      IndexIsStretch(z, v);
      ShortlyAfter(z, Length(org), z.Index(u), u + Length(org));
    }
  }

  lemma AcceptedOnlyGainsCollide(org: Organization, rules: seq<GridRule>)
    requires org.Valid() && RulesDisjoint(rules) && Spaced(org.zone, Length(org))
    ensures OnlyGainsCollide(org.zone, AcceptedStarts(org, rules), Length(org))
  {
    var starts := AcceptedStarts(org, rules);
    forall u, v | u in starts && v in starts && u < v < u + Length(org)
      ensures 0 < Gain(org.zone, u, v)
    {
      assert PlainlyAccepted(org, rules, u) && PlainlyAccepted(org, rules, v);
      NoDropBeforeEnd(org, u, v);
      if Gain(org.zone, u, v) == 0 {
        AcceptedStartsHaveRoom(org, rules, u, v);
      }
    }
  }

  /** The slots of plain accepted starts are pairwise disjoint if and only if they are clear of every jump. */
  lemma AcceptedClearIff(org: Organization, rules: seq<GridRule>)
    requires org.Valid() && RulesDisjoint(rules) && Spaced(org.zone, Length(org))
    ensures AllClear(AcceptedStarts(org, rules), Length(org)) <==>
              ClearOfJumps(org.zone, AcceptedStarts(org, rules), Length(org))
  {
    AcceptedOnlyGainsCollide(org, rules);
    ClearIff(org.zone, AcceptedStarts(org, rules), Length(org));
  }

  // ----- the same, in terms of the settings -----

  /** How many slot lengths cover what jump i skips. */
  function Cover(org: Organization, i: nat): int
    requires 0 < org.duration && i < |org.zone.transitions|
  {
    RoundUp(Rise(org.zone, i), Length(org))
  }

  /** What rounding the jump up to whole slots adds to it. */
  function Excess(org: Organization, i: nat): int
    requires 0 < org.duration && i < |org.zone.transitions|
  {
    Cover(org, i) * Length(org) - Rise(org.zone, i)
  }

  /** Jump i cuts short the slot that the rule offers at minute m of the date: the jump comes so soon after its start
      that the first slot behind the jump, on the same raster, begins before this one is over. */
  predicate Pinched(org: Organization, i: nat, date: int, rule: GridRule, m: int)
    requires 0 < org.duration && i < |org.zone.transitions|
  {
    && rule.dayOfWeek == Weekday(date)
    && Aligned(rule, org.duration, m)
    && 0 < JumpsFrom(org.zone, i) - WallStart(date, m) <= Excess(org, i)
    && m + (Cover(org, i) + 1) * org.duration <= rule.EndMinute()
  }

  ghost predicate SomePinch(org: Organization, rules: seq<GridRule>)
    requires 0 < org.duration
  {
    exists i: nat, date, rule, m :: IsJump(org.zone, i) && rule in rules && Pinched(org, i, date, rule, m)
  }

  ghost predicate WholeMinuteJumps(z: Zone) { forall i: nat :: IsJump(z, i) ==> Rise(z, i) % MINUTE == 0 }

  lemma EarlierThatDay(date: int, wall: int, m: int)
    requires 0 <= m < 1440 && WallStart(date, 0) <= wall <= WallStart(date, m)
    ensures DateOf(wall) == date && MinuteOfDay(wall) <= m
  {
  }

  /** A whole-minute reading within a rule fits it until this minute. */
  lemma FitsUntil(org: Organization, rules: seq<GridRule>, u: int, date: int, rule: GridRule, m: int)
    requires org.Valid() && rule in rules && rule.dayOfWeek == Weekday(date) && org.zone.Wall(u) == WallStart(date, m)
    requires Aligned(rule, org.duration, m)
    requires WallStart(date, m) <= org.zone.Wall(org.SlotFrom(u).end) <= WallStart(date, rule.EndMinute())
    ensures WholeMinute(org.zone.Wall(u)) && FitsByEnd(org, rules, u)
  {
    var wallEnd := org.zone.Wall(org.SlotFrom(u).end);
    assert m <= rule.EndMinute() < 1440;
    PartsOfWallStart(date, m);
    EarlierThatDay(date, wallEnd, rule.EndMinute());
    assert RuleAccepts(rule, org.duration, m, MinuteOfDay(wallEnd));
  }

  lemma PinchedEnd(org: Organization, i: nat, date: int, rule: GridRule, m: int)
    requires 0 < org.duration && i < |org.zone.transitions| && Pinched(org, i, date, rule, m)
    ensures WallStart(date, m) + Cover(org, i) * Length(org) + Length(org) <= WallStart(date, rule.EndMinute())
  {
    var k := Cover(org, i);
    assert (k + 1) * org.duration == k * org.duration + org.duration;
    assert k * Length(org) == k * org.duration * MINUTE;
  }

  /** What clocks read at the start and the end of the slot that is cut short. */
  lemma PinchedReads(org: Organization, i: nat, date: int, rule: GridRule, m: int) returns (u: int)
    requires org.Valid() && Spaced(org.zone, Length(org))
    requires IsJump(org.zone, i) && Pinched(org, i, date, rule, m)
    ensures org.zone.Wall(u) == WallStart(date, m) && org.zone.Index(u) == i && NoNetDrop(org, u)
    ensures org.zone.Wall(org.SlotFrom(u).end) == WallStart(date, m) + Length(org) + Rise(org.zone, i)
  {
    var z, length := org.zone, Length(org);
    u := WallStart(date, m) - z.Offset(i);
    RoundUpBounds(Rise(z, i), length);
    ShortlyBefore(z, length, i, u);
    ShortlyAfter(z, length, i, u + length);
  }

  lemma PinchedFirst(org: Organization, rules: seq<GridRule>, i: nat, date: int, rule: GridRule, m: int)
    returns (u: int)
    requires org.Valid() && Spaced(org.zone, Length(org)) && rule in rules
    requires IsJump(org.zone, i) && Pinched(org, i, date, rule, m)
    ensures org.zone.Wall(u) == WallStart(date, m) && org.zone.Index(u) == i && PlainlyAccepted(org, rules, u)
  {
    u := PinchedReads(org, i, date, rule, m);
    RoundUpBounds(Rise(org.zone, i), Length(org));
    PinchedEnd(org, i, date, rule, m);
    FitsUntil(org, rules, u, date, rule, m);
  }

  /** The minute on the raster where the next slot behind the jump begins. */
  function Behind(org: Organization, i: nat, m: int): int
    requires 0 < org.duration && i < |org.zone.transitions|
  {
    m + Cover(org, i) * org.duration
  }

  lemma BehindOnRaster(org: Organization, i: nat, date: int, rule: GridRule, m: int)
    requires 0 < org.duration && i < |org.zone.transitions| && Pinched(org, i, date, rule, m)
    ensures (Behind(org, i, m) - rule.StartMinute()) % org.duration == 0
    ensures WallStart(date, Behind(org, i, m)) == WallStart(date, m) + Cover(org, i) * Length(org)
  {
    AddMultiple(m - rule.StartMinute(), Cover(org, i), org.duration);
    assert Cover(org, i) * Length(org) == Cover(org, i) * org.duration * MINUTE;
  }

  lemma CoverIsPositive(org: Organization, i: nat)
    requires 0 < org.duration && IsJump(org.zone, i)
    ensures 0 < Cover(org, i) && 0 <= Cover(org, i) * org.duration
  {
    RoundUpBounds(Rise(org.zone, i), Length(org));
    if Cover(org, i) <= 0 {
      NonPositiveProduct(Cover(org, i), Length(org));
      assert false;
    }
  }

  /** What clocks read at the start and the end of the slot behind the jump. */
  lemma BehindReads(org: Organization, i: nat, date: int, rule: GridRule, m: int) returns (v: int)
    requires org.Valid() && Spaced(org.zone, 2 * Length(org))
    requires IsJump(org.zone, i) && Pinched(org, i, date, rule, m)
    ensures org.zone.Wall(v) == WallStart(date, m) + Cover(org, i) * Length(org)
    ensures org.zone.Index(v) == i + 1 && NoNetDrop(org, v)
    ensures org.zone.Wall(org.SlotFrom(v).end) == WallStart(date, m) + Cover(org, i) * Length(org) + Length(org)
  {
    var z, length := org.zone, Length(org);
    RoundUpBounds(Rise(z, i), length);
    v := WallStart(date, m) + Cover(org, i) * length - z.Offset(i + 1);
    ShortlyAfter(z, 2 * length, i, v);
    ShortlyAfter(z, 2 * length, i, v + length);
  }

  lemma PinchedSecond(org: Organization, rules: seq<GridRule>, i: nat, date: int, rule: GridRule, m: int)
    returns (v: int)
    requires org.Valid() && Spaced(org.zone, 2 * Length(org)) && rule in rules
    requires IsJump(org.zone, i) && Pinched(org, i, date, rule, m)
    ensures org.zone.Wall(v) == WallStart(date, m) + Cover(org, i) * Length(org) && org.zone.Index(v) == i + 1
    ensures PlainlyAccepted(org, rules, v)
  {
    v := BehindReads(org, i, date, rule, m);
    BehindOnRaster(org, i, date, rule, m);
    PinchedEnd(org, i, date, rule, m);
    CoverIsPositive(org, i);
    FitsUntil(org, rules, v, date, rule, Behind(org, i, m));
  }

  lemma PinchedCollide(org: Organization, rules: seq<GridRule>, i: nat, date: int, rule: GridRule, m: int)
    returns (u: int, v: int)
    requires org.Valid() && Spaced(org.zone, 2 * Length(org)) && rule in rules
    requires IsJump(org.zone, i) && Pinched(org, i, date, rule, m)
    ensures PlainlyAccepted(org, rules, u) && PlainlyAccepted(org, rules, v) && u < v < u + Length(org)
  {
    assert Spaced(org.zone, Length(org));
    u := PinchedFirst(org, rules, i, date, rule, m);
    v := PinchedSecond(org, rules, i, date, rule, m);
    RoundUpBounds(Rise(org.zone, i), Length(org));
    assert v - u == Excess(org, i);
  }

  lemma PinchCollides(org: Organization, rules: seq<GridRule>)
    requires org.Valid() && Spaced(org.zone, 2 * Length(org)) && SomePinch(org, rules)
    ensures !AllClear(AcceptedStarts(org, rules), Length(org))
  {
    var i: nat, date, rule, m :| IsJump(org.zone, i) && rule in rules && Pinched(org, i, date, rule, m);
    var u, v := PinchedCollide(org, rules, i, date, rule, m);
    assert u in AcceptedStarts(org, rules) && v in AcceptedStarts(org, rules);
  }

  // ----- a collision is a pinch -----

  /** Two accepted starts on one date, the later before the minute the earlier's end reads, are granted by one rule. */
  lemma OneRule(org: Organization, rules: seq<GridRule>, r: GridRule, q: GridRule, m: int, n: int, endMinute: int)
    requires 0 < org.duration && RulesDisjoint(rules) && r in rules && q in rules && r.dayOfWeek == q.dayOfWeek
    requires RuleAccepts(r, org.duration, m, endMinute) && RuleAccepts(q, org.duration, n, n + org.duration)
    requires m < n < endMinute
    ensures r == q
  {
  }

  lemma StepsBetween(org: Organization, rule: GridRule, date: int, m: int, n: int) returns (k: int)
    requires 0 < org.duration
    requires (m - rule.StartMinute()) % org.duration == 0 && (n - rule.StartMinute()) % org.duration == 0
    ensures n == m + k * org.duration && WallStart(date, n) == WallStart(date, m) + k * Length(org)
  {
    k := SameRemainderMultiple(m - rule.StartMinute(), n - rule.StartMinute(), org.duration);
    assert k * Length(org) == k * org.duration * MINUTE;
  }

  lemma GrantingRule(org: Organization, rules: seq<GridRule>, u: int) returns (rule: GridRule)
    requires org.Valid() && PlainlyAccepted(org, rules, u)
    ensures var wall, wallEnd := org.zone.Wall(u), org.zone.Wall(org.SlotFrom(u).end);
      && wall == WallStart(DateOf(wall), MinuteOfDay(wall)) && DateOf(wallEnd) == DateOf(wall)
      && rule in rules && rule.dayOfWeek == Weekday(DateOf(wall))
      && RuleAccepts(rule, org.duration, MinuteOfDay(wall), MinuteOfDay(wallEnd))
      && RuleAccepts(rule, org.duration, MinuteOfDay(wall), MinuteOfDay(wall) + org.duration)
  {
    var wall, wallEnd := org.zone.Wall(u), org.zone.Wall(org.SlotFrom(u).end);
    WallParts(wall);
    rule :| rule in rules && rule.dayOfWeek == Weekday(DateOf(wall))
            && RuleAccepts(rule, org.duration, MinuteOfDay(wall), MinuteOfDay(wallEnd));
    MinutesGrow(wall, wallEnd, org.duration);
  }

  lemma PartsBetween(date: int, m: int, date': int, n: int, endMinute: int)
    requires 0 <= m < 1440 && 0 <= n < 1440 && 0 <= endMinute < 1440
    requires WallStart(date, m) < WallStart(date', n) < WallStart(date, endMinute)
    ensures date' == date && m < n < endMinute
  {
  }

  lemma MinutesBetween(a: int, b: int, c: int)
    requires a < b < c && DateOf(a) == DateOf(c) && WholeMinute(a) && WholeMinute(b) && WholeMinute(c)
    ensures DateOf(b) == DateOf(a) && MinuteOfDay(a) < MinuteOfDay(b) < MinuteOfDay(c)
  {
    WallParts(a);
    WallParts(b);
    WallParts(c);
    PartsBetween(DateOf(a), MinuteOfDay(a), DateOf(b), MinuteOfDay(b), MinuteOfDay(c));
  }

  /** The rule, and the two minutes of its raster, of colliding starts around a jump. */
  lemma SharedRule(org: Organization, rules: seq<GridRule>, u: int, v: int) returns (rule: GridRule, m: int, n: int)
    requires org.Valid() && RulesDisjoint(rules) && PlainlyAccepted(org, rules, u) && PlainlyAccepted(org, rules, v)
    requires var z := org.zone; z.Wall(u) < z.Wall(v) < z.Wall(org.SlotFrom(u).end)
    requires WholeMinute(org.zone.Wall(org.SlotFrom(u).end))
    ensures rule in rules && rule.dayOfWeek == Weekday(DateOf(org.zone.Wall(u)))
    ensures org.zone.Wall(u) == WallStart(DateOf(org.zone.Wall(u)), m)
    ensures org.zone.Wall(v) == WallStart(DateOf(org.zone.Wall(u)), n)
    ensures Aligned(rule, org.duration, m)
    ensures Aligned(rule, org.duration, n) && n + org.duration <= rule.EndMinute()
  {
    var wuEnd := org.zone.Wall(org.SlotFrom(u).end);
    rule := GrantingRule(org, rules, u);
    var q := GrantingRule(org, rules, v);
    MinutesBetween(org.zone.Wall(u), org.zone.Wall(v), wuEnd);
    m, n := MinuteOfDay(org.zone.Wall(u)), MinuteOfDay(org.zone.Wall(v));
    OneRule(org, rules, rule, q, m, n, MinuteOfDay(wuEnd));
  }

  lemma CollisionIsAcrossJump(org: Organization, rules: seq<GridRule>, u: int, v: int)
    requires org.Valid() && RulesDisjoint(rules) && Spaced(org.zone, Length(org))
    requires PlainlyAccepted(org, rules, u) && PlainlyAccepted(org, rules, v) && u < v < u + Length(org)
    ensures IsJump(org.zone, org.zone.Index(u)) && org.zone.Index(v) == org.zone.Index(u) + 1
  {
    AcceptedOnlyGainsCollide(org, rules);
    assert u in AcceptedStarts(org, rules) && v in AcceptedStarts(org, rules);
    CollisionIsAtJump(org.zone, AcceptedStarts(org, rules), Length(org), u, v);
  }

  lemma ReadsAcrossJump(z: Zone, length: int, u: int, v: int)
    requires z.Valid() && Spaced(z, length) && u < v < u + length
    requires IsJump(z, z.Index(u)) && z.Index(v) == z.Index(u) + 1
    ensures var i := z.Index(u);
      && z.Wall(u) < JumpsFrom(z, i) && JumpsFrom(z, i) + Rise(z, i) <= z.Wall(v)
      && z.Wall(v) < z.Wall(u + length) == z.Wall(u) + length + Rise(z, i)
  {
    IndexIsStretch(z, u);
    IndexIsStretch(z, v);
    ShortlyAfter(z, length, z.Index(u), u + length);
  }

  /** What colliding starts read. */
  lemma CollisionReads(org: Organization, rules: seq<GridRule>, u: int, v: int)
    requires org.Valid() && RulesDisjoint(rules) && Spaced(org.zone, Length(org))
    requires PlainlyAccepted(org, rules, u) && PlainlyAccepted(org, rules, v) && u < v < u + Length(org)
    ensures var z, i := org.zone, org.zone.Index(u);
      && IsJump(z, i) && z.Wall(u) < JumpsFrom(z, i) && JumpsFrom(z, i) + Rise(z, i) <= z.Wall(v)
      && z.Wall(v) < z.Wall(org.SlotFrom(u).end) == z.Wall(u) + Length(org) + Rise(z, i)
  {
    CollisionIsAcrossJump(org, rules, u, v);
    ReadsAcrossJump(org.zone, Length(org), u, v);
  }

  lemma PinchFromSteps(org: Organization, i: nat, date: int, rule: GridRule, m: int, n: int, k: int)
    requires 0 < org.duration && i < |org.zone.transitions| && k == Cover(org, i)
    requires rule.dayOfWeek == Weekday(date) && n + org.duration <= rule.EndMinute()
    requires Aligned(rule, org.duration, m)
    requires n == m + k * org.duration && WallStart(date, n) == WallStart(date, m) + k * Length(org)
    requires WallStart(date, m) < JumpsFrom(org.zone, i)
    requires JumpsFrom(org.zone, i) + Rise(org.zone, i) <= WallStart(date, n)
    ensures Pinched(org, i, date, rule, m)
  {
    assert (k + 1) * org.duration == k * org.duration + org.duration;
  }

  lemma StepsAreCover(org: Organization, i: nat, k: int, a: int, b: int)
    requires 0 < org.duration && IsJump(org.zone, i) && b == a + k * Length(org)
    requires a < JumpsFrom(org.zone, i) && JumpsFrom(org.zone, i) + Rise(org.zone, i) <= b
    requires b < a + Length(org) + Rise(org.zone, i)
    ensures k == Cover(org, i)
  {
    RoundUpIsUnique(Rise(org.zone, i), k, Length(org));
  }

  lemma EndIsWholeMinute(wall: int, minutes: int, rise: int)
    requires WholeMinute(wall) && rise % MINUTE == 0
    ensures WholeMinute(wall + minutes * MINUTE + rise)
  {
  }

  lemma CollisionIsPinch(org: Organization, rules: seq<GridRule>, u: int, v: int)
    requires org.Valid() && RulesDisjoint(rules) && Spaced(org.zone, Length(org)) && WholeMinuteJumps(org.zone)
    requires PlainlyAccepted(org, rules, u) && PlainlyAccepted(org, rules, v) && u < v < u + Length(org)
    ensures SomePinch(org, rules)
  {
    var z, i := org.zone, org.zone.Index(u);
    CollisionReads(org, rules, u, v);
    EndIsWholeMinute(z.Wall(u), org.duration, Rise(z, i));
    var rule, m, n := SharedRule(org, rules, u, v);
    var date := DateOf(z.Wall(u));
    var k := StepsBetween(org, rule, date, m, n);
    StepsAreCover(org, i, k, z.Wall(u), z.Wall(v));
    PinchFromSteps(org, i, date, rule, m, n, k);
  }

  /** When accepted slots overlap, exactly, in terms of the settings: the slots of plain accepted starts are pairwise
      disjoint if and only if no jump pinches a slot of any rule. */
  lemma PinchIff(org: Organization, rules: seq<GridRule>)
    requires org.Valid() && RulesDisjoint(rules) && Spaced(org.zone, 2 * Length(org)) && WholeMinuteJumps(org.zone)
    ensures AllClear(AcceptedStarts(org, rules), Length(org)) <==> !SomePinch(org, rules)
  {
    if SomePinch(org, rules) {
      PinchCollides(org, rules);
    }
    var starts := AcceptedStarts(org, rules);
    if !AllClear(starts, Length(org)) {
      var u, v :| u in starts && v in starts && u < v && v < u + Length(org);
      assert Spaced(org.zone, Length(org));
      CollisionIsPinch(org, rules, u, v);
    }
  }

  /** Slot lengths that divide every jump are safe. */
  lemma DividingLengthsNeverPinch(org: Organization, rules: seq<GridRule>)
    requires 0 < org.duration && forall i: nat :: IsJump(org.zone, i) ==> Rise(org.zone, i) % Length(org) == 0
    ensures !SomePinch(org, rules)
  {
    forall i: nat | IsJump(org.zone, i)
      ensures Excess(org, i) == 0
    {
      var k := ZeroRemainderIsMultiple(Rise(org.zone, i), Length(org));
      RoundUpIsUnique(Rise(org.zone, i), k, Length(org));
    }
  }
}
