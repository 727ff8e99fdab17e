/** Inputs that show why the guarantees carry the hypotheses they do. */
module Witnesses {
  import opened Availability
  import opened BookingLaws
  import opened Bookings
  import opened Clock
  import opened Conservation
  import opened DoubleBooking
  import opened Interleaving
  import opened Jumps
  import opened Modulo
  import opened Pinches
  import opened Races
  import opened Slots
  import opened SlotLaws
  import opened Validation
  import opened Wrappers
  import opened Zones

  /** Clocks jump from 02:00 to 03:00 on day 0. */
  const SPRING := Zone(-300 * MINUTE, [Transition(420 * MINUTE, -240 * MINUTE)])

  /** Clocks fall back from 02:00 to 01:00 on day 0. */
  const AUTUMN := Zone(-240 * MINUTE, [Transition(360 * MINUTE, -300 * MINUTE)])

  const UTC := Zone(0, [])

  lemma OneTransition(z: Zone, u: int)
    requires |z.transitions| == 1
    ensures z.OffsetAt(u) == if u < z.transitions[0].at then z.base else z.transitions[0].offset
  {
    var keys := z.UtcKeys();
    assert keys == [z.transitions[0].at] && keys[..0] == [];
  }

  lemma OneTransitionValid(z: Zone)
    requires |z.transitions| == 1 && -DAY < z.base < DAY && -DAY < z.transitions[0].offset < DAY
    ensures z.Valid()
  {
  }

  lemma FirstReaderOf(z: Zone, u: int)
    requires |z.transitions| == 1 && z.Valid()
    requires u < z.transitions[0].at || z.base <= z.transitions[0].offset
    ensures LocalToUtcOrNone(z, z.Wall(u), false) == Some(u)
  {
    OneTransition(z, u);
    forall v | z.Wall(v) == z.Wall(u)
      ensures u <= v
    {
      OneTransition(z, v);
    }
    LocalToUtcIsExact(z, z.Wall(u), false);
  }

  function DayRule(startMinute: int, endMinute: int): GridRule
    requires 0 <= startMinute < 1440 && 0 <= endMinute < 1440
  {
    GridRule(Weekday(0), startMinute * MINUTE, endMinute * MINUTE)
  }

  lemma OfferedOnDayZero(z: Zone, duration: int, rule: GridRule, m: int, u: int)
    requires 0 < duration && rule.dayOfWeek == Weekday(0) && OnRaster(rule, duration, m)
    requires LocalToUtcOrNone(z, m * MINUTE, false) == Some(u)
    ensures Range(u, u + duration * MINUTE) in AvailableSlots(z, duration, [rule], [], [], 0, 0, u)
  {
    var s := Range(u, u + duration * MINUTE);
    assert rule in [rule] && OfferedAt(z, duration, 0, rule, m, s);
    assert Free(s, u, [], []);
    ListingIsExact(z, duration, [rule], [], [], 0, 0, u);
  }

  lemma LowerThreshold(z: Zone, duration: int, rule: GridRule, s: Range, threshold: int, lower: int)
    requires 0 < duration && lower <= threshold && s in AvailableSlots(z, duration, [rule], [], [], 0, 0, threshold)
    ensures s in AvailableSlots(z, duration, [rule], [], [], 0, 0, lower)
  {
    ListingIsExact(z, duration, [rule], [], [], 0, 0, threshold);
    ListingIsExact(z, duration, [rule], [], [], 0, 0, lower);
  }

  lemma AllOnDay(rules: seq<GridRule>, d: int)
    requires forall r :: r in rules ==> r.dayOfWeek == d
    ensures RulesOn(rules, d) == rules
  {
    if rules != [] { AllOnDay(rules[1..], d); }
  }

  lemma DayZeroParts(wall: int, m: int)
    requires 0 <= m < 1440 && m * MINUTE <= wall < (m + 1) * MINUTE
    ensures DateOf(wall) == 0 && MinuteOfDay(wall) == m
  {
  }

  /** The grid check of day 0, for a slot that reads minutes m to n of it. */
  lemma GridCheckOnDayZero(org: Organization, rules: seq<GridRule>, u: int, m: int, n: int)
    requires org.Valid() && rules != [] && (forall r :: r in rules ==> r.dayOfWeek == Weekday(0))
    requires 0 <= m < 1440 && m * MINUTE <= org.zone.Wall(u) < (m + 1) * MINUTE
    requires 0 <= n < 1440 && n * MINUTE <= org.zone.Wall(org.SlotFrom(u).end) < (n + 1) * MINUTE
    ensures GridCheck(org, rules, u, org.SlotFrom(u).end)
         == if exists r :: r in rules && RuleAccepts(r, org.duration, m, n) then None else Some(OffGrid)
  {
    RoundTrip(org.zone, u);
    AllOnDay(rules, Weekday(0));
    DayZeroParts(org.zone.Wall(u), m);
    DayZeroParts(org.zone.Wall(org.SlotFrom(u).end), n);
  }

  lemma OneRuleOnDayZero(org: Organization, rule: GridRule, u: int, m: int, n: int)
    requires org.Valid() && rule.dayOfWeek == Weekday(0)
    requires 0 <= m < 1440 && m * MINUTE <= org.zone.Wall(u) < (m + 1) * MINUTE
    requires 0 <= n < 1440 && n * MINUTE <= org.zone.Wall(org.SlotFrom(u).end) < (n + 1) * MINUTE
    ensures GridCheck(org, [rule], u, org.SlotFrom(u).end)
         == if RuleAccepts(rule, org.duration, m, n) then None else Some(OffGrid)
  {
    GridCheckOnDayZero(org, [rule], u, m, n);
    assert rule in [rule];
  }

  /** A forward jump inside a slot can make two listed slots overlap: 45-minute slots on a 01:00-04:00 rule,
      over a jump from 02:00 to 03:00. */
  lemma SpringForwardOverlap()
    ensures SPRING.Valid() && RulesDisjoint([DayRule(60, 240)])
    ensures var out := AvailableSlots(SPRING, 45, [DayRule(60, 240)], [], [], 0, 0, 0);
      exists s1, s2 :: s1 in out && s2 in out && s1.start < s2.start && RangesOverlap(s1, s2)
  {
    OneTransitionValid(SPRING);
    var u, v := 405 * MINUTE, 435 * MINUTE;
    OneTransition(SPRING, u);
    OneTransition(SPRING, v);
    FirstReaderOf(SPRING, u);
    FirstReaderOf(SPRING, v);
    OfferedOnDayZero(SPRING, 45, DayRule(60, 240), 105, u);
    OfferedOnDayZero(SPRING, 45, DayRule(60, 240), 195, v);
    var s1, s2 := Range(u, u + 45 * MINUTE), Range(v, v + 45 * MINUTE);
    LowerThreshold(SPRING, 45, DayRule(60, 240), s1, u, 0);
    LowerThreshold(SPRING, 45, DayRule(60, 240), s2, v, 0);
    assert RangesOverlap(s1, s2);
  }

  /** A forward jump inside a slot can make the checks refuse a listed start. */
  lemma OffsetRiseRefusesListed()
    ensures var org, rules, u := Organization(SPRING, 45, 10, 0), [DayRule(60, 150)], 405 * MINUTE;
      && org.Valid() && WholeMinute(org.zone.Wall(u)) && !org.zone.Fold(u)
      && Listed(AvailableSlots(org.zone, org.duration, rules, [], [], 0, 0, 0), u)
      && GridCheck(org, rules, u, u + 45 * MINUTE) == Some(OffGrid)
  {
    var org, rules, u := Organization(SPRING, 45, 10, 0), [DayRule(60, 150)], 405 * MINUTE;
    OneTransitionValid(SPRING);
    OneTransition(SPRING, u);
    OneTransition(SPRING, u + 45 * MINUTE);
    FirstReaderOf(SPRING, u);
    FirstReaderHasNoFold(SPRING, SPRING.Wall(u), u);
    OfferedOnDayZero(SPRING, 45, DayRule(60, 150), 105, u);
    LowerThreshold(SPRING, 45, DayRule(60, 150), Range(u, u + 45 * MINUTE), u, 0);
    OneRuleOnDayZero(org, DayRule(60, 150), u, 105, 210);
  }

  /** Clocks falling back inside a slot can make the checks accept a start that is not listed. */
  lemma OffsetDropAcceptsUnlisted()
    ensures var org, rules, u := Organization(AUTUMN, 60, 10, 0), [DayRule(30, 120)], 330 * MINUTE;
      && org.Valid() && WholeMinute(org.zone.Wall(u)) && !org.zone.Fold(u)
      && Verdict(org, rules, [], u, 0) == None
      && !Listed(AvailableSlots(org.zone, org.duration, rules, [], [], 0, 0, 0), u)
  {
    var org, rules, u := Organization(AUTUMN, 60, 10, 0), [DayRule(30, 120)], 330 * MINUTE;
    OneTransitionValid(AUTUMN);
    OneTransition(AUTUMN, u);
    OneTransition(AUTUMN, u + 60 * MINUTE);
    FirstReaderOf(AUTUMN, u);
    FirstReaderHasNoFold(AUTUMN, AUTUMN.Wall(u), u);
    OneRuleOnDayZero(org, DayRule(30, 120), u, 90, 90);
    DayZeroParts(AUTUMN.Wall(u), 90);
    ListedSlot(org, rules, [], [], 0, 0, 0, u);
    if InGrid(org.zone, org.duration, rules, 0, 0, org.SlotFrom(u)) {
      GridSlotIsFirstReader(org, rules, 0, 0, u);
    }
  }

  /** Two starts that pass the checks although their slots overlap. */
  ghost predicate OverlappingAccepted(org: Organization, rules: seq<GridRule>, u: int, v: int)
    requires 0 < org.duration
  {
    && u < v && RangesOverlap(org.SlotFrom(u), org.SlotFrom(v))
    && Verdict(org, rules, [], u, 0) == None && Verdict(org, rules, [], v, 0) == None
  }

  /** Both can then be booked, one after the other. */
  lemma OverlappingAcceptedDoubleBooks(org: Organization, rules: seq<GridRule>, u: int, v: int)
    requires org.Valid() && OverlappingAccepted(org, rules, u, v)
    ensures var st := State(map[1 := org], map[1 := rules], [], map[], 0);
      && st.Valid() && Create(st, 1, 7, u, 0).after.Valid()
      && var end := Create(Create(st, 1, 7, u, 0).after, 1, 8, v, 0);
        && end.result == Ok(1) && 0 in end.after.bookings && 1 in end.after.bookings
        && end.after.bookings[0].Holds(1) && end.after.bookings[1].Holds(1)
        && RangesOverlap(end.after.bookings[0].Span(), end.after.bookings[1].Span())
  {
    var st := State(map[1 := org], map[1 := rules], [], map[], 0);
    assert st.Valid();
    CreateKeepsValid(st, 1, 7, u, 0);
    var mid := Create(st, 1, 7, u, 0).after;
    assert mid.bookings == map[0 := NewBooking(1, 7, org.SlotFrom(u))];
  }

  /** The checks drop seconds: half a minute apart, two starts in one zone of constant offset are accepted. */
  lemma SecondsDoubleBook()
    ensures var org := Organization(UTC, 30, 1, 0);
      org.Valid() && OverlappingAccepted(org, [DayRule(540, 1080)], 540 * MINUTE, 540 * MINUTE + MINUTE / 2)
  {
    var org, rules, u := Organization(UTC, 30, 1, 0), [DayRule(540, 1080)], 540 * MINUTE;
    var v := u + MINUTE / 2;
    assert UTC.Valid();
    assert UTC.UtcKeys() == [];
    OneRuleOnDayZero(org, DayRule(540, 1080), u, 540, 570);
    OneRuleOnDayZero(org, DayRule(540, 1080), v, 540, 570);
  }

  /** A forward jump inside a slot double-books: 45-minute slots on both sides of the jump from 02:00 to 03:00, both
      plain and on their first pass. */
  lemma SpringForwardDoubleBooks()
    ensures var org, rules, u, v := Organization(SPRING, 45, 1, 0), [DayRule(60, 240)], 405 * MINUTE, 435 * MINUTE;
      && org.Valid() && RulesDisjoint(rules) && OverlappingAccepted(org, rules, u, v)
      && PlainStart(org, u) && PlainStart(org, v) && !org.zone.Fold(u) && !org.zone.Fold(v)
  {
    var org, rules, u, v := Organization(SPRING, 45, 1, 0), [DayRule(60, 240)], 405 * MINUTE, 435 * MINUTE;
    OneTransitionValid(SPRING);
    OneTransition(SPRING, u);
    OneTransition(SPRING, u + 45 * MINUTE);
    OneTransition(SPRING, v);
    OneTransition(SPRING, v + 45 * MINUTE);
    OneRuleOnDayZero(org, DayRule(60, 240), u, 105, 210);
    OneRuleOnDayZero(org, DayRule(60, 240), v, 195, 240);
  }

  lemma SpringCover(duration: int, cover: int)
    requires 0 < duration && 60 <= cover * duration < 60 + duration
    ensures IsJump(SPRING, 0) && Rise(SPRING, 0) == 60 * MINUTE && JumpsFrom(SPRING, 0) == 120 * MINUTE
    ensures Cover(Organization(SPRING, duration, 1, 0), 0) == cover
  {
    assert cover * (duration * MINUTE) == (cover * duration) * MINUTE;
    RoundUpIsUnique(60 * MINUTE, cover, duration * MINUTE);
  }

  /** Read off the settings: the jump from 02:00 to 03:00 pinches the 45-minute slot at 01:45 of a 01:00-04:00 rule, as
      two slots cover it with half an hour to spare; and it pinches no half-hour slot of any rule. */
  lemma SpringPinches(rules: seq<GridRule>)
    ensures SomePinch(Organization(SPRING, 45, 1, 0), [DayRule(60, 240)])
    ensures !SomePinch(Organization(SPRING, 30, 1, 0), rules)
  {
    SpringCover(45, 2);
    assert DayRule(60, 240) in [DayRule(60, 240)];
    assert Pinched(Organization(SPRING, 45, 1, 0), 0, 0, DayRule(60, 240), 105);
    SpringCover(30, 2);
    DividingLengthsNeverPinch(Organization(SPRING, 30, 1, 0), rules);
  }

  /** An organization that can be double-booked: 45-minute slots from one to four, and the jump at two. */
  lemma SpringIsDoubleBookable()
    ensures var st := State(map[1 := Organization(SPRING, 45, 1, 0)], map[1 := [DayRule(60, 240)]], [], map[], 0);
      st.Valid() && !NeverDoubleBooks(st, 1)
  {
    var org, rules := Organization(SPRING, 45, 1, 0), [DayRule(60, 240)];
    var st := State(map[1 := org], map[1 := rules], [], map[], 0);
    OneTransitionValid(SPRING);
    SpringCover(45, 2);
    SpringPinches([]);
    assert Ordinary(org, rules) && WholeMinuteJumps(SPRING) && Spaced(SPRING, 2 * Length(org));
    DoubleBookableIff(st, World(st.orgs, st.grids, st.bookings, st.nextId, map[]), 1);
  }

  lemma AutumnNeverJumps(s: Range)
    ensures NoJumpForward(AUTUMN, s)
  {
    OneTransition(AUTUMN, s.start);
    forall u | s.start <= u < s.end { OneTransition(AUTUMN, u); }
  }

  /** Clocks falling back over a slot double-book: it is accepted by the minute its end reads, and runs on into a
      slot of the next rule. Both starts are whole minutes on their first pass and no clock jumps forward. */
  lemma DropInsideDoubleBooks()
    ensures var org, rules, u, v :=
        Organization(AUTUMN, 60, 1, 0), [DayRule(30, 90), DayRule(100, 160)], 330 * MINUTE, 340 * MINUTE;
      && org.Valid() && RulesDisjoint(rules) && OverlappingAccepted(org, rules, u, v)
      && WholeMinute(org.zone.Wall(u)) && WholeMinute(org.zone.Wall(v))
      && NoJumpForward(org.zone, org.SlotFrom(u)) && NoJumpForward(org.zone, org.SlotFrom(v))
  {
    var org, rules, u, v :=
      Organization(AUTUMN, 60, 1, 0), [DayRule(30, 90), DayRule(100, 160)], 330 * MINUTE, 340 * MINUTE;
    OneTransitionValid(AUTUMN);
    OneTransition(AUTUMN, u);
    OneTransition(AUTUMN, u + 60 * MINUTE);
    OneTransition(AUTUMN, v);
    OneTransition(AUTUMN, v + 60 * MINUTE);
    AutumnNeverJumps(org.SlotFrom(u));
    AutumnNeverJumps(org.SlotFrom(v));
    assert rules[0] in rules && rules[1] in rules;
    GridCheckOnDayZero(org, rules, u, 90, 90);
    GridCheckOnDayZero(org, rules, v, 100, 100);
  }

  /** Both passes through a repeated hour are accepted: 90-minute slots at the two readings of 01:30 overlap. */
  lemma FallBackDoubleBooks()
    ensures var org := Organization(AUTUMN, 90, 1, 0);
      org.Valid() && OverlappingAccepted(org, [DayRule(0, 360)], 330 * MINUTE, 390 * MINUTE)
  {
    var org, rules, u, v := Organization(AUTUMN, 90, 1, 0), [DayRule(0, 360)], 330 * MINUTE, 390 * MINUTE;
    OneTransitionValid(AUTUMN);
    OneTransition(AUTUMN, u);
    OneTransition(AUTUMN, u + 90 * MINUTE);
    OneTransition(AUTUMN, v);
    OneTransition(AUTUMN, v + 90 * MINUTE);
    OneRuleOnDayZero(org, DayRule(0, 360), u, 90, 120);
    OneRuleOnDayZero(org, DayRule(0, 360), v, 90, 180);
  }

  // ----- interleavings that break conservation -----

  /** Half-hour slots from nine to six, and user 7 booked at nine. */
  ghost const ONE_BOOKING := World(
    map[1 := Organization(UTC, 30, 1, 0)], map[1 := [DayRule(540, 1080)]],
    map[0 := NewBooking(1, 7, Range(540 * MINUTE, 570 * MINUTE))], 1, map[])

  const TO_TEN := RescheduleRequest(1, 9, 0, 600 * MINUTE)

  const TO_ELEVEN := RescheduleRequest(1, 9, 0, 660 * MINUTE)

  const CANCEL_NINE := CancelRequest(1, 7, 0)

  lemma MoveMayPass(start: int, m: int)
    requires start == m * MINUTE && (m == 600 || m == 660)
    ensures MayPass(ONE_BOOKING, RescheduleRequest(1, 9, 0, start))
  {
    var org := Organization(UTC, 30, 1, 0);
    assert UTC.UtcKeys() == [];
    OneRuleOnDayZero(org, DayRule(540, 1080), start, m, m + 30);
  }

  lemma OneBookingOk()
    ensures CommittedOk(ONE_BOOKING) && |ActiveIds(ONE_BOOKING.committed, 1, 7)| == 1
    ensures MayPass(ONE_BOOKING, TO_TEN) && MayPass(ONE_BOOKING, TO_ELEVEN) && MayPass(ONE_BOOKING, CANCEL_NINE)
  {
    MoveMayPass(600 * MINUTE, 600);
    MoveMayPass(660 * MINUTE, 660);
    assert ActiveIds(ONE_BOOKING.committed, 1, 7) == {0};
    assert UTC.Valid();
  }

  /** Two reschedules of the booking at nine, to ten and to eleven, both commit: one booking has become two. */
  lemma TwoMovesMakeTwo() returns (actions: seq<Action>, end: World)
    ensures |ActiveIds(ONE_BOOKING.committed, 1, 7)| == 1
    ensures Leads(ONE_BOOKING, actions, end) && |ActiveIds(end.committed, 1, 7)| == 2
  {
    OneBookingOk();
    actions, end := RescheduledTwice(ONE_BOOKING, TO_TEN, TO_ELEVEN, 0);
  }

  /** The booking at nine is cancelled, leaving none, while its reschedule to ten is under way: the reschedule still
      commits, and there is one again. */
  lemma CancelledBookingReturns() returns (first: seq<Action>, mid: World, rest: seq<Action>, end: World)
    ensures Leads(ONE_BOOKING, first, mid) && Leads(mid, rest, end)
    ensures 0 in mid.committed && mid.committed[0].status.Cancelled?
    ensures |ActiveIds(end.committed, 1, 7)| == |ActiveIds(mid.committed, 1, 7)| + 1
  {
    OneBookingOk();
    first, mid, rest, end := CancelledComesBack(ONE_BOOKING, TO_TEN, CANCEL_NINE, 0);
  }

  // ----- a race that is run -----

  const FIRST := CreateRequest(1, 8, 600 * MINUTE)

  const SECOND := CreateRequest(1, 9, 600 * MINUTE)

  ghost const TEN := Prize(1, 600 * MINUTE, ONE_BOOKING.committed)

  lemma CreateMayPass(w: World, user: int)
    requires w.orgs == ONE_BOOKING.orgs && w.grids == ONE_BOOKING.grids
    ensures MayPass(w, CreateRequest(1, user, 600 * MINUTE))
  {
    assert UTC.UtcKeys() == [];
    OneRuleOnDayZero(Organization(UTC, 30, 1, 0), DayRule(540, 1080), 600 * MINUTE, 600, 630);
  }

  lemma Enters(w: World, t: nat, r: Request, prize: Prize)
    requires t !in w.txns && MayPass(w, r) && prize.Wants(r)
    ensures Race(w, [Action.Begin(t, r)] + [Action.Validate(t, true)], With(w, t, Txn(r, Passed, map[])), prize)
  {
    var w1 := Apply(w, Action.Begin(t, r));
    RaceOne(w, Action.Begin(t, r), prize);
    RaceOne(w1, Action.Validate(t, true), prize);
    assert Apply(w1, Action.Validate(t, true)) == With(w, t, Txn(r, Passed, map[]));
    RaceOn(w, [Action.Begin(t, r)], w1, [Action.Validate(t, true)], With(w, t, Txn(r, Passed, map[])), prize);
  }

  lemma Wins(w: World, t: nat, r: Request, prize: Prize)
    requires t in w.txns && w.txns[t] == Txn(r, Passed, map[]) && r.CreateRequest? && r.org in w.orgs
    requires AtRest(w) && KeyFree(w, r)
    ensures Race(w, [Action.Claim(t)] + [Action.Commit(t)], AfterCreate(w, t, r), prize)
  {
    CreateClaims(w, t, r);
    var w1 := Apply(w, Action.Claim(t));
    OneRowCommits(w1, t, r, w.nextId, NewRow(w, r));
    RaceOne(w, Action.Claim(t), prize);
    RaceOne(w1, Action.Commit(t), prize);
    assert Apply(w1, Action.Commit(t)) == AfterCreate(w, t, r);
    RaceOn(w, [Action.Claim(t)], w1, [Action.Commit(t)], AfterCreate(w, t, r), prize);
  }

  /** Both users have passed the checks. */
  ghost const BOTH_PASSED := With(With(ONE_BOOKING, 0, Txn(FIRST, Passed, map[])), 1, Txn(SECOND, Passed, map[]))

  lemma BothEnter() returns (actions: seq<Action>)
    ensures Race(ONE_BOOKING, actions, BOTH_PASSED, TEN)
  {
    var w1 := With(ONE_BOOKING, 0, Txn(FIRST, Passed, map[]));
    CreateMayPass(ONE_BOOKING, 8);
    Enters(ONE_BOOKING, 0, FIRST, TEN);
    CreateMayPass(w1, 9);
    Enters(w1, 1, SECOND, TEN);
    var a := [Action.Begin(0, FIRST)] + [Action.Validate(0, true)];
    var b := [Action.Begin(1, SECOND)] + [Action.Validate(1, true)];
    RaceOn(ONE_BOOKING, a, w1, b, BOTH_PASSED, TEN);
    actions := a + b;
  }

  lemma LastLoses(w: World) returns (end: World)
    requires w == AfterCreate(BOTH_PASSED, 0, FIRST)
    ensures Race(w, [Action.Claim(1)], end, TEN)
    ensures end.txns.Keys == {0, 1} && end.txns[0].phase == Committed && end.txns[1].phase == Conflicted
  {
    assert w.View(1)[1].HoldsKey(1, 600 * MINUTE);
    RaceOne(w, Action.Claim(1), TEN);
    end := Apply(w, Action.Claim(1));
  }

  lemma TenIsFree()
    ensures StartingLine(ONE_BOOKING, TEN) && AtRest(BOTH_PASSED) && KeyFree(BOTH_PASSED, FIRST)
    ensures TEN.Ignores(CANCEL_NINE) && TEN.Ignores(TO_ELEVEN) && !TEN.Ignores(FIRST)
  {
    OneBookingOk();
  }

  /** Two users who want ten o'clock both pass the checks; the first to claim it commits, the other conflicts. */
  lemma TwoRaceForTen() returns (actions: seq<Action>, end: World)
    ensures StartingLine(ONE_BOOKING, TEN) && Race(ONE_BOOKING, actions, end, TEN)
    ensures end.txns.Keys == {0, 1} && end.txns[0].phase == Committed && end.txns[1].phase == Conflicted
  {
    TenIsFree();
    var opening := BothEnter();
    Wins(BOTH_PASSED, 0, FIRST, TEN);
    var won := AfterCreate(BOTH_PASSED, 0, FIRST);
    end := LastLoses(won);
    RaceOn(BOTH_PASSED, [Action.Claim(0)] + [Action.Commit(0)], won, [Action.Claim(1)], end, TEN);
    RaceOn(ONE_BOOKING, opening, BOTH_PASSED, [Action.Claim(0)] + [Action.Commit(0)] + [Action.Claim(1)], end, TEN);
    actions := opening + ([Action.Claim(0)] + [Action.Commit(0)] + [Action.Claim(1)]);
  }
}
