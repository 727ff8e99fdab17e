/** The checks a requested start must pass, in closed form, and their agreement with the slot engine. */
module Validation {
  import opened Clock
  import opened ListingLaws
  import opened Slots
  import opened SlotLaws
  import opened Wrappers
  import opened Zones

  datatype Organization = Organization(zone: Zone, duration: int, horizonDays: int, minLead: int) {
    ghost predicate Valid() { zone.Valid() && 0 < duration }

    /** The stretch a booking starting at u occupies. */
    function SlotFrom(u: int): Range { Range(u, u + duration * MINUTE) }

    function Threshold(now: int): int { now + minLead * MINUTE }

    function Horizon(now: int): int { now + horizonDays * DAY }
  }

  datatype Refusal =
    | TooSoon | BeyondHorizon
    | NotInZone | NoAvailability | CrossesMidnight | OffGrid
    | OverlapsException

  /** _validate_slot_window: None means the check passes. */
  function WindowCheck(org: Organization, u: int, now: int): Option<Refusal> {
    if u < org.Threshold(now) then Some(TooSoon)
    else if u > org.Horizon(now) then Some(BeyondHorizon)
    else None
  }

  /** The test of one rule: aligned with its start and over before its end. */
  predicate RuleAccepts(rule: GridRule, duration: int, startMinute: int, endMinute: int)
    requires 0 < duration
  {
    Aligned(rule, duration, startMinute) && endMinute <= rule.EndMinute()
  }

  /** What _validate_against_grid decides. */
  function GridCheck(org: Organization, rules: seq<GridRule>, u: int, end: int): Option<Refusal>
    requires 0 < org.duration
  {
    var localStart, localEnd := org.zone.Wall(u), org.zone.Wall(end);
    var today := RulesOn(rules, Weekday(DateOf(localStart)));
    if LocalToUtcOrNone(org.zone, localStart, org.zone.Fold(u)) != Some(u) then Some(NotInZone)
    else if today == [] then Some(NoAvailability)
    else if DateOf(localEnd) != DateOf(localStart) then Some(CrossesMidnight)
    else if exists r :: r in today && RuleAccepts(r, org.duration, MinuteOfDay(localStart), MinuteOfDay(localEnd))
    then None
    else Some(OffGrid)
  }

  /** _validate_against_exceptions. */
  function ExceptionCheck(exceptions: seq<Range>, slot: Range): Option<Refusal> {
    if OverlapsAny(slot, exceptions) then Some(OverlapsException) else None
  }

  /** The checks in the order create_booking and reschedule_booking run them. */
  function Verdict(org: Organization, rules: seq<GridRule>, exceptions: seq<Range>, u: int, now: int): Option<Refusal>
    requires 0 < org.duration
  {
    var window := WindowCheck(org, u, now);
    var grid := GridCheck(org, rules, u, u + org.duration * MINUTE);
    if window.Some? then window
    else if grid.Some? then grid
    else ExceptionCheck(exceptions, org.SlotFrom(u))
  }

  /** _validate_against_grid, with its loop over the rules of the weekday. */
  method ValidateAgainstGrid(org: Organization, rules: seq<GridRule>, slotStart: int, slotEnd: int)
    returns (refusal: Option<Refusal>)
    requires 0 < org.duration
    ensures refusal == GridCheck(org, rules, slotStart, slotEnd)
  {
    var localStart, localEnd := org.zone.Wall(slotStart), org.zone.Wall(slotEnd);
    var expected := LocalToUtcOrNone(org.zone, localStart, org.zone.Fold(slotStart));
    if expected != Some(slotStart) {
      return Some(NotInZone);
    }
    var today := RulesOn(rules, Weekday(DateOf(localStart)));
    if today == [] {
      return Some(NoAvailability);
    }
    var slotMinute, slotEndMinute := MinuteOfDay(localStart), MinuteOfDay(localEnd);
    if DateOf(localEnd) != DateOf(localStart) {
      return Some(CrossesMidnight);
    }
    for i := 0 to |today|
      invariant forall k :: 0 <= k < i ==> !RuleAccepts(today[k], org.duration, slotMinute, slotEndMinute)
    {
      var offset := slotMinute - today[i].StartMinute();
      if offset < 0 || offset % org.duration != 0 {
        continue;
      }
      if slotEndMinute > today[i].EndMinute() {
        continue;
      }
      assert RuleAccepts(today[i], org.duration, slotMinute, slotEndMinute);
      return None;
    }
    return Some(OffGrid);
  }

  method Validate(org: Organization, rules: seq<GridRule>, exceptions: seq<Range>, slotStart: int, now: int)
    returns (refusal: Option<Refusal>)
    requires 0 < org.duration
    ensures refusal == Verdict(org, rules, exceptions, slotStart, now)
  {
    var slotEnd := slotStart + org.duration * MINUTE;
    refusal := WindowCheck(org, slotStart, now);
    if refusal.Some? {
      return;
    }
    refusal := ValidateAgainstGrid(org, rules, slotStart, slotEnd);
    if refusal.Some? {
      return;
    }
    refusal := ExceptionCheck(exceptions, Range(slotStart, slotEnd));
  }

  // ----- what the checks accept -----

  /** Some rule of the date is aligned with minute m and lasts until this end minute. */
  ghost predicate Room(rules: seq<GridRule>, duration: int, date: int, m: int, endMinute: int)
    requires 0 < duration
  {
    exists r :: r in rules && r.dayOfWeek == Weekday(date) && RuleAccepts(r, duration, m, endMinute)
  }

  /** There is room from the minute u reads until a slot length later on the wall: what the engine asks. */
  ghost predicate FitsByLength(org: Organization, rules: seq<GridRule>, u: int)
    requires 0 < org.duration
  {
    var wall := org.zone.Wall(u);
    Room(rules, org.duration, DateOf(wall), MinuteOfDay(wall), MinuteOfDay(wall) + org.duration)
  }

  /** There is room from the minute u reads until the minute the slot's end reads, on the same date: what the
      checks ask. */
  ghost predicate FitsByEnd(org: Organization, rules: seq<GridRule>, u: int)
    requires 0 < org.duration
  {
    var wall, wallEnd := org.zone.Wall(u), org.zone.Wall(org.SlotFrom(u).end);
    && DateOf(wallEnd) == DateOf(wall)
    && Room(rules, org.duration, DateOf(wall), MinuteOfDay(wall), MinuteOfDay(wallEnd))
  }

  /** The round-trip guard never refuses an instant. */
  lemma RoundTripAccepts(org: Organization, rules: seq<GridRule>, u: int, end: int)
    requires org.Valid()
    ensures GridCheck(org, rules, u, end) != Some(NotInZone)
  {
    RoundTrip(org.zone, u);
  }

  lemma RoomOnDay(rules: seq<GridRule>, duration: int, date: int, m: int, endMinute: int)
    requires 0 < duration
    ensures var today := RulesOn(rules, Weekday(date));
      (exists r :: r in today && RuleAccepts(r, duration, m, endMinute)) <==> Room(rules, duration, date, m, endMinute)
  {
    forall r
      ensures r in RulesOn(rules, Weekday(date)) <==> r in rules && r.dayOfWeek == Weekday(date)
    {
      RulesOnMembers(rules, Weekday(date), r);
    }
  }

  /** The grid check comes down to room by the wall-clock end, at every instant. */
  lemma GridCheckIffFitsByEnd(org: Organization, rules: seq<GridRule>, u: int)
    requires org.Valid()
    ensures GridCheck(org, rules, u, org.SlotFrom(u).end).None? <==> FitsByEnd(org, rules, u)
  {
    RoundTrip(org.zone, u);
    var wall, wallEnd := org.zone.Wall(u), org.zone.Wall(org.SlotFrom(u).end);
    RoomOnDay(rules, org.duration, DateOf(wall), MinuteOfDay(wall), MinuteOfDay(wallEnd));
  }

  /** All the checks together. */
  lemma AcceptedIffFitsByEnd(org: Organization, rules: seq<GridRule>, exceptions: seq<Range>, u: int, now: int)
    requires org.Valid()
    ensures Verdict(org, rules, exceptions, u, now).None? <==>
      && org.Threshold(now) <= u <= org.Horizon(now)
      && !OverlapsAny(org.SlotFrom(u), exceptions)
      && FitsByEnd(org, rules, u)
  {
    GridCheckIffFitsByEnd(org, rules, u);
  }

  // ----- the two kinds of room -----

  /** The offset is the same where the slot from u starts and where it ends. */
  predicate Steady(org: Organization, u: int) {
    org.zone.OffsetAt(u) == org.zone.OffsetAt(org.SlotFrom(u).end)
  }

  /** Clocks are no further behind where the slot from u ends than where it starts. */
  predicate NoNetDrop(org: Organization, u: int) {
    org.zone.OffsetAt(u) <= org.zone.OffsetAt(org.SlotFrom(u).end)
  }

  lemma WallParts(wall: int)
    ensures 0 <= MinuteOfDay(wall) < 1440
    ensures WallStart(DateOf(wall), MinuteOfDay(wall)) <= wall < WallStart(DateOf(wall), MinuteOfDay(wall) + 1)
    ensures WholeMinute(wall) <==> wall == WallStart(DateOf(wall), MinuteOfDay(wall))
  {
  }

  lemma PartsOfWallStart(date: int, m: int)
    requires 0 <= m < 1440
    ensures DateOf(WallStart(date, m)) == date && MinuteOfDay(WallStart(date, m)) == m
    ensures WholeMinute(WallStart(date, m))
  {
  }

  /** Within one date a later reading has a later minute, by as many whole minutes as lie between. */
  lemma MinutesGrow(wall: int, later: int, minutes: int)
    requires DateOf(wall) == DateOf(later)
    ensures wall + minutes * MINUTE <= later ==> MinuteOfDay(wall) + minutes <= MinuteOfDay(later)
    ensures later <= wall + minutes * MINUTE ==> MinuteOfDay(later) <= MinuteOfDay(wall) + minutes
  {
  }

  lemma WiderRoom(rules: seq<GridRule>, duration: int, date: int, m: int, endMinute: int, sooner: int)
    requires 0 < duration && sooner <= endMinute && Room(rules, duration, date, m, endMinute)
    ensures Room(rules, duration, date, m, sooner)
  {
    var r :| r in rules && r.dayOfWeek == Weekday(date) && RuleAccepts(r, duration, m, endMinute);
    assert RuleAccepts(r, duration, m, sooner);
  }

  /** When clocks do not fall back over the slot, what the checks ask is no less than what the engine asks. */
  lemma NoDropEndImpliesLength(org: Organization, rules: seq<GridRule>, u: int)
    requires org.Valid() && NoNetDrop(org, u) && FitsByEnd(org, rules, u)
    ensures FitsByLength(org, rules, u)
  {
    var wall, wallEnd := org.zone.Wall(u), org.zone.Wall(org.SlotFrom(u).end);
    MinutesGrow(wall, wallEnd, org.duration);
    var m := MinuteOfDay(wall);
    WiderRoom(rules, org.duration, DateOf(wall), m, MinuteOfDay(wallEnd), m + org.duration);
  }

  /** When they do not jump forward over it, and it ends on the date it starts, it is no more. */
  lemma NoRiseLengthImpliesEnd(org: Organization, rules: seq<GridRule>, u: int)
    requires org.Valid() && org.zone.OffsetAt(org.SlotFrom(u).end) <= org.zone.OffsetAt(u)
    requires DateOf(org.zone.Wall(org.SlotFrom(u).end)) == DateOf(org.zone.Wall(u)) && FitsByLength(org, rules, u)
    ensures FitsByEnd(org, rules, u)
  {
    var wall, wallEnd := org.zone.Wall(u), org.zone.Wall(org.SlotFrom(u).end);
    MinutesGrow(wall, wallEnd, org.duration);
    var m := MinuteOfDay(wall);
    WiderRoom(rules, org.duration, DateOf(wall), m, m + org.duration, MinuteOfDay(wallEnd));
  }

  lemma SameDateEnd(wall: int, minutes: int)
    requires 0 <= minutes && MinuteOfDay(wall) + minutes < 1440
    ensures DateOf(wall + minutes * MINUTE) == DateOf(wall)
  {
  }

  lemma SteadyFitsAlike(org: Organization, rules: seq<GridRule>, u: int)
    requires org.Valid() && Steady(org, u)
    ensures FitsByEnd(org, rules, u) <==> FitsByLength(org, rules, u)
  {
    if FitsByEnd(org, rules, u) {
      NoDropEndImpliesLength(org, rules, u);
    }
    if FitsByLength(org, rules, u) {
      SameDateEnd(org.zone.Wall(u), org.duration);
      NoRiseLengthImpliesEnd(org, rules, u);
    }
  }

  /** For a slot that ends under the offset it starts under, the grid check is the raster test of its minute. */
  lemma GridCheckIsRaster(org: Organization, rules: seq<GridRule>, u: int)
    requires org.Valid() && Steady(org, u)
    ensures GridCheck(org, rules, u, org.SlotFrom(u).end).None? <==> FitsByLength(org, rules, u)
  {
    GridCheckIffFitsByEnd(org, rules, u);
    SteadyFitsAlike(org, rules, u);
  }

  // ----- what the engine lists -----

  lemma RasterIsRoom(rules: seq<GridRule>, r: GridRule, duration: int, date: int, m: int)
    requires 0 < duration && r in rules && r.dayOfWeek == Weekday(date) && OnRaster(r, duration, m)
    ensures Room(rules, duration, date, m, m + duration)
  {
    assert RuleAccepts(r, duration, m, m + duration);
  }

  /** A grid slot starts at the first reader of its wall time, a whole minute with room for its length. */
  lemma GridSlotIsFirstReader(org: Organization, rules: seq<GridRule>, first: int, last: int, u: int)
    requires org.Valid() && InGrid(org.zone, org.duration, rules, first, last, org.SlotFrom(u))
    ensures !org.zone.Fold(u) && WholeMinute(org.zone.Wall(u)) && first <= DateOf(org.zone.Wall(u)) <= last
    ensures FitsByLength(org, rules, u)
  {
    var date, rule, m :| first <= date <= last && rule in rules
                         && OfferedAt(org.zone, org.duration, date, rule, m, org.SlotFrom(u));
    SlotAtWall(org.zone, org.duration, date, rule, m, org.SlotFrom(u));
    PartsOfWallStart(date, m);
    RasterIsRoom(rules, rule, org.duration, date, m);
    FirstReaderHasNoFold(org.zone, WallStart(date, m), u);
  }

  lemma FirstReaderIsGridSlot(org: Organization, rules: seq<GridRule>, first: int, last: int, u: int)
    requires org.Valid() && !org.zone.Fold(u) && WholeMinute(org.zone.Wall(u)) && FitsByLength(org, rules, u)
    requires first <= DateOf(org.zone.Wall(u)) <= last
    ensures InGrid(org.zone, org.duration, rules, first, last, org.SlotFrom(u))
  {
    var wall, d := org.zone.Wall(u), org.duration;
    var date, m := DateOf(wall), MinuteOfDay(wall);
    WallParts(wall);
    RoundTrip(org.zone, u);
    var r :| r in rules && r.dayOfWeek == Weekday(date) && RuleAccepts(r, d, m, m + d);
    assert OfferedAt(org.zone, d, date, r, m, org.SlotFrom(u));
  }

  /** The slot from u is listed: some listed slot starts at u. */
  ghost predicate Listed(slots: seq<Range>, u: int) {
    exists s :: s in slots && s.start == u
  }

  lemma ListedSlot(org: Organization, rules: seq<GridRule>, bookings: seq<Range>, exceptions: seq<Range>,
                   first: int, last: int, threshold: int, u: int)
    requires org.Valid()
    ensures Listed(AvailableSlots(org.zone, org.duration, rules, bookings, exceptions, first, last, threshold), u) <==>
      InGrid(org.zone, org.duration, rules, first, last, org.SlotFrom(u))
      && Free(org.SlotFrom(u), threshold, bookings, exceptions)
  {
    FreeOneDuration(org.zone, org.duration, rules, bookings, exceptions, first, last, threshold);
    ListingIsExact(org.zone, org.duration, rules, bookings, exceptions, first, last, threshold);
  }

  /** A start the engine considers: a whole minute on the first pass, late enough and not blocked. */
  predicate Candidate(org: Organization, exceptions: seq<Range>, u: int, now: int) {
    && WholeMinute(org.zone.Wall(u)) && !org.zone.Fold(u)
    && org.Threshold(now) <= u && !OverlapsAny(org.SlotFrom(u), exceptions)
  }

  /** What the listing offers among the starts of its dates that overlap no booking. */
  lemma ListedIffFitsByLength(org: Organization, rules: seq<GridRule>, bookings: seq<Range>, exceptions: seq<Range>,
                              first: int, last: int, u: int, now: int)
    requires org.Valid() && first <= DateOf(org.zone.Wall(u)) <= last && !OverlapsAny(org.SlotFrom(u), bookings)
    ensures var out :=
        AvailableSlots(org.zone, org.duration, rules, bookings, exceptions, first, last, org.Threshold(now));
      Listed(out, u) <==> Candidate(org, exceptions, u, now) && FitsByLength(org, rules, u)
  {
    ListedSlot(org, rules, bookings, exceptions, first, last, org.Threshold(now), u);
    if InGrid(org.zone, org.duration, rules, first, last, org.SlotFrom(u)) {
      GridSlotIsFirstReader(org, rules, first, last, u);
    }
    if Candidate(org, exceptions, u, now) && FitsByLength(org, rules, u) {
      FirstReaderIsGridSlot(org, rules, first, last, u);
    }
  }

  // ----- generator and validator -----

  /** When generator and validator agree, exactly. For any start within the horizon that overlaps no booking:
      being listed for its local date and passing the checks as a whole minute on the first pass come to the
      same, if and only if it is no candidate anyway or its two kinds of room coincide. */
  lemma AgreementIsExact(org: Organization, rules: seq<GridRule>, bookings: seq<Range>, exceptions: seq<Range>,
                         first: int, last: int, u: int, now: int)
    requires org.Valid() && first <= DateOf(org.zone.Wall(u)) <= last
    requires u <= org.Horizon(now) && !OverlapsAny(org.SlotFrom(u), bookings)
    ensures var out :=
        AvailableSlots(org.zone, org.duration, rules, bookings, exceptions, first, last, org.Threshold(now));
      (Listed(out, u) <==>
         Verdict(org, rules, exceptions, u, now).None? && WholeMinute(org.zone.Wall(u)) && !org.zone.Fold(u))
      <==> (Candidate(org, exceptions, u, now) ==> (FitsByLength(org, rules, u) <==> FitsByEnd(org, rules, u)))
  {
    ListedIffFitsByLength(org, rules, bookings, exceptions, first, last, u, now);
    AcceptedIffFitsByEnd(org, rules, exceptions, u, now);
  }

  /** In particular they agree on every slot that ends under the offset it starts under: it is listed exactly when
      the checks pass, its start is a whole minute and it is not the second pass through a repeated hour. */
  lemma ListedIffAccepted(org: Organization, rules: seq<GridRule>, bookings: seq<Range>, exceptions: seq<Range>,
                          first: int, last: int, u: int, now: int)
    requires org.Valid() && Steady(org, u) && first <= DateOf(org.zone.Wall(u)) <= last
    requires u <= org.Horizon(now) && !OverlapsAny(org.SlotFrom(u), bookings)
    ensures var out :=
        AvailableSlots(org.zone, org.duration, rules, bookings, exceptions, first, last, org.Threshold(now));
      Listed(out, u) <==>
        Verdict(org, rules, exceptions, u, now).None? && WholeMinute(org.zone.Wall(u)) && !org.zone.Fold(u)
  {
    AgreementIsExact(org, rules, bookings, exceptions, first, last, u, now);
    SteadyFitsAlike(org, rules, u);
  }

  /** A listed slot passes the checks exactly when it starts within the horizon and has room by its wall-clock end. */
  lemma ListedAcceptedIff(org: Organization, rules: seq<GridRule>, bookings: seq<Range>, exceptions: seq<Range>,
                          first: int, last: int, s: Range, now: int)
    requires org.Valid()
    requires s in AvailableSlots(org.zone, org.duration, rules, bookings, exceptions, first, last, org.Threshold(now))
    ensures Verdict(org, rules, exceptions, s.start, now).None? <==>
              s.start <= org.Horizon(now) && FitsByEnd(org, rules, s.start)
    ensures s == org.SlotFrom(s.start) && !OverlapsAny(s, bookings) && FitsByLength(org, rules, s.start)
  {
    FreeOneDuration(org.zone, org.duration, rules, bookings, exceptions, first, last, org.Threshold(now));
    ListingIsExact(org.zone, org.duration, rules, bookings, exceptions, first, last, org.Threshold(now));
    GridSlotIsFirstReader(org, rules, first, last, s.start);
    AcceptedIffFitsByEnd(org, rules, exceptions, s.start, now);
  }

  /** The latest end minute among the rules of the date that are aligned with minute m; -1 if there is none. */
  function LatestEnd(rules: seq<GridRule>, duration: int, date: int, m: int): (latest: int)
    requires 0 < duration
  {
    if rules == [] then -1
    else
      var r := rules[0];
      Max(if r.dayOfWeek == Weekday(date) && Aligned(r, duration, m) then r.EndMinute() else -1,
          LatestEnd(rules[1..], duration, date, m))
  }

  lemma RoomByHead(rules: seq<GridRule>, duration: int, date: int, m: int, endMinute: int)
    requires 0 < duration && rules != []
    ensures Room(rules, duration, date, m, endMinute) <==>
      || (rules[0].dayOfWeek == Weekday(date) && RuleAccepts(rules[0], duration, m, endMinute))
      || Room(rules[1..], duration, date, m, endMinute)
  {
    assert rules == [rules[0]] + rules[1..];
    if Room(rules[1..], duration, date, m, endMinute) {
      var r :| r in rules[1..] && r.dayOfWeek == Weekday(date) && RuleAccepts(r, duration, m, endMinute);
      assert r in rules;
    }
  }

  lemma {:induction false} RoomIffByLatestEnd(rules: seq<GridRule>, duration: int, date: int, m: int, endMinute: int)
    requires 0 < duration && 0 <= endMinute
    ensures Room(rules, duration, date, m, endMinute) <==> endMinute <= LatestEnd(rules, duration, date, m)
  {
    if rules != [] {
      var r := rules[0];
      RoomIffByLatestEnd(rules[1..], duration, date, m, endMinute);
      RoomByHead(rules, duration, date, m, endMinute);
      assert 0 <= r.EndMinute();
    }
  }

  /** Where generator and validator part, exactly. For a candidate within the horizon that overlaps no booking: if its
      slot ends on the date it starts, they part just when the latest end among aligned rules lies between the
      slot's end by length and the minute its end reads; if it ends on another date, just when it is listed. */
  lemma PartIff(org: Organization, rules: seq<GridRule>, bookings: seq<Range>, exceptions: seq<Range>,
                first: int, last: int, u: int, now: int)
    requires org.Valid() && first <= DateOf(org.zone.Wall(u)) <= last && Candidate(org, exceptions, u, now)
    requires u <= org.Horizon(now) && !OverlapsAny(org.SlotFrom(u), bookings)
    ensures var out :=
        AvailableSlots(org.zone, org.duration, rules, bookings, exceptions, first, last, org.Threshold(now));
      var wall, wallEnd := org.zone.Wall(u), org.zone.Wall(org.SlotFrom(u).end);
      var latest := LatestEnd(rules, org.duration, DateOf(wall), MinuteOfDay(wall));
      var byLength, byEnd := MinuteOfDay(wall) + org.duration, MinuteOfDay(wallEnd);
      (Listed(out, u) <==> Verdict(org, rules, exceptions, u, now).None?) <==>
        !(if DateOf(wallEnd) == DateOf(wall) then Min(byLength, byEnd) <= latest < Max(byLength, byEnd)
          else byLength <= latest)
  {
    var wall, wallEnd := org.zone.Wall(u), org.zone.Wall(org.SlotFrom(u).end);
    AgreementIsExact(org, rules, bookings, exceptions, first, last, u, now);
    WallParts(wall);
    WallParts(wallEnd);
    RoomIffByLatestEnd(rules, org.duration, DateOf(wall), MinuteOfDay(wall), MinuteOfDay(wall) + org.duration);
    RoomIffByLatestEnd(rules, org.duration, DateOf(wall), MinuteOfDay(wall), MinuteOfDay(wallEnd));
  }

  // ----- two accepted starts -----

  /** A start that reads a whole minute, over whose slot clocks do not fall back. */
  predicate PlainStart(org: Organization, u: int) { WholeMinute(org.zone.Wall(u)) && NoNetDrop(org, u) }

  /** What may be known of the starts that are requested: nothing; that they are plain; besides that clocks do not
      jump forward inside their slots; or besides that they are all under one offset. */
  datatype Clocks = Unknown | Plain | WithoutJumps | Under(offset: int)

  ghost predicate TameStart(org: Organization, u: int, clocks: Clocks) {
    match clocks
    case Unknown => true
    case Plain => PlainStart(org, u)
    case WithoutJumps => PlainStart(org, u) && NoJumpForward(org.zone, org.SlotFrom(u))
    case Under(offset) => PlainStart(org, u) && org.zone.OffsetAt(u) == offset
  }

  /** Of two plain accepted starts the one that reads earlier leaves room on the wall for its slot. */
  lemma PlainStartsHaveRoom(org: Organization, rules: seq<GridRule>, u: int, v: int)
    requires org.Valid() && RulesDisjoint(rules) && PlainStart(org, u) && PlainStart(org, v)
    requires FitsByEnd(org, rules, u) && FitsByEnd(org, rules, v) && org.zone.Wall(u) < org.zone.Wall(v)
    ensures 0 <= Slack(org.zone, org.duration, u, v)
  {
    var wu, wv, d := org.zone.Wall(u), org.zone.Wall(v), org.duration;
    NoDropEndImpliesLength(org, rules, u);
    NoDropEndImpliesLength(org, rules, v);
    WallParts(wu);
    WallParts(wv);
    var mu, mv := MinuteOfDay(wu), MinuteOfDay(wv);
    var r :| r in rules && r.dayOfWeek == Weekday(DateOf(wu)) && RuleAccepts(r, d, mu, mu + d);
    var q :| q in rules && q.dayOfWeek == Weekday(DateOf(wv)) && RuleAccepts(q, d, mv, mv + d);
    WallWindowsApart(d, rules, DateOf(wu), r, mu, DateOf(wv), q, mv);
  }

  /** Between plain accepted starts there is room on the wall for the earlier slot, unless the later start is the
      second pass through a repeated hour, under another offset. */
  lemma AcceptedStartsHaveRoom(org: Organization, rules: seq<GridRule>, u: int, v: int)
    requires org.Valid() && RulesDisjoint(rules) && u < v && PlainStart(org, u) && PlainStart(org, v)
    requires FitsByEnd(org, rules, u) && FitsByEnd(org, rules, v)
    requires !org.zone.Fold(v) || Gain(org.zone, u, v) == 0
    ensures 0 <= Slack(org.zone, org.duration, u, v)
  {
    if !org.zone.Fold(v) {
      FirstPassReadsLater(org.zone, u, v);
    }
    PlainStartsHaveRoom(org, rules, u, v);
  }

  lemma WithoutJumpsSameOffset(org: Organization, u: int, v: int)
    requires org.Valid() && TameStart(org, u, WithoutJumps) && TameStart(org, v, WithoutJumps)
    requires u < v < org.SlotFrom(u).end
    ensures Gain(org.zone, u, v) == 0
  {
    assert org.zone.OffsetAt(org.SlotFrom(u).end) <= org.zone.OffsetAt(v);
  }

  /** Plain accepted starts without forward jumps never overlap, on either pass through a repeated hour, and neither
      do those under one offset. */
  lemma AcceptedStartsApart(org: Organization, rules: seq<GridRule>, u: int, v: int, clocks: Clocks)
    requires org.Valid() && RulesDisjoint(rules) && u < v && (clocks.WithoutJumps? || clocks.Under?)
    requires TameStart(org, u, clocks) && TameStart(org, v, clocks)
    requires FitsByEnd(org, rules, u) && FitsByEnd(org, rules, v)
    ensures !RangesOverlap(org.SlotFrom(u), org.SlotFrom(v))
  {
    if v < org.SlotFrom(u).end {
      if clocks.WithoutJumps? { WithoutJumpsSameOffset(org, u, v); }
      AcceptedStartsHaveRoom(org, rules, u, v);
      assert false;
    }
  }
}
