/** What the engine, the checks and the booking calls answer and store, exactly, in terms of stored rows, settings and
    what local clocks read. */
module Contracts {
  import opened Availability
  import opened Bookings
  import opened Clock
  import opened ListingLaws
  import opened Modulo
  import opened Slots
  import opened SlotLaws
  import opened Validation
  import opened Wrappers
  import opened Zones

  // ----- readings and rules -----

  /** At u local clocks are within this minute of the date. */
  ghost predicate ReadsMinute(z: Zone, u: int, date: int, m: int) {
    0 <= m < 1440 && date * DAY + m * MINUTE <= z.Wall(u) < date * DAY + (m + 1) * MINUTE
  }

  lemma ReadsMinuteIff(z: Zone, u: int, date: int, m: int)
    ensures ReadsMinute(z, u, date, m) <==> DateOf(z.Wall(u)) == date && MinuteOfDay(z.Wall(u)) == m
  {
    WallParts(z.Wall(u));
  }

  /** The time of day is within minute m. */
  ghost predicate WithinMinute(t: TimeOfDay, m: int) { m * MINUTE <= t < (m + 1) * MINUTE }

  lemma WithinMinuteIff(t: TimeOfDay, m: int)
    ensures WithinMinute(t, m) <==> MinuteOf(t) == m
  {
  }

  predicate StepsAfter(start: int, k: nat, duration: int, m: int) { m == start + k * duration }

  /** Minute m is a whole number of slots after the minute the rule starts in, and no later than `until` the rule ends,
      to the minute. */
  ghost predicate OnRuleUntil(rule: GridRule, duration: int, m: int, until: int) {
    && (exists start, k: nat :: WithinMinute(rule.start, start) && StepsAfter(start, k, duration, m))
    && exists end :: WithinMinute(rule.end, end) && until <= end
  }

  lemma OnRuleUntilIff(rule: GridRule, duration: int, m: int, until: int)
    requires 0 < duration
    ensures OnRuleUntil(rule, duration, m, until) <==> RuleAccepts(rule, duration, m, until)
  {
    WithinMinuteIff(rule.start, rule.StartMinute());
    WithinMinuteIff(rule.end, rule.EndMinute());
    if OnRuleUntil(rule, duration, m, until) {
      var start, k: nat :| WithinMinute(rule.start, start) && StepsAfter(start, k, duration, m);
      WithinMinuteIff(rule.start, start);
      AddMultiple(0, k, duration);
      assert 0 <= k * duration;
      var end :| WithinMinute(rule.end, end) && until <= end;
      WithinMinuteIff(rule.end, end);
    }
    if RuleAccepts(rule, duration, m, until) {
      var k := ZeroRemainderIsMultiple(m - rule.StartMinute(), duration);
      assert StepsAfter(rule.StartMinute(), k, duration, m);
    }
  }

  // ----- the checks -----

  /** The rule is of the day clocks read at u, aligned with the minute they read then, and lasts until the minute they
      read on the same day when the slot from u ends. */
  ghost predicate Grants(org: Organization, rule: GridRule, u: int) {
    exists date, m, n ::
      && FallsOn(date, rule.dayOfWeek) && ReadsMinute(org.zone, u, date, m)
      && ReadsMinute(org.zone, u + org.duration * MINUTE, date, n)
      && OnRuleUntil(rule, org.duration, m, n)
  }

  lemma GrantsIff(org: Organization, rule: GridRule, u: int)
    requires org.Valid()
    ensures var wall, wallEnd := org.zone.Wall(u), org.zone.Wall(u + org.duration * MINUTE);
      Grants(org, rule, u) <==>
        && DateOf(wallEnd) == DateOf(wall) && rule.dayOfWeek == Weekday(DateOf(wall))
        && RuleAccepts(rule, org.duration, MinuteOfDay(wall), MinuteOfDay(wallEnd))
  {
    var end := u + org.duration * MINUTE;
    var wall, wallEnd := org.zone.Wall(u), org.zone.Wall(end);
    var date, m, n := DateOf(wall), MinuteOfDay(wall), MinuteOfDay(wallEnd);
    WeekdayIsExact(date, rule.dayOfWeek);
    OnRuleUntilIff(rule, org.duration, m, n);
    ReadsMinuteIff(org.zone, u, date, m);
    ReadsMinuteIff(org.zone, end, date, n);
    if Grants(org, rule, u) {
      var date', m', n' :|
        && FallsOn(date', rule.dayOfWeek) && ReadsMinute(org.zone, u, date', m')
        && ReadsMinute(org.zone, end, date', n') && OnRuleUntil(rule, org.duration, m', n');
      ReadsMinuteIff(org.zone, u, date', m');
      ReadsMinuteIff(org.zone, end, date', n');
    }
  }

  lemma FitsByEndIffGranted(org: Organization, rules: seq<GridRule>, u: int)
    requires org.Valid()
    ensures FitsByEnd(org, rules, u) <==> exists rule :: rule in rules && Grants(org, rule, u)
  {
    var wall, wallEnd := org.zone.Wall(u), org.zone.Wall(u + org.duration * MINUTE);
    var date, m, n := DateOf(wall), MinuteOfDay(wall), MinuteOfDay(wallEnd);
    forall rule | rule in rules
      ensures Grants(org, rule, u) <==>
                DateOf(wallEnd) == date && rule.dayOfWeek == Weekday(date) && RuleAccepts(rule, org.duration, m, n)
    {
      GrantsIff(org, rule, u);
    }
  }

  /** The rule is of the day clocks read at u. */
  ghost predicate OnDayOf(org: Organization, rule: GridRule, u: int) {
    exists date, m :: FallsOn(date, rule.dayOfWeek) && ReadsMinute(org.zone, u, date, m)
  }

  lemma OnDayOfIff(org: Organization, rule: GridRule, u: int)
    ensures OnDayOf(org, rule, u) <==> rule.dayOfWeek == Weekday(DateOf(org.zone.Wall(u)))
  {
    var date, m := DateOf(org.zone.Wall(u)), MinuteOfDay(org.zone.Wall(u));
    WeekdayIsExact(date, rule.dayOfWeek);
    ReadsMinuteIff(org.zone, u, date, m);
    if OnDayOf(org, rule, u) {
      var date', m' :| FallsOn(date', rule.dayOfWeek) && ReadsMinute(org.zone, u, date', m');
      ReadsMinuteIff(org.zone, u, date', m');
    }
  }

  ghost predicate SameDay(z: Zone, u: int, v: int) {
    exists date, m, n :: ReadsMinute(z, u, date, m) && ReadsMinute(z, v, date, n)
  }

  lemma SameDayIff(z: Zone, u: int, v: int)
    ensures SameDay(z, u, v) <==> DateOf(z.Wall(v)) == DateOf(z.Wall(u))
  {
    var date := DateOf(z.Wall(u));
    ReadsMinuteIff(z, u, date, MinuteOfDay(z.Wall(u)));
    ReadsMinuteIff(z, v, date, MinuteOfDay(z.Wall(v)));
    if SameDay(z, u, v) {
      var date', m', n' :| ReadsMinute(z, u, date', m') && ReadsMinute(z, v, date', n');
      ReadsMinuteIff(z, u, date', m');
      ReadsMinuteIff(z, v, date', n');
    }
  }

  predicate Covers(start: int, end: int, t: int) { start <= t < end }

  /** Two half-open stretches of time share a moment. */
  ghost predicate ShareTime(start: int, end: int, start': int, end': int) {
    exists t :: Covers(start, end, t) && Covers(start', end', t)
  }

  lemma OverlapIsSharedTime(a: Range, b: Range)
    requires a.start < a.end && b.start < b.end
    ensures RangesOverlap(a, b) <==> ShareTime(a.start, a.end, b.start, b.end)
  {
    if RangesOverlap(a, b) {
      var t := Max(a.start, b.start);
      assert Covers(a.start, a.end, t) && Covers(b.start, b.end, t);
    }
  }

  /** From the lead to the horizon, both included. */
  predicate InWindow(org: Organization, u: int, now: int) {
    now + org.minLead * MINUTE <= u <= now + org.horizonDays * DAY
  }

  ghost predicate Granted(org: Organization, rules: seq<GridRule>, u: int) {
    exists rule :: rule in rules && Grants(org, rule, u)
  }

  ghost predicate AnyRule(org: Organization, rules: seq<GridRule>, u: int) {
    exists rule :: rule in rules && OnDayOf(org, rule, u)
  }

  lemma AnyRuleIff(org: Organization, rules: seq<GridRule>, u: int)
    ensures AnyRule(org, rules, u) <==> RulesOn(rules, Weekday(DateOf(org.zone.Wall(u)))) != []
  {
    var day := Weekday(DateOf(org.zone.Wall(u)));
    forall rule
      ensures rule in RulesOn(rules, day) <==> rule in rules && OnDayOf(org, rule, u)
    {
      RulesOnMembers(rules, day, rule);
      OnDayOfIff(org, rule, u);
    }
    if RulesOn(rules, day) != [] {
      var rule := RulesOn(rules, day)[0];
      assert rule in rules && OnDayOf(org, rule, u);
    }
  }

  lemma GrantedHasRule(org: Organization, rules: seq<GridRule>, u: int)
    requires org.Valid() && Granted(org, rules, u)
    ensures AnyRule(org, rules, u) && SameDay(org.zone, u, u + org.duration * MINUTE)
  {
    var rule :| rule in rules && Grants(org, rule, u);
    GrantsIff(org, rule, u);
    OnDayOfIff(org, rule, u);
    SameDayIff(org.zone, u, u + org.duration * MINUTE);
  }

  /** Which refusal the grid check gives. */
  lemma GridCheckIsExact(org: Organization, rules: seq<GridRule>, u: int)
    requires org.Valid()
    ensures GridCheck(org, rules, u, u + org.duration * MINUTE) ==
      if !AnyRule(org, rules, u) then Some(NoAvailability)
      else if !SameDay(org.zone, u, u + org.duration * MINUTE) then Some(CrossesMidnight)
      else if !Granted(org, rules, u) then Some(OffGrid)
      else None
  {
    RoundTrip(org.zone, u);
    AnyRuleIff(org, rules, u);
    SameDayIff(org.zone, u, u + org.duration * MINUTE);
    FitsByEndIffGranted(org, rules, u);
    GridCheckIffFitsByEnd(org, rules, u);
  }

  ghost predicate Blocked(org: Organization, exceptions: seq<Range>, u: int) {
    exists e :: e in exceptions && e.start < u + org.duration * MINUTE && u < e.end
  }

  /** What the checks answer, refusal by refusal. */
  lemma VerdictIsExact(org: Organization, rules: seq<GridRule>, exceptions: seq<Range>, u: int, now: int)
    requires org.Valid()
    ensures Verdict(org, rules, exceptions, u, now) ==
      if u < now + org.minLead * MINUTE then Some(TooSoon)
      else if now + org.horizonDays * DAY < u then Some(BeyondHorizon)
      else if !AnyRule(org, rules, u) then Some(NoAvailability)
      else if !SameDay(org.zone, u, u + org.duration * MINUTE) then Some(CrossesMidnight)
      else if !Granted(org, rules, u) then Some(OffGrid)
      else if Blocked(org, exceptions, u) then Some(OverlapsException)
      else None
  {
    GridCheckIsExact(org, rules, u);
    assert OverlapsAny(org.SlotFrom(u), exceptions) <==> Blocked(org, exceptions, u);
  }

  // ----- the engine -----

  /** The earliest instant at which clocks read this. */
  ghost predicate FirstReading(z: Zone, wall: int, u: int) {
    z.Wall(u) == wall && forall v :: z.Wall(v) == wall ==> u <= v
  }

  lemma FirstReadingIff(z: Zone, wall: int, u: int)
    requires z.Valid()
    ensures LocalToUtcOrNone(z, wall, false) == Some(u) <==> FirstReading(z, wall, u)
  {
    LocalToUtcIsExact(z, wall, false);
  }

  /** On this date, which is of its day, the rule offers the slot s: from the first instant that reads minute m, a whole
      number of slots after the rule's start and at least one before its end. */
  ghost predicate Offers(z: Zone, duration: int, rule: GridRule, date: int, m: int, s: Range) {
    && FallsOn(date, rule.dayOfWeek) && OnRuleUntil(rule, duration, m, m + duration)
    && FirstReading(z, date * DAY + m * MINUTE, s.start) && s.end == s.start + duration * MINUTE
  }

  lemma OffersIff(z: Zone, duration: int, rule: GridRule, date: int, m: int, s: Range)
    requires z.Valid() && 0 < duration
    ensures Offers(z, duration, rule, date, m, s) <==> OfferedAt(z, duration, date, rule, m, s)
  {
    WeekdayIsExact(date, rule.dayOfWeek);
    OnRuleUntilIff(rule, duration, m, m + duration);
    FirstReadingIff(z, date * DAY + m * MINUTE, s.start);
  }

  ghost predicate OfferedIn(z: Zone, duration: int, rules: seq<GridRule>, first: int, last: int, s: Range) {
    exists rule, date, m :: rule in rules && first <= date <= last && Offers(z, duration, rule, date, m, s)
  }

  ghost predicate Meets(s: Range, ranges: seq<Range>) {
    exists r :: r in ranges && r.start < s.end && s.start < r.end
  }

  lemma OfferedInIff(z: Zone, duration: int, rules: seq<GridRule>, first: int, last: int, s: Range)
    requires z.Valid() && 0 < duration
    ensures InGrid(z, duration, rules, first, last, s) <==> OfferedIn(z, duration, rules, first, last, s)
  {
    forall date, rule, m { OffersIff(z, duration, rule, date, m, s); }
  }

  /** What the engine lists: earliest first, exactly the slots that some rule offers on some date of the range, from the
      threshold on, clear of bookings and exceptions. */
  lemma EngineIsExact(z: Zone, duration: int, rules: seq<GridRule>, bookings: seq<Range>, exceptions: seq<Range>,
                      first: int, last: int, threshold: int)
    requires z.Valid() && 0 < duration
    ensures var out := AvailableSlots(z, duration, rules, bookings, exceptions, first, last, threshold);
      && (forall i, j :: 0 <= i < j < |out| ==> out[i].start <= out[j].start)
      && forall s :: s in out <==>
           && OfferedIn(z, duration, rules, first, last, s) && threshold <= s.start
           && !Meets(s, bookings) && !Meets(s, exceptions)
  {
    ListingIsExact(z, duration, rules, bookings, exceptions, first, last, threshold);
    forall s
      ensures InGrid(z, duration, rules, first, last, s) <==> OfferedIn(z, duration, rules, first, last, s)
      ensures Free(s, threshold, bookings, exceptions) <==>
                threshold <= s.start && !Meets(s, bookings) && !Meets(s, exceptions)
    {
      OfferedInIff(z, duration, rules, first, last, s);
    }
  }

  /** One rule by itself lists no slot twice; so rules together list a slot as often as there are rules offering it. */
  lemma OneRuleListsOnce(z: Zone, duration: int, rule: GridRule, bookings: seq<Range>, exceptions: seq<Range>,
                         first: int, last: int, threshold: int)
    requires z.Valid() && 0 < duration
    ensures var out := AvailableSlots(z, duration, [rule], bookings, exceptions, first, last, threshold);
      forall i, j :: 0 <= i < j < |out| ==> out[i].start < out[j].start
  {
    ListingIsStrict(z, duration, [rule], bookings, exceptions, first, last, threshold);
  }

  // ----- what the tables say -----

  /** A stored exception of the organization is in the way of this stretch. */
  ghost predicate ExceptionAt(rows: seq<ExceptionRow>, org: int, start: int, end: int) {
    exists i :: 0 <= i < |rows| && rows[i].org == org && rows[i].start < end && start < rows[i].end
  }

  /** An active booking of the organization is in the way of this stretch. */
  ghost predicate BookingAt(t: Table, org: int, start: int, end: int) {
    exists i :: i in t && t[i].status.Active? && t[i].org == org && t[i].start < end && start < t[i].end
  }

  /** An active booking of the organization other than this one has this start. */
  ghost predicate StartTaken(t: Table, except: nat, org: int, start: int) {
    exists i :: i in t && i != except && t[i].status.Active? && t[i].org == org && t[i].start == start
  }

  lemma ExceptionAtIff(rows: seq<ExceptionRow>, org: int, s: Range)
    ensures Meets(s, ExceptionSpans(rows, org)) <==> ExceptionAt(rows, org, s.start, s.end)
  {
    forall r { ExceptionSpansMembers(rows, org, r); }
    if i :| 0 <= i < |rows| && rows[i].org == org && rows[i].start < s.end && s.start < rows[i].end {
      assert Range(rows[i].start, rows[i].end) in ExceptionSpans(rows, org);
    }
  }

  lemma BookingAtIff(st: State, org: int, s: Range)
    requires st.Valid()
    ensures Meets(s, ActiveSpans(st.bookings, st.nextId, org)) <==> BookingAt(st.bookings, org, s.start, s.end)
  {
    forall r { ActiveSpansMembers(st.bookings, st.nextId, org, r); }
    if i :| i in st.bookings && st.bookings[i].status.Active? && st.bookings[i].org == org
            && st.bookings[i].start < s.end && s.start < st.bookings[i].end {
      assert st.bookings[i].Span() in ActiveSpans(st.bookings, st.nextId, org);
    }
  }

  // ----- the booking calls -----

  /** Why a start is refused to the organization, if it is: the first of these reasons. */
  ghost function RefusalOf(st: State, org: int, u: int, now: int): Option<Refusal>
    requires org in st.orgs
  {
    var o, rules := st.orgs[org], if org in st.grids then st.grids[org] else [];
    if u < now + o.minLead * MINUTE then Some(TooSoon)
    else if now + o.horizonDays * DAY < u then Some(BeyondHorizon)
    else if !AnyRule(o, rules, u) then Some(NoAvailability)
    else if !SameDay(o.zone, u, u + o.duration * MINUTE) then Some(CrossesMidnight)
    else if !Granted(o, rules, u) then Some(OffGrid)
    else if ExceptionAt(st.exceptions, org, u, u + o.duration * MINUTE) then Some(OverlapsException)
    else None
  }

  /** The start is open to the organization: in the window, granted by a stored rule, and free of stored exceptions. */
  ghost predicate Open(st: State, org: int, u: int, now: int)
    requires org in st.orgs
  {
    var o, rules := st.orgs[org], if org in st.grids then st.grids[org] else [];
    && InWindow(o, u, now) && Granted(o, rules, u)
    && !ExceptionAt(st.exceptions, org, u, u + o.duration * MINUTE)
  }

  lemma OpenIffNotRefused(st: State, org: int, u: int, now: int)
    requires st.Valid() && org in st.orgs
    ensures RefusalOf(st, org, u, now).None? <==> Open(st, org, u, now)
  {
    var o, rules := st.orgs[org], if org in st.grids then st.grids[org] else [];
    if Granted(o, rules, u) { GrantedHasRule(o, rules, u); }
  }

  lemma CheckIsRefusal(st: State, org: int, u: int, now: int)
    requires st.Valid() && org in st.orgs
    ensures Check(st, org, u, now) == RefusalOf(st, org, u, now)
  {
    var o := st.orgs[org];
    VerdictIsExact(o, st.Grid(org), ExceptionSpans(st.exceptions, org), u, now);
    ExceptionAtIff(st.exceptions, org, Range(u, u + o.duration * MINUTE));
    assert Blocked(o, ExceptionSpans(st.exceptions, org), u)
      <==> Meets(Range(u, u + o.duration * MINUTE), ExceptionSpans(st.exceptions, org));
  }

  lemma KeyTakenIff(t: Table, id: nat, org: int, u: int)
    ensures KeyTaken(t, id, org, u) <==> StartTaken(t, id, org, u)
  {
  }

  /** A fresh booking of this start. */
  function Fresh(st: State, org: int, user: int, u: int): Booking
    requires org in st.orgs
  {
    Booking(org, user, u, u + st.orgs[org].duration * MINUTE, Active, None, None)
  }

  /** The state differs at most in the bookings and the next id. */
  predicate OnlyBookings(st: State, after: State) {
    after.orgs == st.orgs && after.grids == st.grids && after.exceptions == st.exceptions
  }

  /** What a create answers and stores: it succeeds exactly on an open start that no active booking has, and then adds
      one row; every failure says why and stores nothing. */
  lemma CreateIsExact(st: State, org: int, user: int, u: int, now: int)
    requires st.Valid()
    ensures var r := Create(st, org, user, u, now);
      && OnlyBookings(st, r.after)
      && (r.result == Err(NotFound) <==> org !in st.orgs)
      && (forall why :: r.result == Err(ValidationFailed(why)) <==>
                          org in st.orgs && RefusalOf(st, org, u, now) == Some(why))
      && (r.result == Err(Conflict) <==>
            org in st.orgs && Open(st, org, u, now) && StartTaken(st.bookings, st.nextId, org, u))
      && (r.result.Ok? <==>
            org in st.orgs && Open(st, org, u, now) && !StartTaken(st.bookings, st.nextId, org, u))
      && (r.result.Ok? ==>
            && r.result == Ok(st.nextId) && r.after.nextId == st.nextId + 1
            && r.after.bookings == st.bookings[st.nextId := Fresh(st, org, user, u)])
      && (r.result.Err? ==> r.after.bookings == st.bookings && r.result != Err(Forbidden))
  {
    if org in st.orgs {
      CheckIsRefusal(st, org, u, now);
      OpenIffNotRefused(st, org, u, now);
      KeyTakenIff(st.bookings, st.nextId, org, u);
    }
  }

  /** The organization has this booking. */
  predicate Stored(st: State, org: int, id: nat) { id in st.bookings && st.bookings[id].org == org }

  /** The organization has this booking, and it is active. */
  predicate StoredActive(st: State, org: int, id: nat) {
    Stored(st, org, id) && st.bookings[id].status == Active
  }

  /** Nothing but its status and the stamps differs. */
  predicate CancelledBy(was: Booking, row: Booking, now: int, actor: int) {
    && row.org == was.org && row.user == was.user && row.start == was.start && row.end == was.end
    && row.status == Cancelled && row.cancelledAt == Some(now) && row.cancelledBy == Some(actor)
  }

  /** All rows but this one are stored as they were. */
  predicate OtherRowsKept(t: Table, after: Table, id: nat) {
    forall i :: i in t && i != id ==> i in after && after[i] == t[i]
  }

  /** What a cancel answers and stores: it succeeds exactly for an active booking of the organization, by an
      administrator or by its owner before the start, and stamps that row; every failure changes nothing. */
  lemma CancelIsExact(st: State, org: int, actor: int, admin: bool, id: nat, now: int)
    ensures var r := Cancel(st, org, actor, admin, id, now);
      && (r.result == Err(NotFound) <==> !Stored(st, org, id))
      && (r.result == Err(Conflict) <==> Stored(st, org, id) && st.bookings[id].status == Cancelled)
      && (r.result == Err(Forbidden) <==>
            && StoredActive(st, org, id) && !admin
            && (st.bookings[id].user != actor || st.bookings[id].start <= now))
      && (r.result.Ok? <==>
            && StoredActive(st, org, id)
            && (admin || (st.bookings[id].user == actor && now < st.bookings[id].start)))
      && (r.result.Ok? ==>
            && r.result == Ok(id) && OnlyBookings(st, r.after) && r.after.nextId == st.nextId
            && r.after.bookings.Keys == st.bookings.Keys && OtherRowsKept(st.bookings, r.after.bookings, id)
            && CancelledBy(st.bookings[id], r.after.bookings[id], now, actor))
      && (r.result.Err? ==> r.after == st)
  {
  }

  /** What a reschedule answers and stores: it succeeds exactly for an active booking of the organization onto an open
      start that no other active booking has; it then cancels that row, adds one active row of the same user,
      and leaves all others; every failure says why and changes no row. */
  lemma RescheduleIsExact(st: State, org: int, actor: int, id: nat, u: int, now: int)
    requires st.Valid()
    ensures var r := Reschedule(st, org, actor, id, u, now);
      && OnlyBookings(st, r.after)
      && (r.result == Err(NotFound) <==> !Stored(st, org, id) || (StoredActive(st, org, id) && org !in st.orgs))
      && (forall why :: r.result == Err(ValidationFailed(why)) <==>
                          StoredActive(st, org, id) && org in st.orgs && RefusalOf(st, org, u, now) == Some(why))
      && (r.result == Err(Conflict) <==>
            || (Stored(st, org, id) && st.bookings[id].status == Cancelled)
            || (StoredActive(st, org, id) && org in st.orgs && Open(st, org, u, now)
                && StartTaken(st.bookings, id, org, u)))
      && (r.result.Ok? <==>
            && StoredActive(st, org, id) && org in st.orgs && Open(st, org, u, now)
            && !StartTaken(st.bookings, id, org, u))
      && (r.result.Ok? ==>
            && r.result == Ok(st.nextId) && r.after.nextId == st.nextId + 1
            && r.after.bookings.Keys == st.bookings.Keys + {st.nextId}
            && OtherRowsKept(st.bookings, r.after.bookings, id)
            && CancelledBy(st.bookings[id], r.after.bookings[id], now, actor)
            && r.after.bookings[st.nextId] == Fresh(st, org, st.bookings[id].user, u))
      && (r.result.Err? ==> r.after.bookings == st.bookings && r.result != Err(Forbidden))
  {
    if org in st.orgs {
      CheckIsRefusal(st, org, u, now);
      OpenIffNotRefused(st, org, u, now);
      KeyTakenIff(st.bookings, id, org, u);
    }
  }

  // ----- the listing -----

  /** The slot is on offer to users of the organization on some date of the range. */
  ghost predicate OnOffer(st: State, org: int, first: int, last: int, now: int, s: Range)
    requires org in st.orgs
  {
    var o, rules := st.orgs[org], if org in st.grids then st.grids[org] else [];
    && OfferedIn(o.zone, o.duration, rules, first, last, s) && now + o.minLead * MINUTE <= s.start
    && !BookingAt(st.bookings, org, s.start, s.end) && !ExceptionAt(st.exceptions, org, s.start, s.end)
  }

  /** What the query answers: for a known organization and an upright range no longer than its horizon, earliest first,
      exactly the slots on offer; otherwise the reason. */
  lemma QueryIsExact(st: State, org: int, first: int, last: int, now: int)
    requires st.Valid()
    ensures var r := Listing(st, org, first, last, now);
      && (r == Err(UnknownOrganization) <==> org !in st.orgs)
      && (r == Err(InvertedRange) <==> org in st.orgs && last < first)
      && (r == Err(RangeTooWide) <==> org in st.orgs && first <= last && st.orgs[org].horizonDays < last - first)
      && (r.Ok? <==> org in st.orgs && first <= last <= first + st.orgs[org].horizonDays)
      && (r.Ok? ==>
            && (forall i, j :: 0 <= i < j < |r.value| ==> r.value[i].start <= r.value[j].start)
            && (forall s :: s in r.value <==> OnOffer(st, org, first, last, now, s)))
  {
    var r := Listing(st, org, first, last, now);
    if r.Ok? {
      var o := st.orgs[org];
      EngineIsExact(o.zone, o.duration, st.Grid(org), ActiveSpans(st.bookings, st.nextId, org),
                    ExceptionSpans(st.exceptions, org), first, last, o.Threshold(now));
      forall s
        ensures s in r.value <==> OnOffer(st, org, first, last, now, s)
      {
        BookingAtIff(st, org, s);
        ExceptionAtIff(st.exceptions, org, s);
      }
    }
  }

  /** With an accepted grid nothing is listed twice, so that what is on offer determines the answer. */
  lemma QueryIsStrict(st: State, org: int, first: int, last: int, now: int)
    requires st.Valid() && Listing(st, org, first, last, now).Ok? && GridOk(st.Grid(org))
    ensures var out := Listing(st, org, first, last, now).value;
      forall i, j :: 0 <= i < j < |out| ==> out[i].start < out[j].start
  {
    var o := st.orgs[org];
    TruncationKeepsDisjoint(st.Grid(org));
    ListingIsStrict(o.zone, o.duration, st.Grid(org), ActiveSpans(st.bookings, st.nextId, org),
                    ExceptionSpans(st.exceptions, org), first, last, o.Threshold(now));
  }

  ghost predicate ListedOn(st: State, org: int, date: int, now: int, s: Range)
    requires st.Valid()
  {
    Listing(st, org, date, date, now).Ok? && s in Listing(st, org, date, date, now).value
  }

  /** A range lists what its dates list one by one. */
  lemma RangeIsItsDates(st: State, org: int, first: int, last: int, now: int, s: Range)
    requires st.Valid() && Listing(st, org, first, last, now).Ok?
    ensures s in Listing(st, org, first, last, now).value <==>
              exists date :: first <= date <= last && ListedOn(st, org, date, now, s)
  {
    QueryIsExact(st, org, first, last, now);
    if s in Listing(st, org, first, last, now).value {
      var o, rules := st.orgs[org], if org in st.grids then st.grids[org] else [];
      var rule, date, m :| rule in rules && first <= date <= last && Offers(o.zone, o.duration, rule, date, m, s);
      QueryIsExact(st, org, date, date, now);
      assert ListedOn(st, org, date, now, s);
    }
    if date :| first <= date <= last && ListedOn(st, org, date, now, s) {
      QueryIsExact(st, org, date, date, now);
    }
  }

  // ----- other organizations -----

  /** What is stored for this organization is the same: settings, grid, exceptions in any order, and bookings. */
  ghost predicate SameFor(st: State, st': State, org: int) {
    && (org in st.orgs <==> org in st'.orgs) && (org in st.orgs ==> st.orgs[org] == st'.orgs[org])
    && (org in st.grids <==> org in st'.grids) && (org in st.grids ==> st.grids[org] == st'.grids[org])
    && (forall e: ExceptionRow :: e.org == org ==> (e in st.exceptions <==> e in st'.exceptions))
    && (forall id :: Stored(st, org, id) <==> Stored(st', org, id))
    && (forall id :: Stored(st, org, id) ==> st.bookings[id] == st'.bookings[id])
  }

  lemma SameExceptions(st: State, st': State, org: int, start: int, end: int)
    requires SameFor(st, st', org)
    ensures ExceptionAt(st.exceptions, org, start, end) ==> ExceptionAt(st'.exceptions, org, start, end)
  {
    if i :| 0 <= i < |st.exceptions| && st.exceptions[i].org == org
            && st.exceptions[i].start < end && start < st.exceptions[i].end {
      assert st.exceptions[i] in st'.exceptions;
    }
  }

  lemma SameBookings(st: State, st': State, org: int, start: int, end: int, except: nat)
    requires SameFor(st, st', org)
    ensures BookingAt(st.bookings, org, start, end) ==> BookingAt(st'.bookings, org, start, end)
    ensures StartTaken(st.bookings, except, org, start) ==> StartTaken(st'.bookings, except, org, start)
  {
    if i :| i in st.bookings && st.bookings[i].status.Active? && st.bookings[i].org == org
            && st.bookings[i].start < end && start < st.bookings[i].end {
      assert Stored(st, org, i);
    }
    if i :| i in st.bookings && i != except && st.bookings[i].status.Active? && st.bookings[i].org == org
            && st.bookings[i].start == start {
      assert Stored(st, org, i);
    }
  }

  lemma SameRefusal(st: State, st': State, org: int, u: int, now: int)
    requires SameFor(st, st', org) && org in st.orgs
    ensures RefusalOf(st, org, u, now) == RefusalOf(st', org, u, now)
    ensures Open(st, org, u, now) <==> Open(st', org, u, now)
  {
    SameExceptions(st, st', org, u, u + st.orgs[org].duration * MINUTE);
    SameExceptions(st', st, org, u, u + st.orgs[org].duration * MINUTE);
  }

  /** Both succeed, or both fail for the same reason. */
  predicate SameAnswer<T, E(==)>(a: Result<T, E>, b: Result<T, E>) {
    (a.Ok? && b.Ok?) || (a.Err? && b.Err? && a.error == b.error)
  }

  lemma SameTaken(st: State, st': State, org: int, id: nat, u: int)
    requires st.Valid() && st'.Valid() && SameFor(st, st', org)
    ensures StartTaken(st.bookings, st.nextId, org, u) <==> StartTaken(st'.bookings, st'.nextId, org, u)
    ensures StartTaken(st.bookings, id, org, u) <==> StartTaken(st'.bookings, id, org, u)
  {
    SameBookings(st, st', org, u, u, id);
    SameBookings(st', st, org, u, u, id);
    SameBookings(st, st', org, u, u, st.nextId);
    SameBookings(st', st, org, u, u, st'.nextId);
  }

  /** What is stored for other organizations changes no answer to this one: no create, no reschedule. */
  lemma OthersDoNotMatter(st: State, st': State, org: int, user: int, id: nat, u: int, now: int)
    requires st.Valid() && st'.Valid() && SameFor(st, st', org)
    ensures SameAnswer(Create(st, org, user, u, now).result, Create(st', org, user, u, now).result)
    ensures SameAnswer(Reschedule(st, org, user, id, u, now).result, Reschedule(st', org, user, id, u, now).result)
  {
    CreateIsExact(st, org, user, u, now);
    CreateIsExact(st', org, user, u, now);
    RescheduleIsExact(st, org, user, id, u, now);
    RescheduleIsExact(st', org, user, id, u, now);
    assert Stored(st, org, id) <==> Stored(st', org, id);
    if org in st.orgs {
      SameRefusal(st, st', org, u, now);
    }
    SameTaken(st, st', org, id, u);
  }

  lemma SameBlockers(st: State, st': State, org: int, s: Range)
    requires st.Valid() && st'.Valid() && SameFor(st, st', org)
    ensures OverlapsAny(s, ActiveSpans(st.bookings, st.nextId, org))
       <==> OverlapsAny(s, ActiveSpans(st'.bookings, st'.nextId, org))
    ensures OverlapsAny(s, ExceptionSpans(st.exceptions, org)) <==> OverlapsAny(s, ExceptionSpans(st'.exceptions, org))
  {
    BookingAtIff(st, org, s);
    BookingAtIff(st', org, s);
    ExceptionAtIff(st.exceptions, org, s);
    ExceptionAtIff(st'.exceptions, org, s);
    SameBookings(st, st', org, s.start, s.end, 0);
    SameBookings(st', st, org, s.start, s.end, 0);
    SameExceptions(st, st', org, s.start, s.end);
    SameExceptions(st', st, org, s.start, s.end);
  }

  /** Nor does it change a listing. */
  lemma OthersAreNotListed(st: State, st': State, org: int, first: int, last: int, now: int)
    requires st.Valid() && st'.Valid() && SameFor(st, st', org)
    ensures Listing(st, org, first, last, now) == Listing(st', org, first, last, now)
  {
    if Listing(st, org, first, last, now).Ok? {
      var o := st.orgs[org];
      forall s
        ensures OverlapsAny(s, ActiveSpans(st.bookings, st.nextId, org))
           <==> OverlapsAny(s, ActiveSpans(st'.bookings, st'.nextId, org))
        ensures OverlapsAny(s, ExceptionSpans(st.exceptions, org))
           <==> OverlapsAny(s, ExceptionSpans(st'.exceptions, org))
      {
        SameBlockers(st, st', org, s);
      }
      KeepFreeAgrees(GridSlots(o.zone, o.duration, st.Grid(org), first, last), o.Threshold(now),
                     ActiveSpans(st.bookings, st.nextId, org), ActiveSpans(st'.bookings, st'.nextId, org),
                     ExceptionSpans(st.exceptions, org), ExceptionSpans(st'.exceptions, org));
    }
  }

  /** In particular an exception stored for another organization changes nothing for this one. */
  lemma OtherExceptionIsIgnored(st: State, org: int, row: ExceptionRow, user: int, id: nat, u: int,
                                first: int, last: int, now: int)
    requires st.Valid() && row.org != org
    ensures var st' := st.(exceptions := st.exceptions + [row]);
      && st'.Valid() && Listing(st, org, first, last, now) == Listing(st', org, first, last, now)
      && SameAnswer(Create(st, org, user, u, now).result, Create(st', org, user, u, now).result)
      && SameAnswer(Reschedule(st, org, user, id, u, now).result, Reschedule(st', org, user, id, u, now).result)
  {
    var st' := st.(exceptions := st.exceptions + [row]);
    assert SameFor(st, st', org);
    OthersDoNotMatter(st, st', org, user, id, u, now);
    OthersAreNotListed(st, st', org, first, last, now);
  }

  lemma OneMoreException(rows: seq<ExceptionRow>, row: ExceptionRow, org: int, start: int, end: int)
    requires row.org == org
    ensures ExceptionAt(rows + [row], org, start, end)
       <==> ExceptionAt(rows, org, start, end) || (row.start < end && start < row.end)
  {
    var all := rows + [row];
    assert all[|rows|] == row;
    if i :| 0 <= i < |rows| && rows[i].org == org && rows[i].start < end && start < rows[i].end {
      assert all[i] == rows[i];
    }
  }

  /** And one of its own takes away exactly the starts it is in the way of. */
  lemma OwnExceptionBlocks(st: State, org: int, row: ExceptionRow, user: int, u: int, now: int)
    requires st.Valid() && row.org == org && org in st.orgs && Create(st, org, user, u, now).result.Ok?
    ensures var st' := st.(exceptions := st.exceptions + [row]);
      && st'.Valid()
      && Create(st', org, user, u, now).result
           == if row.start < u + st.orgs[org].duration * MINUTE && u < row.end
              then Err(ValidationFailed(OverlapsException)) else Create(st, org, user, u, now).result
  {
    var st' := st.(exceptions := st.exceptions + [row]);
    var end := u + st.orgs[org].duration * MINUTE;
    CreateIsExact(st, org, user, u, now);
    CreateIsExact(st', org, user, u, now);
    OneMoreException(st.exceptions, row, org, u, end);
    OpenIffNotRefused(st, org, u, now);
    OpenIffNotRefused(st', org, u, now);
    assert RefusalOf(st', org, u, now) == if row.start < end && u < row.end then Some(OverlapsException) else None;
  }
}
