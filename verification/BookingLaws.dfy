/** What bookings and listings keep over single calls and over whole runs of atomic calls. */
module BookingLaws {
  import opened Availability
  import opened Bookings
  import opened Clock
  import opened ListingLaws
  import opened Slots
  import opened SlotLaws
  import opened Validation
  import opened Wrappers

  // ----- runs -----

  datatype Event =
    | Creating(org: int, user: int, start: int, now: int)
    | Cancelling(org: int, actor: int, admin: bool, id: nat, now: int)
    | Rescheduling(org: int, actor: int, id: nat, start: int, now: int)
    | EditingExceptions(rows: seq<ExceptionRow>)

  ghost function Step(st: State, e: Event): (next: State)
    requires st.Valid()
    ensures next.Valid()
  {
    match e
    case Creating(org, user, start, now) =>
      CreateKeepsValid(st, org, user, start, now);
      Create(st, org, user, start, now).after
    case Cancelling(org, actor, admin, id, now) =>
      CancelKeepsValid(st, org, actor, admin, id, now);
      Cancel(st, org, actor, admin, id, now).after
    case Rescheduling(org, actor, id, start, now) =>
      RescheduleKeepsValid(st, org, actor, id, start, now);
      Reschedule(st, org, actor, id, start, now).after
    case EditingExceptions(rows) =>
      st.(exceptions := rows)
  }

  ghost function Run(st: State, es: seq<Event>): (end: State)
    requires st.Valid()
    ensures end.Valid()
    decreases |es|
  {
    if es == [] then st else Run(Step(st, es[0]), es[1..])
  }

  /** What may become of a stored row: nothing, or, if it is active, its cancellation. */
  ghost predicate Evolves(before: Booking, after: Booking) {
    || after == before
    || (before.status.Active? && exists now, actor :: after == before.Cancel(now, actor))
  }

  lemma CancelKeepsRow(st: State, org: int, actor: int, admin: bool, i: nat, now: int, id: nat)
    requires id in st.bookings
    ensures var t := Cancel(st, org, actor, admin, i, now).after.bookings; id in t && Evolves(st.bookings[id], t[id])
  {
  }

  lemma RescheduleKeepsRow(st: State, org: int, actor: int, i: nat, start: int, now: int, id: nat)
    requires st.Valid() && id in st.bookings
    ensures var t := Reschedule(st, org, actor, i, start, now).after.bookings;
      id in t && Evolves(st.bookings[id], t[id])
  {
  }

  lemma StepKeepsRows(st: State, e: Event, id: nat)
    requires st.Valid() && id in st.bookings
    ensures var next := Step(st, e); id in next.bookings && Evolves(st.bookings[id], next.bookings[id])
  {
    match e
    case Creating(org, user, start, now) => assert Step(st, e).bookings[id] == st.bookings[id];
    case Cancelling(org, actor, admin, i, now) => CancelKeepsRow(st, org, actor, admin, i, now, id);
    case Rescheduling(org, actor, i, start, now) => RescheduleKeepsRow(st, org, actor, i, start, now, id);
    case EditingExceptions(_) =>
  }

  /** Over any run a row never disappears, an active row can only be cancelled, and a cancelled row is
      never touched again. */
  lemma {:induction false} RunKeepsRows(st: State, es: seq<Event>, id: nat)
    requires st.Valid() && id in st.bookings
    ensures var end := Run(st, es); id in end.bookings && Evolves(st.bookings[id], end.bookings[id])
    decreases |es|
  {
    if es != [] {
      StepKeepsRows(st, es[0], id);
      RunKeepsRows(Step(st, es[0]), es[1..], id);
    }
  }

  // ----- double booking -----

  ghost predicate TameRequest(e: Event, o: int, org: Organization, clocks: Clocks) {
    (e.Creating? || e.Rescheduling?) && e.org == o ==> TameStart(org, e.start, clocks)
  }

  /** The row occupies a slot that a tame request was granted. */
  ghost predicate PlacedOnGrid(b: Booking, org: Organization, rules: seq<GridRule>, clocks: Clocks)
    requires org.Valid()
  {
    TameStart(org, b.start, clocks) && b.Span() == org.SlotFrom(b.start) && FitsByEnd(org, rules, b.start)
  }

  ghost predicate RowsOnGrid(rows: Table, o: int, org: Organization, rules: seq<GridRule>, clocks: Clocks)
    requires org.Valid()
  {
    forall id :: id in rows && rows[id].Holds(o) ==> PlacedOnGrid(rows[id], org, rules, clocks)
  }

  /** Every active row of o was placed on the grid by a tame request. */
  ghost predicate OnGrid(st: State, o: int, org: Organization, rules: seq<GridRule>, clocks: Clocks)
    requires org.Valid()
  {
    o in st.orgs && st.orgs[o] == org && st.Grid(o) == rules && RowsOnGrid(st.bookings, o, org, rules, clocks)
  }

  /** The row was written for this start, of the organization's slot length, and passed the grid check. */
  ghost predicate CheckedRow(st: State, row: Booking, org: int, start: int)
    requires st.Valid() && org in st.orgs
  {
    && row.org == org && row.start == start && row.Span() == st.orgs[org].SlotFrom(start)
    && FitsByEnd(st.orgs[org], st.Grid(org), start)
  }

  lemma CreatedRowIsChecked(st: State, org: int, user: int, start: int, now: int)
    requires st.Valid() && Create(st, org, user, start, now).result.Ok?
    ensures org in st.orgs && CheckedRow(st, Create(st, org, user, start, now).after.bookings[st.nextId], org, start)
  {
    AcceptedIffFitsByEnd(st.orgs[org], st.Grid(org), ExceptionSpans(st.exceptions, org), start, now);
  }

  lemma MovedRowIsChecked(st: State, org: int, actor: int, id: nat, start: int, now: int)
    requires st.Valid() && Reschedule(st, org, actor, id, start, now).result.Ok?
    ensures org in st.orgs
    ensures CheckedRow(st, Reschedule(st, org, actor, id, start, now).after.bookings[st.nextId], org, start)
  {
    AcceptedIffFitsByEnd(st.orgs[org], st.Grid(org), ExceptionSpans(st.exceptions, org), start, now);
  }

  lemma NewRowIsChecked(st: State, e: Event, i: nat)
    requires st.Valid() && i in Step(st, e).bookings && i !in st.bookings
    ensures e.Creating? || e.Rescheduling?
    ensures e.org in st.orgs && CheckedRow(st, Step(st, e).bookings[i], e.org, e.start)
  {
    match e
    case Creating(org, user, start, now) => CreatedRowIsChecked(st, org, user, start, now);
    case Rescheduling(org, actor, id, start, now) => MovedRowIsChecked(st, org, actor, id, start, now);
    case _ =>
  }

  lemma StepKeepsOnGrid(st: State, e: Event, o: int, org: Organization, rules: seq<GridRule>, clocks: Clocks)
    requires st.Valid() && org.Valid() && OnGrid(st, o, org, rules, clocks) && TameRequest(e, o, org, clocks)
    ensures OnGrid(Step(st, e), o, org, rules, clocks)
  {
    var next := Step(st, e);
    forall i | i in next.bookings && next.bookings[i].Holds(o)
      ensures PlacedOnGrid(next.bookings[i], org, rules, clocks)
    {
      if i in st.bookings {
        StepKeepsRows(st, e, i);
        assert PlacedOnGrid(st.bookings[i], org, rules, clocks);
      } else {
        NewRowIsChecked(st, e, i);
      }
    }
  }

  lemma {:induction false} RunKeepsOnGrid(st: State, es: seq<Event>, o: int, org: Organization,
                                          rules: seq<GridRule>, clocks: Clocks)
    requires st.Valid() && org.Valid() && OnGrid(st, o, org, rules, clocks)
    requires forall e :: e in es ==> TameRequest(e, o, org, clocks)
    ensures OnGrid(Run(st, es), o, org, rules, clocks)
    decreases |es|
  {
    if es != [] {
      StepKeepsOnGrid(st, es[0], o, org, rules, clocks);
      RunKeepsOnGrid(Step(st, es[0]), es[1..], o, org, rules, clocks);
    }
  }

  lemma PlacedApart(rows: Table, o: int, org: Organization, rules: seq<GridRule>, clocks: Clocks, i: nat, j: nat)
    requires org.Valid() && RowsOnGrid(rows, o, org, rules, clocks) && RulesDisjoint(rules) && IndexHolds(rows)
    requires i in rows && j in rows && i != j && rows[i].Holds(o) && rows[j].Holds(o)
    requires clocks.WithoutJumps? || clocks.Under?
    ensures !RangesOverlap(rows[i].Span(), rows[j].Span())
  {
    var a, b := rows[i], rows[j];
    assert PlacedOnGrid(a, org, rules, clocks) && PlacedOnGrid(b, org, rules, clocks);
    assert !b.HoldsKey(o, a.start);
    if a.start < b.start {
      AcceptedStartsApart(org, rules, a.start, b.start, clocks);
    } else {
      AcceptedStartsApart(org, rules, b.start, a.start, clocks);
    }
  }

  /** From no bookings of the organization, whatever the run and its requests: every active booking occupies one slot
      length from its start, with room by its wall-clock end, and no two start together. */
  lemma RunPlacesBookings(st: State, es: seq<Event>, o: int, clocks: Clocks)
    requires st.Valid() && o in st.orgs && (forall k :: k in st.bookings ==> !st.bookings[k].Holds(o))
    requires forall e :: e in es ==> TameRequest(e, o, st.orgs[o], clocks)
    ensures RowsOnGrid(Run(st, es).bookings, o, st.orgs[o], st.Grid(o), clocks)
    ensures IndexHolds(Run(st, es).bookings)
  {
    RunKeepsOnGrid(st, es, o, st.orgs[o], st.Grid(o), clocks);
  }

  /** No double booking, whatever the zone. A run from no bookings, with an accepted grid, keeps the active bookings of
      the organization pairwise disjoint in time when its requested starts are plain and clocks do not jump
      forward inside their slots, whatever changes of offset lie between the slots, and also when they are
      plain and all under one offset. */
  lemma NoDoubleBooking(st: State, es: seq<Event>, o: int, clocks: Clocks, i: nat, j: nat)
    requires st.Valid() && o in st.orgs && GridOk(st.Grid(o)) && (clocks.WithoutJumps? || clocks.Under?)
    requires forall k :: k in st.bookings ==> !st.bookings[k].Holds(o)
    requires forall e :: e in es ==> TameRequest(e, o, st.orgs[o], clocks)
    requires var end := Run(st, es).bookings; i in end && j in end && i != j && end[i].Holds(o) && end[j].Holds(o)
    ensures var end := Run(st, es).bookings; !RangesOverlap(end[i].Span(), end[j].Span())
  {
    var org, rules := st.orgs[o], st.Grid(o);
    TruncationKeepsDisjoint(rules);
    RunKeepsOnGrid(st, es, o, org, rules, clocks);
    PlacedApart(Run(st, es).bookings, o, org, rules, clocks, i, j);
  }

  /** In a zone of one whole-minute offset every whole-minute start is tame. */
  lemma FixedZoneStartsAreTame(org: Organization, u: int)
    requires org.Valid() && org.zone.transitions == [] && WholeMinute(org.zone.base) && WholeMinute(u)
    ensures TameStart(org, u, Under(org.zone.base)) && TameStart(org, u, WithoutJumps) && Steady(org, u)
  {
  }

  /** In particular in a zone of one whole-minute offset, when all requested starts are whole minutes. */
  lemma NoDoubleBookingInFixedZone(st: State, es: seq<Event>, o: int, i: nat, j: nat)
    requires st.Valid() && o in st.orgs && GridOk(st.Grid(o))
    requires st.orgs[o].zone.transitions == [] && WholeMinute(st.orgs[o].zone.base)
    requires forall k :: k in st.bookings ==> !st.bookings[k].Holds(o)
    requires forall e :: e in es && (e.Creating? || e.Rescheduling?) && e.org == o ==> WholeMinute(e.start)
    requires var end := Run(st, es).bookings; i in end && j in end && i != j && end[i].Holds(o) && end[j].Holds(o)
    ensures var end := Run(st, es).bookings; !RangesOverlap(end[i].Span(), end[j].Span())
  {
    var org := st.orgs[o];
    assert org.Valid();
    forall e | e in es
      ensures TameRequest(e, o, org, Under(org.zone.base))
    {
      if (e.Creating? || e.Rescheduling?) && e.org == o {
        FixedZoneStartsAreTame(org, e.start);
      }
    }
    NoDoubleBooking(st, es, o, Under(org.zone.base), i, j);
  }

  // ----- rescheduling -----

  ghost function ActiveIds(t: Table, org: int, user: int): set<nat> {
    set i | i in t && t[i].Holds(org) && t[i].user == user
  }

  /** The table after a reschedule has cancelled row id and added a row. */
  ghost function Moved(t: Table, id: nat, actor: int, now: int, n: nat, row: Booking): Table
    requires id in t
  {
    t[id := t[id].Cancel(now, actor)][n := row]
  }

  /** Moving an active row keeps every user's count; moving a cancelled one adds to its own user's. */
  lemma CountMove(t: Table, id: nat, actor: int, now: int, n: nat, row: Booking, o: int, user: int)
    requires id in t && n !in t && row.status.Active? && row.org == t[id].org && row.user == t[id].user
    ensures |ActiveIds(Moved(t, id, actor, now, n, row), o, user)|
         == |ActiveIds(t, o, user)| + if t[id].status.Cancelled? && row.org == o && row.user == user then 1 else 0
  {
    var before, after := ActiveIds(t, o, user), ActiveIds(Moved(t, id, actor, now, n, row), o, user);
    if row.org == o && row.user == user {
      assert after == before - {id} + {n};
    } else {
      assert after == before;
    }
  }

  /** Rescheduling is all or nothing, and conserves the number of active bookings of every user. */
  lemma RescheduleConserves(st: State, org: int, actor: int, id: nat, u: int, now: int, o: int, user: int)
    requires st.Valid()
    ensures var r := Reschedule(st, org, actor, id, u, now);
      && (r.result.Err? ==> r.after.bookings == st.bookings)
      && |ActiveIds(r.after.bookings, o, user)| == |ActiveIds(st.bookings, o, user)|
  {
    var r := Reschedule(st, org, actor, id, u, now);
    if r.result.Ok? {
      var row := r.after.bookings[st.nextId];
      assert r.after.bookings == Moved(st.bookings, id, actor, now, st.nextId, row);
      CountMove(st.bookings, id, actor, now, st.nextId, row, o, user);
    }
  }

  /** Moving a booking onto its own start never conflicts: it succeeds whenever the checks pass. */
  lemma RescheduleInPlace(st: State, org: int, actor: int, id: nat, now: int)
    requires st.Valid() && org in st.orgs && InOrg(st.bookings, id, org) && st.bookings[id].status.Active?
    ensures var u := st.bookings[id].start;
      Reschedule(st, org, actor, id, u, now).result.Ok? <==> Check(st, org, u, now).None?
  {
  }

  // ----- the listing reacts to bookings as a filter, and to their cancellation as its undoing -----

  /** Row i counts for the organization in both tables, with the same span, or in neither. */
  ghost predicate SameHolder(t: Table, t': Table, i: nat, org: int) {
    && ((i in t && t[i].Holds(org)) <==> (i in t' && t'[i].Holds(org)))
    && (i in t && t[i].Holds(org) ==> t'[i].Span() == t[i].Span())
  }

  lemma {:induction false} ActiveSpansFrame(t: Table, t': Table, n: nat, org: int)
    requires forall i: nat :: i < n ==> SameHolder(t, t', i, org)
    ensures ActiveSpans(t', n, org) == ActiveSpans(t, n, org)
    decreases n
  {
    if n > 0 {
      assert SameHolder(t, t', n - 1, org);
      ActiveSpansFrame(t, t', n - 1, org);
    }
  }

  lemma CreateSpans(st: State, org: int, user: int, u: int, now: int, o: int)
    requires st.Valid() && Create(st, org, user, u, now).result.Ok?
    ensures org in st.orgs
    ensures var after := Create(st, org, user, u, now).after;
      ActiveSpans(after.bookings, after.nextId, o)
        == ActiveSpans(st.bookings, st.nextId, o) + if o == org then [st.orgs[org].SlotFrom(u)] else []
  {
    ActiveSpansFrame(st.bookings, Create(st, org, user, u, now).after.bookings, st.nextId, o);
  }

  lemma DeadRowAddsNothing(t: Table, t': Table, n: nat, org: int)
    requires (forall i: nat :: i < n ==> SameHolder(t, t', i, org)) && n in t' && t'[n].status.Cancelled?
    ensures ActiveSpans(t', n + 1, org) == ActiveSpans(t, n, org)
  {
    ActiveSpansFrame(t, t', n, org);
    assert ActiveSpans(t', n, org) + [] == ActiveSpans(t', n, org);
  }

  lemma CancelSpans(st: State, org: int, user: int, u: int, now: int, actor: int, admin: bool, later: int, o: int)
    requires st.Valid() && Create(st, org, user, u, now).result.Ok?
    requires Cancel(Create(st, org, user, u, now).after, org, actor, admin, st.nextId, later).result.Ok?
    ensures var end := Cancel(Create(st, org, user, u, now).after, org, actor, admin, st.nextId, later).after;
      ActiveSpans(end.bookings, end.nextId, o) == ActiveSpans(st.bookings, st.nextId, o)
  {
    var end := Cancel(Create(st, org, user, u, now).after, org, actor, admin, st.nextId, later).after;
    DeadRowAddsNothing(st.bookings, end.bookings, st.nextId, o);
  }

  /** Two states whose listings may differ only through the active spans of the organization. */
  ghost predicate SameSetting(st: State, st': State) {
    st'.orgs == st.orgs && st'.grids == st.grids && st'.exceptions == st.exceptions
  }

  lemma SpansFilterListing(st: State, st': State, o: int, slot: Range, added: bool, first: int, last: int, at: int)
    requires st.Valid() && st'.Valid() && SameSetting(st, st')
    requires ActiveSpans(st'.bookings, st'.nextId, o)
          == ActiveSpans(st.bookings, st.nextId, o) + if added then [slot] else []
    ensures var old', new' := Listing(st, o, first, last, at), Listing(st', o, first, last, at);
      if added && old'.Ok? then new' == Ok(Without(old'.value, [slot])) else new' == old'
  {
    var before := ActiveSpans(st.bookings, st.nextId, o);
    assert before + [] == before;
    if added && Listing(st, o, first, last, at).Ok? {
      var org := st.orgs[o];
      MoreBookingsFilter(org.zone, org.duration, st.Grid(o), before, [slot],
                         ExceptionSpans(st.exceptions, o), first, last, org.Threshold(at));
    }
  }

  /** After a successful create, the organization's listing is the old one minus precisely the slots that
      overlap the new booking, and every other organization's listing is unchanged. */
  lemma CreateFilters(st: State, org: int, user: int, u: int, now: int, o: int, first: int, last: int, at: int)
    requires st.Valid() && Create(st, org, user, u, now).result.Ok?
    ensures Create(st, org, user, u, now).after.Valid() && org in st.orgs
    ensures var old', new' := Listing(st, o, first, last, at),
                              Listing(Create(st, org, user, u, now).after, o, first, last, at);
      if o == org && old'.Ok? then new' == Ok(Without(old'.value, [st.orgs[org].SlotFrom(u)])) else new' == old'
  {
    CreateKeepsValid(st, org, user, u, now);
    CreateSpans(st, org, user, u, now, o);
    SpansFilterListing(st, Create(st, org, user, u, now).after, o, st.orgs[org].SlotFrom(u), o == org, first, last, at);
  }

  lemma NewBookingCanBeCancelled(st: State, org: int, user: int, u: int, now: int, actor: int, admin: bool, later: int)
    requires st.Valid() && Create(st, org, user, u, now).result.Ok?
    ensures Cancel(Create(st, org, user, u, now).after, org, actor, admin, st.nextId, later).result.Ok?
       <==> admin || (actor == user && later < u)
  {
  }

  /** A new booking can be cancelled exactly by an administrator, or by its owner before it starts, and cancelling it
      restores every listing. */
  lemma CancelUndoesCreate(st: State, org: int, user: int, u: int, now: int, actor: int, admin: bool, later: int,
                           o: int, first: int, last: int, at: int)
    requires st.Valid() && Create(st, org, user, u, now).result.Ok?
    ensures var cancel := Cancel(Create(st, org, user, u, now).after, org, actor, admin, st.nextId, later);
      && (cancel.result.Ok? <==> admin || (actor == user && later < u)) && cancel.after.Valid()
      && (cancel.result.Ok? ==> Listing(cancel.after, o, first, last, at) == Listing(st, o, first, last, at))
  {
    CreateKeepsValid(st, org, user, u, now);
    CancelKeepsValid(Create(st, org, user, u, now).after, org, actor, admin, st.nextId, later);
    NewBookingCanBeCancelled(st, org, user, u, now, actor, admin, later);
    if admin || (actor == user && later < u) {
      CancelSpans(st, org, user, u, now, actor, admin, later, o);
    }
  }

  /** A row that stops counting leaves the spans before it and after it as they were. */
  lemma {:induction false} ReleasedSpan(t: Table, t': Table, n: nat, id: nat, org: int)
    returns (before: seq<Range>, behind: seq<Range>)
    requires id < n && id in t && t[id].Holds(org)
    requires !(id in t' && t'[id].Holds(org)) && forall i: nat :: i != id ==> SameHolder(t, t', i, org)
    ensures ActiveSpans(t, n, org) == before + [t[id].Span()] + behind
    ensures ActiveSpans(t', n, org) == before + behind
    decreases n
  {
    if n - 1 == id {
      ActiveSpansFrame(t, t', n - 1, org);
      before, behind := ActiveSpans(t, n - 1, org), [];
    } else {
      assert SameHolder(t, t', n - 1, org);
      var rest;
      before, rest := ReleasedSpan(t, t', n - 1, id, org);
      behind := rest + if n - 1 in t && t[n - 1].Holds(org) then [t[n - 1].Span()] else [];
    }
  }

  lemma ReleasedListing(st: State, st': State, org: int, span: Range, before: seq<Range>, behind: seq<Range>,
                        first: int, last: int, at: int)
    requires st.Valid() && st'.Valid() && SameSetting(st, st')
    requires ActiveSpans(st.bookings, st.nextId, org) == before + [span] + behind
    requires ActiveSpans(st'.bookings, st'.nextId, org) == before + behind
    ensures var old', new' := Listing(st, org, first, last, at), Listing(st', org, first, last, at);
      if new'.Ok? then old' == Ok(Without(new'.value, [span])) else old' == new'
  {
    if Listing(st', org, first, last, at).Ok? {
      var o, rules := st.orgs[org], st.Grid(org);
      var spans, blocked := before + behind, ExceptionSpans(st.exceptions, org);
      assert multiset(before + [span] + behind) == multiset(spans + [span]);
      OrderIsIrrelevant(o.zone, o.duration, first, last, o.Threshold(at), rules, rules,
                        before + [span] + behind, spans + [span], blocked, blocked);
      MoreBookingsFilter(o.zone, o.duration, rules, spans, [span], blocked, first, last, o.Threshold(at));
    }
  }

  /** Cancelling any booking gives its time back: the listing before is the listing after minus precisely the
      slots that overlap the cancelled booking. */
  lemma CancelReleases(st: State, org: int, actor: int, admin: bool, id: nat, now: int, first: int, last: int, at: int)
    requires st.Valid() && Cancel(st, org, actor, admin, id, now).result.Ok?
    ensures Cancel(st, org, actor, admin, id, now).after.Valid() && id in st.bookings
    ensures var old', new' := Listing(st, org, first, last, at),
                              Listing(Cancel(st, org, actor, admin, id, now).after, org, first, last, at);
      if new'.Ok? then old' == Ok(Without(new'.value, [st.bookings[id].Span()])) else old' == new'
  {
    var after := Cancel(st, org, actor, admin, id, now).after;
    CancelKeepsValid(st, org, actor, admin, id, now);
    var before, behind := ReleasedSpan(st.bookings, after.bookings, st.nextId, id, org);
    ReleasedListing(st, after, org, st.bookings[id].Span(), before, behind, first, last, at);
  }

  lemma AddedSpan(t: Table, t': Table, n: nat, org: int)
    requires n in t' && t' == t[n := t'[n]] && t'[n].Holds(org)
    ensures ActiveSpans(t', n + 1, org) == ActiveSpans(t, n, org) + [t'[n].Span()]
  {
    ActiveSpansFrame(t, t', n, org);
  }

  /** A reschedule changes the listing as the cancellation of the old booking followed by the creation of the
      new one. */
  lemma RescheduleMoves(st: State, org: int, actor: int, id: nat, u: int, now: int, first: int, last: int, at: int)
    requires st.Valid() && Reschedule(st, org, actor, id, u, now).result.Ok?
    ensures Reschedule(st, org, actor, id, u, now).after.Valid() && org in st.orgs
    ensures Cancel(st, org, actor, true, id, now).after.Valid()
    ensures var lifted, new' := Listing(Cancel(st, org, actor, true, id, now).after, org, first, last, at),
                                Listing(Reschedule(st, org, actor, id, u, now).after, org, first, last, at);
      if lifted.Ok? then new' == Ok(Without(lifted.value, [st.orgs[org].SlotFrom(u)])) else new' == lifted
  {
    var lifted, after := Cancel(st, org, actor, true, id, now).after, Reschedule(st, org, actor, id, u, now).after;
    CancelKeepsValid(st, org, actor, true, id, now);
    RescheduleKeepsValid(st, org, actor, id, u, now);
    assert after.bookings == lifted.bookings[st.nextId := after.bookings[st.nextId]];
    AddedSpan(lifted.bookings, after.bookings, st.nextId, org);
    SpansFilterListing(lifted, after, org, st.orgs[org].SlotFrom(u), true, first, last, at);
  }

  // ----- listing and booking agree -----

  lemma FreeKeyIfNoOverlap(st: State, org: int, u: int)
    requires st.Valid() && org in st.orgs
    requires !OverlapsAny(st.orgs[org].SlotFrom(u), ActiveSpans(st.bookings, st.nextId, org))
    ensures !KeyTaken(st.bookings, st.nextId, org, u)
  {
    if j :| j in st.bookings && j != st.nextId && st.bookings[j].HoldsKey(org, u) {
      ActiveSpansMembers(st.bookings, st.nextId, org, st.bookings[j].Span());
      assert RangesOverlap(st.orgs[org].SlotFrom(u), st.bookings[j].Span());
    }
  }

  /** A listed slot can be booked as listed exactly when it starts within the horizon, which the listing does not
      check, and has room by its wall-clock end; the insert cannot hit the unique index. */
  lemma ListedIsBookable(st: State, org: int, user: int, first: int, last: int, now: int, s: Range)
    requires st.Valid() && Listing(st, org, first, last, now).Ok? && s in Listing(st, org, first, last, now).value
    ensures var o, r := st.orgs[org], Create(st, org, user, s.start, now);
      && (r.result.Ok? <==> s.start <= o.Horizon(now) && FitsByEnd(o, st.Grid(org), s.start))
      && (r.result.Ok? ==>
            r.result == Ok(st.nextId) && r.after.bookings == st.bookings[st.nextId := NewBooking(org, user, s)])
      && (r.result.Err? ==> r.result != Err(Conflict) && r.after == st)
      && (Steady(o, s.start) ==> FitsByEnd(o, st.Grid(org), s.start))
  {
    var o := st.orgs[org];
    var spans, blocked := ActiveSpans(st.bookings, st.nextId, org), ExceptionSpans(st.exceptions, org);
    ListedAcceptedIff(o, st.Grid(org), spans, blocked, first, last, s, now);
    FreeKeyIfNoOverlap(st, org, s.start);
    if Steady(o, s.start) {
      SteadyFitsAlike(o, st.Grid(org), s.start);
    }
  }

  /** When booking and listing agree, exactly. For a start within the horizon that overlaps no active booking: being
      bookable as a whole minute on the first pass and being listed for its local date come to the same if
      and only if it is no candidate anyway or its two kinds of room coincide, as they do for a slot that
      ends under the offset it starts under. */
  lemma BookableIffListed(st: State, org: int, user: int, u: int, now: int)
    requires st.Valid() && org in st.orgs && 0 <= st.orgs[org].horizonDays && u <= st.orgs[org].Horizon(now)
    requires !OverlapsAny(st.orgs[org].SlotFrom(u), ActiveSpans(st.bookings, st.nextId, org))
    ensures var o, rules := st.orgs[org], st.Grid(org);
      var date := DateOf(o.zone.Wall(u));
      && ((Create(st, org, user, u, now).result.Ok? && WholeMinute(o.zone.Wall(u)) && !o.zone.Fold(u) <==>
             Listed(Listing(st, org, date, date, now).value, u))
          <==> (Candidate(o, ExceptionSpans(st.exceptions, org), u, now) ==>
                  (FitsByLength(o, rules, u) <==> FitsByEnd(o, rules, u))))
      && (Steady(o, u) ==> (FitsByLength(o, rules, u) <==> FitsByEnd(o, rules, u)))
  {
    var o, rules := st.orgs[org], st.Grid(org);
    var date := DateOf(o.zone.Wall(u));
    FreeKeyIfNoOverlap(st, org, u);
    AgreementIsExact(o, rules, ActiveSpans(st.bookings, st.nextId, org), ExceptionSpans(st.exceptions, org),
                     date, date, u, now);
    if Steady(o, u) {
      SteadyFitsAlike(o, rules, u);
    }
  }
}
