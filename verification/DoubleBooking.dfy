/** Which organizations can be double-booked by plain requests, exactly: over runs of atomic calls and over
    interleaved transactions. */
module DoubleBooking {
  import opened Availability
  import opened BookingLaws
  import opened Bookings
  import opened Clock
  import opened Conservation
  import opened Interleaving
  import opened Jumps
  import opened Pinches
  import opened Races
  import opened Slots
  import opened SlotLaws
  import opened Validation
  import opened Wrappers

  /** No two active bookings of the organization overlap in time. */
  ghost predicate BookedApart(t: Table, o: int) {
    forall i, j :: i in t && j in t && i != j && t[i].Holds(o) && t[j].Holds(o) ==>
      !RangesOverlap(t[i].Span(), t[j].Span())
  }

  /** An organization as the theorems take it: an accepted grid, transitions more than a slot apart, and a window
      between lead and horizon in which anything can be booked at all. */
  ghost predicate Ordinary(org: Organization, rules: seq<GridRule>) {
    && org.Valid() && GridOk(rules) && Spaced(org.zone, Length(org)) && org.Threshold(0) <= org.Horizon(0)
  }

  lemma PlacedBookedApart(t: Table, o: int, org: Organization, rules: seq<GridRule>)
    requires org.Valid() && RowsOnGrid(t, o, org, rules, Plain) && IndexHolds(t)
    requires AllClear(AcceptedStarts(org, rules), Length(org))
    ensures BookedApart(t, o)
  {
    forall i, j | i in t && j in t && i != j && t[i].Holds(o) && t[j].Holds(o)
      ensures !RangesOverlap(t[i].Span(), t[j].Span())
    {
      assert PlacedOnGrid(t[i], org, rules, Plain) && PlacedOnGrid(t[j], org, rules, Plain);
      assert t[i].start in AcceptedStarts(org, rules) && t[j].start in AcceptedStarts(org, rules);
      assert !t[j].HoldsKey(o, t[i].start);
    }
  }

  // ----- runs of atomic calls -----

  ghost predicate PlainRun(es: seq<Event>, o: int, org: Organization) {
    forall e :: e in es ==> TameRequest(e, o, org, Plain)
  }

  /** No run of calls with plain requests, and of exception edits, double-books the organization. */
  ghost predicate NeverDoubleBooks(st: State, o: int)
    requires st.Valid() && o in st.orgs
  {
    forall es :: PlainRun(es, o, st.orgs[o]) ==> BookedApart(Run(st, es).bookings, o)
  }

  /** The moment from which the booking window begins with u. */
  function AsSoonAsPossible(org: Organization, u: int): int { u - org.minLead * MINUTE }

  /** The tables after the organization's start u has been booked. */
  function Booked(st: State, o: int, u: int): State
    requires o in st.orgs
  {
    st.(nextId := st.nextId + 1, bookings := st.bookings[st.nextId := NewBooking(o, 0, st.orgs[o].SlotFrom(u))])
  }

  function CreatingAt(org: Organization, o: int, u: int): Event { Creating(o, 0, u, AsSoonAsPossible(org, u)) }

  lemma AcceptedIsCreated(st: State, o: int, u: int)
    requires st.Valid() && o in st.orgs && Ordinary(st.orgs[o], st.Grid(o)) && st.exceptions == []
    requires FitsByEnd(st.orgs[o], st.Grid(o), u) && !KeyTaken(st.bookings, st.nextId, o, u)
    ensures Step(st, CreatingAt(st.orgs[o], o, u)) == Booked(st, o, u)
  {
    AcceptedIffFitsByEnd(st.orgs[o], st.Grid(o), [], u, AsSoonAsPossible(st.orgs[o], u));
  }

  lemma RunOfThree(st: State, a: Event, b: Event, c: Event)
    requires st.Valid()
    ensures Run(st, [a, b, c]) == Step(Step(Step(st, a), b), c)
  {
    assert [a, b, c][1..] == [b, c] && [b, c][1..] == [c] && [c][1..] == [];
    assert Run(Step(Step(st, a), b), [c]) == Step(Step(Step(st, a), b), c);
    assert Run(Step(st, a), [b, c]) == Step(Step(Step(st, a), b), c);
  }

  lemma BookedKeyFree(st: State, o: int, u: int, v: int)
    requires o in st.orgs && u != v && forall k :: k in st.bookings ==> !st.bookings[k].Holds(o)
    ensures !KeyTaken(st.bookings, st.nextId, o, u)
    ensures var mid := Booked(st, o, u); !KeyTaken(mid.bookings, mid.nextId, o, v)
  {
  }

  /** Nothing is booked, and both starts fit. */
  ghost predicate BothFit(st: State, o: int, u: int, v: int) {
    && st.Valid() && o in st.orgs && Ordinary(st.orgs[o], st.Grid(o)) && u != v
    && (forall k :: k in st.bookings ==> !st.bookings[k].Holds(o))
    && FitsByEnd(st.orgs[o], st.Grid(o), u) && FitsByEnd(st.orgs[o], st.Grid(o), v)
  }

  lemma TwoCreates(st: State, o: int, u: int, v: int)
    requires BothFit(st, o, u, v) && st.exceptions == []
    ensures var org := st.orgs[o];
      Step(Step(st, CreatingAt(org, o, u)), CreatingAt(org, o, v)) == Booked(Booked(st, o, u), o, v)
  {
    BookedKeyFree(st, o, u, v);
    AcceptedIsCreated(st, o, u);
    AcceptedIsCreated(Booked(st, o, u), o, v);
  }

  lemma ClearedFit(st: State, o: int, u: int, v: int)
    requires BothFit(st, o, u, v)
    ensures Step(st, EditingExceptions([])) == st.(exceptions := []) && BothFit(st.(exceptions := []), o, u, v)
  {
  }

  lemma CollidingRows(t: Table, n: nat, o: int, org: Organization, u: int, v: int)
    requires n in t && t[n] == NewBooking(o, 0, org.SlotFrom(u)) && u < v < u + Length(org)
    requires n + 1 in t && t[n + 1] == NewBooking(o, 0, org.SlotFrom(v))
    ensures !BookedApart(t, o)
  {
    assert RangesOverlap(t[n].Span(), t[n + 1].Span());
  }

  lemma ThreePlain(a: Event, b: Event, c: Event, o: int, org: Organization)
    requires TameRequest(a, o, org, Plain) && TameRequest(b, o, org, Plain) && TameRequest(c, o, org, Plain)
    ensures PlainRun([a, b, c], o, org)
  {
  }

  lemma BookedCollide(st: State, o: int, u: int, v: int)
    requires o in st.orgs && u < v < u + Length(st.orgs[o])
    ensures !BookedApart(Booked(Booked(st, o, u), o, v).bookings, o)
  {
    CollidingRows(Booked(Booked(st, o, u), o, v).bookings, st.nextId, o, st.orgs[o], u, v);
  }

  lemma BookedTwice(st: State, o: int, u: int, v: int)
    requires BothFit(st, o, u, v)
    ensures var org := st.orgs[o];
      Run(st, [EditingExceptions([]), CreatingAt(org, o, u), CreatingAt(org, o, v)])
        == Booked(Booked(st.(exceptions := []), o, u), o, v)
  {
    var org := st.orgs[o];
    ClearedFit(st, o, u, v);
    RunOfThree(st, EditingExceptions([]), CreatingAt(org, o, u), CreatingAt(org, o, v));
    TwoCreates(st.(exceptions := []), o, u, v);
  }

  /** Two colliding accepted starts can be booked one after the other. */
  lemma CollisionIsBooked(st: State, o: int, u: int, v: int) returns (es: seq<Event>)
    requires st.Valid() && o in st.orgs && Ordinary(st.orgs[o], st.Grid(o))
    requires forall k :: k in st.bookings ==> !st.bookings[k].Holds(o)
    requires var org, rules := st.orgs[o], st.Grid(o); PlainlyAccepted(org, rules, u) && PlainlyAccepted(org, rules, v)
    requires u < v < u + Length(st.orgs[o])
    ensures PlainRun(es, o, st.orgs[o]) && !BookedApart(Run(st, es).bookings, o)
  {
    var org := st.orgs[o];
    es := [EditingExceptions([]), CreatingAt(org, o, u), CreatingAt(org, o, v)];
    ThreePlain(EditingExceptions([]), CreatingAt(org, o, u), CreatingAt(org, o, v), o, org);
    BookedTwice(st, o, u, v);
    BookedCollide(st.(exceptions := []), o, u, v);
  }

  /** Which organizations can be double-booked, exactly. From no bookings, no run of plain requests ever double-books an
      organization if and only if the starts its checks accept are clear of every forward jump. */
  lemma NeverDoubleBooksIff(st: State, o: int)
    requires st.Valid() && o in st.orgs && Ordinary(st.orgs[o], st.Grid(o))
    requires forall k :: k in st.bookings ==> !st.bookings[k].Holds(o)
    ensures var org, rules := st.orgs[o], st.Grid(o);
      NeverDoubleBooks(st, o) <==> ClearOfJumps(org.zone, AcceptedStarts(org, rules), Length(org))
  {
    var org, rules := st.orgs[o], st.Grid(o);
    TruncationKeepsDisjoint(rules);
    AcceptedClearIff(org, rules);
    var starts := AcceptedStarts(org, rules);
    if AllClear(starts, Length(org)) {
      forall es | PlainRun(es, o, org)
        ensures BookedApart(Run(st, es).bookings, o)
      {
        RunPlacesBookings(st, es, o, Plain);
        PlacedBookedApart(Run(st, es).bookings, o, org, rules);
      }
    } else {
      var u, v :| u in starts && v in starts && u < v && v < u + Length(org);
      assert PlainlyAccepted(org, rules, u) && PlainlyAccepted(org, rules, v);
      var es := CollisionIsBooked(st, o, u, v);
    }
  }

  // ----- interleaved transactions -----

  ghost predicate PlainActions(actions: seq<Action>, o: int, org: Organization) {
    forall a :: a in actions ==> TameAction(a, o, org, Plain)
  }

  /** No interleaving of transactions with plain requests double-books the organization. */
  ghost predicate NeverDoubleBooksConcurrently(w: World, o: int)
    requires o in w.orgs
  {
    forall actions, end :: Leads(w, actions, end) && PlainActions(actions, o, w.orgs[o]) ==>
      BookedApart(end.committed, o)
  }

  /** The world after transaction t has created its booking undisturbed. */
  function AfterCreate(w: World, t: nat, r: Request): World
    requires r.CreateRequest? && r.org in w.orgs
  {
    w.(committed := w.committed[w.nextId := NewRow(w, r)], nextId := w.nextId + 1,
       txns := w.txns[t := Txn(r, Committed, map[])])
  }

  ghost predicate AtRest(w: World) { forall t :: t in w.txns ==> w.txns[t].pending == map[] }

  ghost predicate KeyFree(w: World, r: Request)
    requires r.CreateRequest?
  {
    forall id :: id in w.committed ==> id < w.nextId && !w.committed[id].HoldsKey(r.org, r.start)
  }

  lemma CreateClaims(w: World, t: nat, r: Request)
    requires t in w.txns && w.txns[t] == Txn(r, Passed, map[]) && r.CreateRequest? && r.org in w.orgs
    requires AtRest(w) && KeyFree(w, r)
    ensures Enabled(w, Action.Claim(t))
    ensures Apply(w, Action.Claim(t))
         == With(w.(nextId := w.nextId + 1), t, Txn(r, Claimed, map[w.nextId := NewRow(w, r)]))
  {
    assert w.View(t) == w.committed;
  }

  lemma OneRowCommits(w: World, t: nat, r: Request, n: nat, row: Booking)
    requires t in w.txns && w.txns[t] == Txn(r, Claimed, map[n := row]) && r.CreateRequest?
    ensures Enabled(w, Action.Commit(t))
    ensures Apply(w, Action.Commit(t)) == With(w.(committed := w.committed[n := row]), t, Txn(r, Committed, map[]))
  {
    AddRow(w.committed, n, row);
  }

  /** Begins nothing but this request. */
  ghost predicate OnlyBegins(actions: seq<Action>, r: Request) {
    forall a :: a in actions && a.Begin? ==> a.request == r
  }

  lemma CreateOpens(w: World, t: nat, r: Request) returns (actions: seq<Action>)
    requires t !in w.txns && MayPass(w, r)
    ensures Leads(w, actions, With(w, t, Txn(r, Passed, map[]))) && OnlyBegins(actions, r)
  {
    OnePasses(w, t, r);
    actions := [Action.Begin(t, r), Action.Validate(t, true)];
  }

  lemma CreateFinishes(w: World, t: nat, r: Request) returns (actions: seq<Action>)
    requires t in w.txns && w.txns[t] == Txn(r, Passed, map[]) && r.CreateRequest? && r.org in w.orgs
    requires AtRest(w) && KeyFree(w, r)
    ensures Leads(w, actions, AfterCreate(w, t, r)) && OnlyBegins(actions, r)
  {
    CreateClaims(w, t, r);
    var w1 := Apply(w, Action.Claim(t));
    OneRowCommits(w1, t, r, w.nextId, NewRow(w, r));
    var w2 := Apply(w1, Action.Commit(t));
    assert w2 == AfterCreate(w, t, r);
    actions := [Action.Claim(t), Action.Commit(t)];
    assert actions[1..] == [Action.Commit(t)];
    assert Leads(w1, [Action.Commit(t)], w2);
  }

  lemma AfterOpening(w: World, t: nat, r: Request)
    requires r.CreateRequest? && r.org in w.orgs
    ensures AfterCreate(With(w, t, Txn(r, Passed, map[])), t, r) == AfterCreate(w, t, r)
  {
    assert AfterCreate(With(w, t, Txn(r, Passed, map[])), t, r).txns == AfterCreate(w, t, r).txns;
  }

  lemma CreateRuns(w: World, t: nat, r: Request) returns (actions: seq<Action>)
    requires t !in w.txns && r.CreateRequest? && MayPass(w, r) && AtRest(w) && KeyFree(w, r)
    ensures Leads(w, actions, AfterCreate(w, t, r)) && OnlyBegins(actions, r)
  {
    var mid := With(w, t, Txn(r, Passed, map[]));
    var opening := CreateOpens(w, t, r);
    var closing := CreateFinishes(mid, t, r);
    AfterOpening(w, t, r);
    LeadsOn(w, opening, mid, closing, AfterCreate(mid, t, r));
    actions := opening + closing;
  }

  lemma AcceptedMayPass(w: World, o: int, user: int, u: int)
    requires o in w.orgs && w.orgs[o].Valid() && FitsByEnd(w.orgs[o], GridOf(w.grids, o), u)
    ensures MayPass(w, CreateRequest(o, user, u))
  {
    GridCheckIffFitsByEnd(w.orgs[o], GridOf(w.grids, o), u);
  }

  lemma CreatedKeyFree(w: World, o: int, u: int, v: int)
    requires CommittedOk(w) && w.txns == map[] && o in w.orgs && u != v
    requires forall k :: k in w.committed ==> !w.committed[k].Holds(o)
    ensures var r, q := CreateRequest(o, 0, u), CreateRequest(o, 0, v);
      && AtRest(w) && KeyFree(w, r) && AtRest(AfterCreate(w, 0, r)) && KeyFree(AfterCreate(w, 0, r), q)
  {
  }

  lemma PlainCreates(first: seq<Action>, second: seq<Action>, org: Organization, o: int, u: int, v: int)
    requires PlainStart(org, u) && PlainStart(org, v)
    requires OnlyBegins(first, CreateRequest(o, 0, u)) && OnlyBegins(second, CreateRequest(o, 0, v))
    ensures PlainActions(first + second, o, org)
  {
  }

  lemma TwoCreatesRun(w: World, o: int, u: int, v: int) returns (first: seq<Action>, second: seq<Action>)
    requires CommittedOk(w) && w.txns == map[] && o in w.orgs && u != v
    requires forall k :: k in w.committed ==> !w.committed[k].Holds(o)
    requires FitsByEnd(w.orgs[o], GridOf(w.grids, o), u) && FitsByEnd(w.orgs[o], GridOf(w.grids, o), v)
    ensures var r, q := CreateRequest(o, 0, u), CreateRequest(o, 0, v);
      && OnlyBegins(first, r) && OnlyBegins(second, q) && Leads(w, first, AfterCreate(w, 0, r))
      && Leads(AfterCreate(w, 0, r), second, AfterCreate(AfterCreate(w, 0, r), 1, q))
  {
    var r, q := CreateRequest(o, 0, u), CreateRequest(o, 0, v);
    CreatedKeyFree(w, o, u, v);
    AcceptedMayPass(w, o, 0, u);
    AcceptedMayPass(AfterCreate(w, 0, r), o, 0, v);
    first := CreateRuns(w, 0, r);
    second := CreateRuns(AfterCreate(w, 0, r), 1, q);
  }

  lemma CreatedCollide(w: World, o: int, u: int, v: int)
    requires o in w.orgs && u < v < u + Length(w.orgs[o])
    ensures var r, q := CreateRequest(o, 0, u), CreateRequest(o, 0, v);
      !BookedApart(AfterCreate(AfterCreate(w, 0, r), 1, q).committed, o)
  {
    var r, q := CreateRequest(o, 0, u), CreateRequest(o, 0, v);
    CollidingRows(AfterCreate(AfterCreate(w, 0, r), 1, q).committed, w.nextId, o, w.orgs[o], u, v);
  }

  lemma CollisionInterleaves(w: World, o: int, u: int, v: int) returns (actions: seq<Action>, end: World)
    requires CommittedOk(w) && w.txns == map[] && o in w.orgs
    requires forall k :: k in w.committed ==> !w.committed[k].Holds(o)
    requires var org, rules := w.orgs[o], GridOf(w.grids, o);
      PlainlyAccepted(org, rules, u) && PlainlyAccepted(org, rules, v)
    requires u < v < u + Length(w.orgs[o])
    ensures Leads(w, actions, end) && PlainActions(actions, o, w.orgs[o]) && !BookedApart(end.committed, o)
  {
    var first, second := TwoCreatesRun(w, o, u, v);
    var mid := AfterCreate(w, 0, CreateRequest(o, 0, u));
    end := AfterCreate(mid, 1, CreateRequest(o, 0, v));
    LeadsOn(w, first, mid, second, end);
    actions := first + second;
    PlainCreates(first, second, w.orgs[o], o, u, v);
    CreatedCollide(w, o, u, v);
  }

  /** Concurrency neither adds nor takes away: no interleaving of plain requests ever double-books an organization if
      and only if the starts its checks accept are clear of every forward jump. */
  lemma NeverDoubleBooksConcurrentlyIff(w: World, o: int)
    requires CommittedOk(w) && w.txns == map[] && o in w.orgs && Ordinary(w.orgs[o], GridOf(w.grids, o))
    requires forall k :: k in w.committed ==> !w.committed[k].Holds(o)
    ensures var org, rules := w.orgs[o], GridOf(w.grids, o);
      NeverDoubleBooksConcurrently(w, o) <==> ClearOfJumps(org.zone, AcceptedStarts(org, rules), Length(org))
  {
    var org, rules := w.orgs[o], GridOf(w.grids, o);
    TruncationKeepsDisjoint(rules);
    AcceptedClearIff(org, rules);
    var starts := AcceptedStarts(org, rules);
    if AllClear(starts, Length(org)) {
      forall actions, end | Leads(w, actions, end) && PlainActions(actions, o, org)
        ensures BookedApart(end.committed, o)
      {
        InterleavingPlacesBookings(w, actions, end, o, Plain);
        PlacedBookedApart(end.committed, o, org, rules);
      }
    } else {
      var u, v :| u in starts && v in starts && u < v && v < u + Length(org);
      assert PlainlyAccepted(org, rules, u) && PlainlyAccepted(org, rules, v);
      var actions, end := CollisionInterleaves(w, o, u, v);
    }
  }

  // ----- in terms of the settings -----

  /** When transitions are two slots apart and jumps are whole minutes, all this can be read off the settings: plain
      requests can double-book the organization, one call at a time or interleaved, if and only if some jump
      pinches a slot of some rule. */
  lemma DoubleBookableIff(st: State, w: World, o: int)
    requires st.Valid() && o in st.orgs && Ordinary(st.orgs[o], st.Grid(o))
    requires forall k :: k in st.bookings ==> !st.bookings[k].Holds(o)
    requires w == World(st.orgs, st.grids, st.bookings, st.nextId, map[])
    requires Spaced(st.orgs[o].zone, 2 * Length(st.orgs[o])) && WholeMinuteJumps(st.orgs[o].zone)
    ensures NeverDoubleBooks(st, o) <==> !SomePinch(st.orgs[o], st.Grid(o))
    ensures NeverDoubleBooksConcurrently(w, o) <==> !SomePinch(st.orgs[o], st.Grid(o))
  {
    var org, rules := st.orgs[o], st.Grid(o);
    TruncationKeepsDisjoint(rules);
    NeverDoubleBooksIff(st, o);
    NeverDoubleBooksConcurrentlyIff(w, o);
    AcceptedClearIff(org, rules);
    PinchIff(org, rules);
  }

  lemma MultipleOfLength(x: int, duration: int)
    requires 0 < duration && x % (duration * MINUTE) == 0
    ensures x % MINUTE == 0
  {
    var k := x / (duration * MINUTE);
    assert x == (k * duration) * MINUTE;
  }

  lemma DividingIsWholeMinutes(org: Organization)
    requires 0 < org.duration && forall i: nat :: IsJump(org.zone, i) ==> Rise(org.zone, i) % Length(org) == 0
    ensures WholeMinuteJumps(org.zone)
  {
    forall i: nat | IsJump(org.zone, i)
      ensures Rise(org.zone, i) % MINUTE == 0
    {
      MultipleOfLength(Rise(org.zone, i), org.duration);
    }
  }

  /** In particular an organization whose slot length divides every jump of its clocks is never double-booked. */
  lemma DividingLengthsNeverDoubleBook(st: State, o: int)
    requires st.Valid() && o in st.orgs && Ordinary(st.orgs[o], st.Grid(o))
    requires forall k :: k in st.bookings ==> !st.bookings[k].Holds(o)
    requires Spaced(st.orgs[o].zone, 2 * Length(st.orgs[o]))
    requires forall i: nat :: IsJump(st.orgs[o].zone, i) ==> Rise(st.orgs[o].zone, i) % Length(st.orgs[o]) == 0
    ensures NeverDoubleBooks(st, o)
  {
    var org, rules := st.orgs[o], st.Grid(o);
    TruncationKeepsDisjoint(rules);
    DividingLengthsNeverPinch(org, rules);
    DividingIsWholeMinutes(org);
    NeverDoubleBooksIff(st, o);
    AcceptedClearIff(org, rules);
    PinchIff(org, rules);
  }
}
