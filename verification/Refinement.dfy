/** The atomic calls are the interleaved transactions when nobody interferes. */
module Refinement {
  import opened BookingLaws
  import opened Bookings
  import opened Conservation
  import opened DoubleBooking
  import opened Interleaving
  import opened Slots
  import opened Validation
  import opened Wrappers

  /** The world stores what the tables store, no transaction has uncommitted rows, and ids from n on are unused. */
  ghost predicate Stands(w: World, st: State, n: nat) {
    && w.orgs == st.orgs && w.grids == st.grids && w.committed == st.bookings && w.nextId == st.nextId
    && AtRest(w) && forall t :: t in w.txns ==> t < n
  }

  /** Some actions lead from w to a world that stands for these tables. */
  ghost predicate Reaches(w: World, st: State, n: nat) {
    exists actions, end :: Leads(w, actions, end) && Stands(end, st, n)
  }

  lemma ReachesHere(w: World, st: State, n: nat)
    requires Stands(w, st, n)
    ensures Reaches(w, st, n + 1)
  {
    assert Leads(w, [], w) && Stands(w, st, n + 1);
  }

  lemma ReachesBy(w: World, actions: seq<Action>, end: World, st: State, n: nat)
    requires Leads(w, actions, end) && Stands(end, st, n)
    ensures Reaches(w, st, n)
  {
  }

  /** The insert that is refused: flushed, rolled back, and its id used up. */
  lemma ClaimRefused(w: World, t: nat, r: Request)
    requires t in w.txns && w.txns[t].request == r && r.Inserts() && r.org in w.orgs
    requires r.Updates() ==> r.id in w.committed
    requires forall t' :: t' in w.txns && t' != t ==> w.txns[t'].pending == map[]
    requires w.txns[t].phase == (if r.Updates() then Lifted else Passed)
    requires KeyTaken(w.View(t), w.nextId, r.org, r.start)
    ensures Leads(w, [Action.Claim(t)], With(w.(nextId := w.nextId + 1), t, Txn(r, Conflicted, map[])))
  {
    var next := Apply(w, Action.Claim(t));
    assert Leads(next, [], next);
    assert [Action.Claim(t)][1..] == [];
  }

  /** A transaction begins, passes its checks, and goes on as given. */
  lemma OpensAndReaches(w: World, n: nat, r: Request, closing: seq<Action>, end: World, st: State)
    requires n !in w.txns && MayPass(w, r) && Leads(With(w, n, Txn(r, Passed, map[])), closing, end)
    requires Stands(end, st, n + 1)
    ensures Reaches(w, st, n + 1)
  {
    var opening := CreateOpens(w, n, r);
    LeadsOn(w, opening, With(w, n, Txn(r, Passed, map[])), closing, end);
    ReachesBy(w, opening + closing, end, st, n + 1);
  }

  lemma RefusedStands(w: World, st: State, n: nat, r: Request)
    requires Stands(w, st, n)
    ensures var passed := With(w, n, Txn(r, Passed, map[]));
      Stands(With(passed.(nextId := passed.nextId + 1), n, Txn(r, Conflicted, map[])),
             st.(nextId := st.nextId + 1), n + 1)
  {
  }

  lemma CreateConflicts(w: World, st: State, n: nat, r: Request)
    requires Stands(w, st, n) && r.CreateRequest? && MayPass(w, r)
    requires KeyTaken(st.bookings, st.nextId, r.org, r.start)
    ensures Reaches(w, st.(nextId := st.nextId + 1), n + 1)
  {
    var mid := With(w, n, Txn(r, Passed, map[]));
    assert mid.View(n) == w.committed;
    ClaimRefused(mid, n, r);
    RefusedStands(w, st, n, r);
    OpensAndReaches(w, n, r, [Action.Claim(n)], With(mid.(nextId := mid.nextId + 1), n, Txn(r, Conflicted, map[])),
                    st.(nextId := st.nextId + 1));
  }

  lemma CreateSucceeds(w: World, st: State, n: nat, r: Request)
    requires Stands(w, st, n) && st.Valid() && r.CreateRequest? && MayPass(w, r)
    requires !KeyTaken(st.bookings, st.nextId, r.org, r.start)
    ensures Reaches(w, st.(nextId := st.nextId + 1, bookings := st.bookings[st.nextId := NewRow(w, r)]), n + 1)
  {
    var actions := CreateRuns(w, n, r);
    ReachesBy(w, actions, AfterCreate(w, n, r),
              st.(nextId := st.nextId + 1, bookings := st.bookings[st.nextId := NewRow(w, r)]), n + 1);
  }

  lemma ChecksPassGrid(st: State, w: World, org: int, u: int, now: int)
    requires st.Valid() && org in st.orgs && Check(st, org, u, now).None? && w.orgs == st.orgs && w.grids == st.grids
    ensures 0 < w.orgs[org].duration
    ensures GridCheck(w.orgs[org], GridOf(w.grids, org), u, w.orgs[org].SlotFrom(u).end).None?
  {
  }

  lemma CreateIsInterleaved(w: World, st: State, n: nat, org: int, user: int, u: int, now: int)
    requires Stands(w, st, n) && st.Valid()
    ensures Reaches(w, Create(st, org, user, u, now).after, n + 1)
  {
    var r := CreateRequest(org, user, u);
    if org in st.orgs && Check(st, org, u, now).None? {
      ChecksPassGrid(st, w, org, u, now);
      if KeyTaken(st.bookings, st.nextId, org, u) {
        CreateConflicts(w, st, n, r);
      } else {
        CreateSucceeds(w, st, n, r);
      }
    } else {
      ReachesHere(w, st, n);
    }
  }

  lemma CancelSucceeds(w: World, st: State, n: nat, r: Request, now: int)
    requires Stands(w, st, n) && r.CancelRequest? && MayPass(w, r)
    ensures Reaches(w, st.(bookings := st.bookings[r.id := st.bookings[r.id].Cancel(now, r.actor)]), n + 1)
  {
    var mid := With(w, n, Txn(r, Passed, map[]));
    CancelFinishes(mid, n, r, now);
    OpensAndReaches(w, n, r, [Action.Lift(n, now), Action.Commit(n)], AfterCancel(mid, n, r, now),
                    st.(bookings := st.bookings[r.id := st.bookings[r.id].Cancel(now, r.actor)]));
  }

  lemma CancelIsInterleaved(w: World, st: State, n: nat, org: int, actor: int, admin: bool, id: nat, now: int)
    requires Stands(w, st, n) && st.Valid()
    ensures Reaches(w, Cancel(st, org, actor, admin, id, now).after, n + 1)
  {
    if Cancel(st, org, actor, admin, id, now).result.Ok? {
      CancelSucceeds(w, st, n, CancelRequest(org, actor, id), now);
    } else {
      ReachesHere(w, st, n);
    }
  }

  lemma MoveSucceeds(w: World, st: State, n: nat, r: Request, now: int)
    requires Stands(w, st, n) && st.Valid() && r.RescheduleRequest? && MayPass(w, r)
    requires !KeyTaken(st.bookings, r.id, r.org, r.start)
    ensures Reaches(w, st.(nextId := st.nextId + 1,
                           bookings := Moved(st.bookings, r.id, r.actor, now, st.nextId, NewRow(w, r))), n + 1)
  {
    var mid := With(w, n, Txn(r, Passed, map[]));
    assert ReadyToMove(mid, n);
    var steps := MoveFinishes(mid, n, now);
    OpensAndReaches(w, n, r, steps, AfterMove(mid, n, now), st.(nextId := st.nextId + 1,
                    bookings := Moved(st.bookings, r.id, r.actor, now, st.nextId, NewRow(w, r))));
  }

  lemma LiftAlone(w: World, t: nat, r: Request, now: int)
    requires t in w.txns && w.txns[t] == Txn(r, Passed, map[]) && r.Updates() && r.id in w.committed && AtRest(w)
    ensures Leads(w, [Action.Lift(t, now)],
                  With(w, t, Txn(r, Lifted, map[r.id := w.committed[r.id].Cancel(now, r.actor)])))
  {
    var next := Apply(w, Action.Lift(t, now));
    assert Leads(next, [], next);
    assert [Action.Lift(t, now)][1..] == [];
  }

  lemma SameRecord(w: World, t: nat, before: Txn, after: Txn)
    ensures With(With(w, t, before).(nextId := w.nextId + 1), t, after) == With(w.(nextId := w.nextId + 1), t, after)
    ensures With(With(w, t, before), t, after) == With(w, t, after)
  {
    assert w.txns[t := before][t := after] == w.txns[t := after];
  }

  /** The cancellation is flushed, the insert refused, and both are undone. */
  lemma MoveRefused(w: World, t: nat, r: Request, now: int)
    requires t in w.txns && w.txns[t] == Txn(r, Passed, map[]) && r.RescheduleRequest? && r.org in w.orgs
    requires r.id in w.committed && w.nextId !in w.committed && AtRest(w) && KeyTaken(w.committed, r.id, r.org, r.start)
    ensures Leads(w, [Action.Lift(t, now)] + [Action.Claim(t)],
                  With(w.(nextId := w.nextId + 1), t, Txn(r, Conflicted, map[])))
  {
    var row := w.committed[r.id].Cancel(now, r.actor);
    var lifted := With(w, t, Txn(r, Lifted, map[r.id := row]));
    LiftAlone(w, t, r, now);
    assert lifted.View(t) == w.committed[r.id := row];
    CancelFreesKey(w.committed, r.id, w.nextId, now, r.actor, r.org, r.start);
    ClaimRefused(lifted, t, r);
    SameRecord(w, t, Txn(r, Lifted, map[r.id := row]), Txn(r, Conflicted, map[]));
    LeadsOn(w, [Action.Lift(t, now)], lifted, [Action.Claim(t)],
            With(w.(nextId := w.nextId + 1), t, Txn(r, Conflicted, map[])));
  }

  lemma MoveConflicts(w: World, st: State, n: nat, r: Request, now: int)
    requires Stands(w, st, n) && st.Valid() && r.RescheduleRequest? && MayPass(w, r)
    requires KeyTaken(st.bookings, r.id, r.org, r.start)
    ensures Reaches(w, st.(nextId := st.nextId + 1), n + 1)
  {
    var passed := With(w, n, Txn(r, Passed, map[]));
    MoveRefused(passed, n, r, now);
    RefusedStands(w, st, n, r);
    OpensAndReaches(w, n, r, [Action.Lift(n, now)] + [Action.Claim(n)],
                    With(passed.(nextId := passed.nextId + 1), n, Txn(r, Conflicted, map[])),
                    st.(nextId := st.nextId + 1));
  }

  lemma RescheduleIsInterleaved(w: World, st: State, n: nat, org: int, actor: int, id: nat, u: int, now: int)
    requires Stands(w, st, n) && st.Valid()
    ensures Reaches(w, Reschedule(st, org, actor, id, u, now).after, n + 1)
  {
    var r := RescheduleRequest(org, actor, id, u);
    if InOrg(st.bookings, id, org) && st.bookings[id].status.Active? && org in st.orgs && Check(st, org, u, now).None? {
      ChecksPassGrid(st, w, org, u, now);
      if KeyTaken(st.bookings, id, org, u) {
        MoveConflicts(w, st, n, r, now);
      } else {
        MoveSucceeds(w, st, n, r, now);
      }
    } else {
      ReachesHere(w, st, n);
    }
  }

  lemma EventIsInterleaved(w: World, st: State, n: nat, e: Event)
    requires Stands(w, st, n) && st.Valid()
    ensures Reaches(w, Step(st, e), n + 1)
  {
    match e
    case Creating(org, user, start, now) => CreateIsInterleaved(w, st, n, org, user, start, now);
    case Cancelling(org, actor, admin, id, now) => CancelIsInterleaved(w, st, n, org, actor, admin, id, now);
    case Rescheduling(org, actor, id, start, now) => RescheduleIsInterleaved(w, st, n, org, actor, id, start, now);
    case EditingExceptions(rows) => ReachesHere(w, Step(st, e), n);
  }

  lemma ReachesThrough(w: World, actions: seq<Action>, mid: World, st: State, n: nat)
    requires Leads(w, actions, mid) && Reaches(mid, st, n)
    ensures Reaches(w, st, n)
  {
    var rest, end :| Leads(mid, rest, end) && Stands(end, st, n);
    LeadsOn(w, actions, mid, rest, end);
    ReachesBy(w, actions + rest, end, st, n);
  }

  /** Every run of atomic calls, failures included, is an interleaving: from a world at rest that stores what the tables
      store, some actions lead to one that stores what the run leaves. */
  lemma {:induction false} RunIsInterleaving(w: World, st: State, n: nat, es: seq<Event>)
    requires Stands(w, st, n) && st.Valid()
    ensures Reaches(w, Run(st, es), n + |es|)
    decreases |es|
  {
    if es == [] {
      assert Leads(w, [], w);
    } else {
      EventIsInterleaved(w, st, n, es[0]);
      var first, mid :| Leads(w, first, mid) && Stands(mid, Step(st, es[0]), n + 1);
      RunIsInterleaving(mid, Step(st, es[0]), n + 1, es[1..]);
      ReachesThrough(w, first, mid, Run(st, es), n + |es|);
    }
  }

  /** So whatever the atomic calls can bring about, transactions can. */
  lemma TransactionsCanDoIt(st: State, es: seq<Event>) returns (actions: seq<Action>, end: World)
    requires st.Valid()
    ensures Leads(World(st.orgs, st.grids, st.bookings, st.nextId, map[]), actions, end)
    ensures end.committed == Run(st, es).bookings && end.nextId == Run(st, es).nextId
  {
    var w := World(st.orgs, st.grids, st.bookings, st.nextId, map[]);
    assert Stands(w, st, 0);
    RunIsInterleaving(w, st, 0, es);
    actions, end :| Leads(w, actions, end) && Stands(end, Run(st, es), 0 + |es|);
  }
}
