/** How many active bookings each user has while transactions interleave, and the schedules that add one. */
module Conservation {
  import opened BookingLaws
  import opened Bookings
  import opened Interleaving
  import opened Validation

  // ----- what a transaction has written -----

  /** The one new row of a request, under the id n, besides the row it cancels if it is a reschedule. */
  ghost predicate Inserted(orgs: map<int, Organization>, c: Table, r: Request, p: Table, n: nat) {
    && r.Inserts() && r.org in orgs && (r.Updates() ==> r.id in c)
    && n in p && n !in c && p[n] == RowFor(orgs, c, r)
    && p.Keys == if r.Updates() then {r.id, n} else {n}
  }

  /** Exactly the rows its request calls for at this phase. */
  ghost predicate WritesOk(orgs: map<int, Organization>, c: Table, txn: Txn) {
    match txn.phase
    case Lifted => txn.request.Updates() && txn.request.id in c && txn.pending.Keys == {txn.request.id}
    case Claimed => exists n :: Inserted(orgs, c, txn.request, txn.pending, n)
    case _ => txn.pending == map[]
  }

  ghost predicate AllWritesOk(w: World) { forall t :: t in w.txns ==> WritesOk(w.orgs, w.committed, w.txns[t]) }

  ghost predicate Tracked(w: World) { Inv(w) && AllWritesOk(w) }

  lemma ClaimInserts(orgs: map<int, Organization>, c: Table, txn: Txn, n: nat)
    requires WritesOk(orgs, c, txn) && n !in c && txn.request.Inserts() && txn.request.org in orgs
    requires txn.phase == (if txn.request.Updates() then Lifted else Passed)
    ensures Inserted(orgs, c, txn.request, txn.pending[n := RowFor(orgs, c, txn.request)], n)
  {
  }

  lemma RowClaimWrites(w: World, t: nat, row: Booking)
    requires t in w.txns
    requires Inserted(w.orgs, w.committed, w.txns[t].request, w.txns[t].pending[w.nextId := row], w.nextId)
    ensures WritesOk(w.orgs, w.committed, ApplyClaim(w, t, row).txns[t])
  {
  }

  lemma ClaimWrites(w: World, t: nat)
    requires Tracked(w) && Enabled(w, Action.Claim(t))
    ensures WritesOk(w.orgs, w.committed, Apply(w, Action.Claim(t)).txns[t])
  {
    var txn := w.txns[t];
    assert WritesOk(w.orgs, w.committed, txn) && w.nextId !in w.committed;
    ClaimInserts(w.orgs, w.committed, txn, w.nextId);
    RowClaimWrites(w, t, NewRow(w, txn.request));
  }

  /** Committing p leaves what another transaction has written as it was. */
  lemma CommitKeepsWrites(w: World, t: nat, t': nat)
    requires Tracked(w) && t in w.txns && t' in w.txns && t != t'
    ensures WritesOk(w.orgs, w.View(t), w.txns[t'])
  {
    var txn, p := w.txns[t'], w.txns[t].pending;
    assert TxnOk(w, w.txns[t]) && WritesOk(w.orgs, w.committed, txn);
    assert p.Keys !! txn.pending.Keys by { assert Apart(w.committed, p, txn.pending); }
    if txn.phase == Claimed {
      var n :| Inserted(w.orgs, w.committed, txn.request, txn.pending, n);
      assert Inserted(w.orgs, w.View(t), txn.request, txn.pending, n);
    }
  }

  lemma OwnStepWrites(w: World, a: Action)
    requires Tracked(w) && Enabled(w, a)
    ensures WritesOk(w.orgs, Apply(w, a).committed, Apply(w, a).txns[a.t])
  {
    if a.Claim? {
      ClaimWrites(w, a.t);
    } else if a.Validate? {
      assert WritesOk(w.orgs, w.committed, w.txns[a.t]);
    }
  }

  lemma StepWrites(w: World, a: Action, t: nat)
    requires Tracked(w) && Enabled(w, a) && t in Apply(w, a).txns
    ensures WritesOk(w.orgs, Apply(w, a).committed, Apply(w, a).txns[t])
  {
    StepMoves(w, a);
    if t == a.t {
      OwnStepWrites(w, a);
    } else if a.Commit? {
      CommitKeepsWrites(w, a.t, t);
    } else {
      assert WritesOk(w.orgs, w.committed, w.txns[t]);
    }
  }

  lemma StepKeepsWrites(w: World, a: Action)
    requires Tracked(w) && Enabled(w, a)
    ensures AllWritesOk(Apply(w, a))
  {
    StepMoves(w, a);
    forall t | t in Apply(w, a).txns { StepWrites(w, a, t); }
  }

  lemma StepKeepsTracked(w: World, a: Action)
    requires Tracked(w) && Enabled(w, a)
    ensures Tracked(Apply(w, a))
  {
    StepKeepsInv(w, a);
    StepKeepsWrites(w, a);
  }

  lemma QuietWorldTracked(w: World)
    requires CommittedOk(w) && w.txns == map[]
    ensures Tracked(w)
  {
    QuietWorldOk(w);
  }

  // ----- the balance of active bookings -----

  /** What a step means for a user of an organization. Revived: a reschedule commits for a row that has been
      cancelled since it was read, so that a new active row takes the place of none. */
  datatype Change = Unaffected | Gained | Lost | Shifted | Revived

  /** The row is of this user and organization. */
  predicate Owns(row: Booking, o: int, user: int) { row.org == o && row.user == user }

  /** What committing the rows of a request means, given the rows committed before. */
  function CommitChange(c: Table, r: Request, o: int, user: int): Change {
    match r
    case CreateRequest(org, u, _) => if org == o && u == user then Gained else Unaffected
    case CancelRequest(_, _, id) =>
      if id in c && Owns(c[id], o, user) && c[id].status.Active? then Lost else Unaffected
    case RescheduleRequest(_, _, id, _) =>
      if !(id in c && Owns(c[id], o, user)) then Unaffected
      else if c[id].status.Active? then Shifted
      else Revived
  }

  ghost function ChangeOf(w: World, a: Action, o: int, user: int): Change
    requires Enabled(w, a)
  {
    if a.Commit? then CommitChange(w.committed, w.txns[a.t].request, o, user) else Unaffected
  }

  /** What a change adds to the number of active bookings. */
  function Effect(change: Change): int {
    match change
    case Gained => 1
    case Revived => 1
    case Lost => -1
    case _ => 0
  }

  lemma CommitCreates(orgs: map<int, Organization>, c: Table, r: Request, p: Table, n: nat, o: int, user: int)
    requires r.CreateRequest? && Inserted(orgs, c, r, p, n)
    ensures |ActiveIds(c + p, o, user)| == |ActiveIds(c, o, user)| + if r.org == o && r.user == user then 1 else 0
  {
    if r.org == o && r.user == user {
      assert ActiveIds(c + p, o, user) == ActiveIds(c, o, user) + {n};
    } else {
      assert ActiveIds(c + p, o, user) == ActiveIds(c, o, user);
    }
  }

  lemma CommitCancels(c: Table, id: nat, p: Table, o: int, user: int)
    requires id in c && p.Keys == {id} && p[id].status.Cancelled?
    ensures |ActiveIds(c + p, o, user)| == |ActiveIds(c, o, user)|
              - if Owns(c[id], o, user) && c[id].status.Active? then 1 else 0
  {
    assert ActiveIds(c + p, o, user) == ActiveIds(c, o, user) - {id};
  }

  lemma CommitMoves(orgs: map<int, Organization>, c: Table, r: Request, p: Table, n: nat, o: int, user: int)
    requires r.RescheduleRequest? && Inserted(orgs, c, r, p, n) && p[r.id].status.Cancelled?
    requires r.org == c[r.id].org
    ensures |ActiveIds(c + p, o, user)| == |ActiveIds(c, o, user)|
              + if Owns(c[r.id], o, user) && c[r.id].status.Cancelled? then 1 else 0
  {
    if Owns(c[r.id], o, user) {
      assert ActiveIds(c + p, o, user) == ActiveIds(c, o, user) - {r.id} + {n};
    } else {
      assert ActiveIds(c + p, o, user) == ActiveIds(c, o, user);
    }
  }

  lemma CommitBalance(orgs: map<int, Organization>, c: Table, nextId: nat, txn: Txn, o: int, user: int)
    requires PendingOk(c, nextId, txn.pending) && WritesOk(orgs, c, txn)
    requires txn.phase == (if txn.request.Inserts() then Claimed else Lifted)
    requires txn.request.Updates() ==> InOrg(c, txn.request.id, txn.request.org)
    ensures |ActiveIds(c + txn.pending, o, user)|
         == |ActiveIds(c, o, user)| + Effect(CommitChange(c, txn.request, o, user))
  {
    var r, p := txn.request, txn.pending;
    if r.CancelRequest? {
      CommitCancels(c, r.id, p, o, user);
    } else {
      var n :| Inserted(orgs, c, r, p, n);
      if r.CreateRequest? {
        CommitCreates(orgs, c, r, p, n, o, user);
      } else {
        CommitMoves(orgs, c, r, p, n, o, user);
      }
    }
  }

  /** The number of a user's active bookings changes by exactly the effect of the step: only commits count, and the
      commit of a reschedule conserves it if and only if its row is still active. */
  lemma StepBalance(w: World, a: Action, o: int, user: int)
    requires Tracked(w) && Enabled(w, a)
    ensures |ActiveIds(Apply(w, a).committed, o, user)|
         == |ActiveIds(w.committed, o, user)| + Effect(ChangeOf(w, a, o, user))
  {
    if a.Commit? {
      assert TxnOk(w, w.txns[a.t]);
      CommitBalance(w.orgs, w.committed, w.nextId, w.txns[a.t], o, user);
    }
  }

  /** How often a change happens in a run. */
  ghost function Times(w: World, actions: seq<Action>, change: Change, o: int, user: int): nat
    decreases |actions|
  {
    if actions == [] || !Enabled(w, actions[0]) then 0
    else
      (if ChangeOf(w, actions[0], o, user) == change then 1 else 0)
      + Times(Apply(w, actions[0]), actions[1..], change, o, user)
  }

  /** The balance of a run, whatever the interleaving: a user ends with the bookings there were, plus those created,
      minus those cancelled, plus one for every reschedule of a booking that was cancelled behind its back. */
  lemma {:induction false} RunBalance(w: World, actions: seq<Action>, end: World, o: int, user: int)
    requires Tracked(w) && Leads(w, actions, end)
    ensures |ActiveIds(end.committed, o, user)|
         == |ActiveIds(w.committed, o, user)| + Times(w, actions, Gained, o, user)
            - Times(w, actions, Lost, o, user) + Times(w, actions, Revived, o, user)
    decreases |actions|
  {
    if actions != [] {
      StepKeepsTracked(w, actions[0]);
      StepBalance(w, actions[0], o, user);
      RunBalance(Apply(w, actions[0]), actions[1..], end, o, user);
    }
  }

  /** Rescheduling conserves under concurrency, exactly when: a run that starts with no transactions leaves a user with
      what creations and cancellations account for if and only if no reschedule in it commits for a booking
      that is already cancelled. */
  lemma ConservedIff(w: World, actions: seq<Action>, end: World, o: int, user: int)
    requires CommittedOk(w) && w.txns == map[] && Leads(w, actions, end)
    ensures |ActiveIds(end.committed, o, user)|
         == |ActiveIds(w.committed, o, user)| + Times(w, actions, Gained, o, user) - Times(w, actions, Lost, o, user)
       <==> Times(w, actions, Revived, o, user) == 0
  {
    QuietWorldTracked(w);
    RunBalance(w, actions, end, o, user);
  }

  lemma CommitSparesLocked(w: World, t: nat, t': nat, id: nat)
    requires Inv(w) && t in w.txns && t' in w.txns && t != t' && id in w.committed && id in w.txns[t'].pending
    ensures w.View(t)[id] == w.committed[id]
  {
    assert Apart(w.committed, w.txns[t].pending, w.txns[t'].pending);
  }

  /** Whether a reschedule will revive its booking is settled when it takes the row lock: until it ends, no step of
      another transaction changes the row. */
  lemma LockedRowStays(w: World, a: Action, t: nat, id: nat)
    requires Inv(w) && Enabled(w, a) && t in w.txns && id in w.txns[t].pending && id in w.committed && a.t != t
    ensures id in Apply(w, a).committed && Apply(w, a).committed[id] == w.committed[id]
  {
    StepMoves(w, a);
    if a.Commit? { CommitSparesLocked(w, a.t, t, id); }
  }

  // ----- schedules that add a booking -----

  lemma {:induction false} LeadsOn(w: World, a: seq<Action>, mid: World, b: seq<Action>, end: World)
    requires Leads(w, a, mid) && Leads(mid, b, end)
    ensures Leads(w, a + b, end)
    decreases |a|
  {
    if a == [] {
      assert a + b == b;
    } else {
      assert (a + b)[0] == a[0] && (a + b)[1..] == a[1..] + b;
      LeadsOn(Apply(w, a[0]), a[1..], mid, b, end);
    }
  }

  lemma LeadsThree(w: World, a: Action, b: Action, c: Action)
    requires Enabled(w, a) && Enabled(Apply(w, a), b) && Enabled(Apply(Apply(w, a), b), c)
    ensures Leads(w, [a, b, c], Apply(Apply(Apply(w, a), b), c))
  {
    var w1 := Apply(w, a);
    var w2 := Apply(w1, b);
    assert [a, b, c][1..] == [b, c] && [b, c][1..] == [c] && [c][1..] == [];
    assert Leads(w2, [c], Apply(w2, c));
    assert Leads(w1, [b, c], Apply(w2, c));
  }

  /** No transaction has uncommitted rows, and t has validated a reschedule onto a key no other row has. */
  ghost predicate ReadyToMove(w: World, t: nat) {
    && (forall t' :: t' in w.txns ==> w.txns[t'].pending == map[])
    && t in w.txns && w.txns[t].phase == Passed
    && var r := w.txns[t].request;
       && r.RescheduleRequest? && r.id in w.committed && r.org in w.orgs
       && (forall j :: j in w.committed ==> j < w.nextId && (j != r.id ==> !w.committed[j].HoldsKey(r.org, r.start)))
  }

  /** The world once t has moved its booking and committed. */
  ghost function AfterMove(w: World, t: nat, now: int): World
    requires ReadyToMove(w, t)
  {
    var r := w.txns[t].request;
    w.(committed := Moved(w.committed, r.id, r.actor, now, w.nextId, NewRow(w, r)),
       nextId := w.nextId + 1,
       txns := w.txns[t := Txn(r, Committed, map[])])
  }

  lemma MoveClaims(w: World, t: nat, now: int) returns (w2: World)
    requires ReadyToMove(w, t)
    ensures var r, w1 := w.txns[t].request, Apply(w, Action.Lift(t, now));
      && Enabled(w1, Action.Claim(t)) && w2 == Apply(w1, Action.Claim(t))
      && w2.orgs == w.orgs && w2.grids == w.grids && w2.committed == w.committed && w2.nextId == w.nextId + 1
      && w2.txns == w.txns[t := Txn(r, Claimed, map[r.id := w.committed[r.id].Cancel(now, r.actor),
                                                    w.nextId := NewRow(w, r)])]
  {
    var r := w.txns[t].request;
    var w1 := Apply(w, Action.Lift(t, now));
    assert w1.View(t) == w.committed[r.id := w.committed[r.id].Cancel(now, r.actor)];
    assert !KeyContended(w1, t, r.org, r.start);
    assert NewRow(w1, r) == NewRow(w, r);
    assert !KeyTaken(w1.View(t), w1.nextId, r.org, r.start);
    w2 := Apply(w1, Action.Claim(t));
  }

  lemma MoveCommits(w: World, w2: World, t: nat, now: int)
    requires ReadyToMove(w, t) && w2.committed == w.committed && t in w2.txns
    requires var r := w.txns[t].request;
      w2.txns[t] == Txn(r, Claimed, map[r.id := w.committed[r.id].Cancel(now, r.actor), w.nextId := NewRow(w, r)])
    ensures Enabled(w2, Action.Commit(t))
    ensures Apply(w2, Action.Commit(t)).committed == AfterMove(w, t, now).committed
    ensures Apply(w2, Action.Commit(t)).txns == w2.txns[t := Txn(w.txns[t].request, Committed, map[])]
  {
    var r := w.txns[t].request;
    assert w2.View(t) == Moved(w.committed, r.id, r.actor, now, w.nextId, NewRow(w, r));
  }

  /** The three remaining steps of a validated reschedule, with nobody in its way. */
  lemma MoveFinishes(w: World, t: nat, now: int) returns (steps: seq<Action>)
    requires ReadyToMove(w, t)
    ensures Leads(w, steps, AfterMove(w, t, now))
  {
    var w2 := MoveClaims(w, t, now);
    MoveCommits(w, w2, t, now);
    var w3 := Apply(w2, Action.Commit(t));
    assert w3 == AfterMove(w, t, now);
    LeadsThree(w, Action.Lift(t, now), Action.Claim(t), Action.Commit(t));
    steps := [Action.Lift(t, now), Action.Claim(t), Action.Commit(t)];
  }

  /** Two transactions that have both validated a reschedule of booking id. */
  function BothPassed(w: World, r0: Request, r1: Request): World {
    w.(txns := map[0 := Txn(r0, Passed, map[]), 1 := Txn(r1, Passed, map[])])
  }

  lemma OnePasses(w: World, t: nat, r: Request)
    requires t !in w.txns && MayPass(w, r)
    ensures Leads(w, [Action.Begin(t, r), Action.Validate(t, true)], With(w, t, Txn(r, Passed, map[])))
  {
    var w1 := Apply(w, Action.Begin(t, r));
    var w2 := Apply(w1, Action.Validate(t, true));
    assert w2 == With(w, t, Txn(r, Passed, map[]));
    assert [Action.Begin(t, r), Action.Validate(t, true)][1..] == [Action.Validate(t, true)];
    assert Leads(w1, [Action.Validate(t, true)], w2);
  }

  lemma BothPass(w: World, r0: Request, r1: Request)
    requires w.txns == map[] && MayPass(w, r0) && MayPass(w, r1)
    ensures Leads(w, [Action.Begin(0, r0), Action.Validate(0, true)] + [Action.Begin(1, r1), Action.Validate(1, true)],
                  BothPassed(w, r0, r1))
  {
    var mid := w.(txns := map[0 := Txn(r0, Passed, map[])]);
    OnePasses(w, 0, r0);
    OnePasses(mid, 1, r1);
    assert With(mid, 1, Txn(r1, Passed, map[])) == BothPassed(w, r0, r1);
    LeadsOn(w, [Action.Begin(0, r0), Action.Validate(0, true)], mid,
            [Action.Begin(1, r1), Action.Validate(1, true)], BothPassed(w, r0, r1));
  }

  ghost predicate TwoMoves(w: World, r0: Request, r1: Request) {
    && r0.RescheduleRequest? && r1.RescheduleRequest?
    && r0.id == r1.id && r0.org == r1.org && r0.start != r1.start && r0.org in w.orgs
    && InOrg(w.committed, r0.id, r0.org)
    && forall j :: j in w.committed ==>
         !w.committed[j].HoldsKey(r0.org, r0.start) && !w.committed[j].HoldsKey(r1.org, r1.start)
  }

  ghost function MovedTwice(w: World, r0: Request, r1: Request, now: int): Table
    requires TwoMoves(w, r0, r1)
  {
    var once := Moved(w.committed, r0.id, r0.actor, now, w.nextId, NewRow(w, r0));
    Moved(once, r1.id, r1.actor, now, w.nextId + 1, NewRow(w, r1))
  }

  lemma FirstIsReady(w: World, r0: Request, r1: Request)
    requires CommittedOk(w) && TwoMoves(w, r0, r1)
    ensures ReadyToMove(BothPassed(w, r0, r1), 0)
  {
  }

  lemma SecondIsReady(w: World, r0: Request, r1: Request, now: int)
    requires CommittedOk(w) && TwoMoves(w, r0, r1) && ReadyToMove(BothPassed(w, r0, r1), 0)
    ensures var w1 := AfterMove(BothPassed(w, r0, r1), 0, now);
      ReadyToMove(w1, 1) && AfterMove(w1, 1, now).committed == MovedTwice(w, r0, r1, now)
  {
    var w0 := BothPassed(w, r0, r1);
    var w1 := AfterMove(w0, 0, now);
    assert NewRow(w0, r0) == NewRow(w, r0) && NewRow(w1, r1) == NewRow(w, r1);
    assert w1.txns[1].request == r1;
  }

  lemma BothMove(w: World, r0: Request, r1: Request, now: int) returns (moves: seq<Action>, end: World)
    requires CommittedOk(w) && TwoMoves(w, r0, r1)
    ensures Leads(BothPassed(w, r0, r1), moves, end) && end.committed == MovedTwice(w, r0, r1, now)
  {
    var w0 := BothPassed(w, r0, r1);
    FirstIsReady(w, r0, r1);
    var w1 := AfterMove(w0, 0, now);
    SecondIsReady(w, r0, r1, now);
    var first := MoveFinishes(w0, 0, now);
    var second := MoveFinishes(w1, 1, now);
    end := AfterMove(w1, 1, now);
    LeadsOn(w0, first, w1, second, end);
    moves := first + second;
  }

  lemma CountBothMoves(w: World, r0: Request, r1: Request, now: int)
    requires CommittedOk(w) && TwoMoves(w, r0, r1) && w.committed[r0.id].status.Active?
    ensures var user := w.committed[r0.id].user;
      |ActiveIds(MovedTwice(w, r0, r1, now), r0.org, user)| == |ActiveIds(w.committed, r0.org, user)| + 1
  {
    var row0, row1 := NewRow(w, r0), NewRow(w, r1);
    var mid := Moved(w.committed, r0.id, r0.actor, now, w.nextId, row0);
    CountMove(w.committed, r0.id, r0.actor, now, w.nextId, row0, row0.org, row0.user);
    CountMove(mid, r1.id, r1.actor, now, w.nextId + 1, row1, row0.org, row0.user);
  }

  /** Conservation needs the calls to be atomic: two interleaved reschedules of one active booking, onto
      different free keys that pass the checks, can both commit and leave its user one booking more. */
  lemma RescheduledTwice(w: World, r0: Request, r1: Request, now: int) returns (actions: seq<Action>, end: World)
    requires CommittedOk(w) && w.txns == map[] && TwoMoves(w, r0, r1) && MayPass(w, r0) && MayPass(w, r1)
    ensures Leads(w, actions, end)
    ensures var user := w.committed[r0.id].user;
      |ActiveIds(end.committed, r0.org, user)| == |ActiveIds(w.committed, r0.org, user)| + 1
  {
    var opening := [Action.Begin(0, r0), Action.Validate(0, true)] + [Action.Begin(1, r1), Action.Validate(1, true)];
    BothPass(w, r0, r1);
    var moves;
    moves, end := BothMove(w, r0, r1, now);
    LeadsOn(w, opening, BothPassed(w, r0, r1), moves, end);
    actions := opening + moves;
    CountBothMoves(w, r0, r1, now);
  }

  /** Transaction t has committed the cancellation it validated. */
  function AfterCancel(w: World, t: nat, r: Request, now: int): World
    requires r.CancelRequest? && r.id in w.committed
  {
    w.(committed := w.committed[r.id := w.committed[r.id].Cancel(now, r.actor)],
       txns := w.txns[t := Txn(r, Committed, map[])])
  }

  lemma CancelFinishes(w: World, t: nat, r: Request, now: int)
    requires t in w.txns && w.txns[t] == Txn(r, Passed, map[]) && r.CancelRequest? && r.id in w.committed
    requires forall t' :: t' in w.txns ==> w.txns[t'].pending == map[]
    ensures Leads(w, [Action.Lift(t, now), Action.Commit(t)], AfterCancel(w, t, r, now))
  {
    var w1 := Apply(w, Action.Lift(t, now));
    var w2 := Apply(w1, Action.Commit(t));
    assert w1.View(t) == w.committed[r.id := w.committed[r.id].Cancel(now, r.actor)];
    assert w2.txns == AfterCancel(w, t, r, now).txns;
    assert [Action.Lift(t, now), Action.Commit(t)][1..] == [Action.Commit(t)];
    assert Leads(w1, [Action.Commit(t)], w2);
  }

  lemma LateMove(w: World, r: Request, c: Request, mid: World, now: int) returns (rest: seq<Action>, end: World)
    requires CommittedOk(w) && r.RescheduleRequest? && c.CancelRequest? && c.id == r.id
    requires MayPass(w, r) && mid == AfterCancel(BothPassed(w, r, c), 1, c, now)
    requires forall j :: j in w.committed ==> !w.committed[j].HoldsKey(r.org, r.start)
    ensures Leads(mid, rest, end)
    ensures var user := w.committed[r.id].user;
      |ActiveIds(end.committed, r.org, user)| == |ActiveIds(mid.committed, r.org, user)| + 1
  {
    assert mid.txns[0] == Txn(r, Passed, map[]);
    rest := MoveFinishes(mid, 0, now);
    end := AfterMove(mid, 0, now);
    var row := NewRow(mid, r);
    CountMove(mid.committed, r.id, r.actor, now, mid.nextId, row, row.org, row.user);
  }

  /** A cancelled booking can come back: a reschedule is validated, the booking is cancelled meanwhile, and the
      reschedule goes on to add an active one. */
  lemma CancelledComesBack(w: World, r: Request, c: Request, now: int)
    returns (first: seq<Action>, mid: World, rest: seq<Action>, end: World)
    requires CommittedOk(w) && w.txns == map[] && r.RescheduleRequest? && c.CancelRequest? && c.id == r.id
    requires MayPass(w, r) && MayPass(w, c)
    requires forall j :: j in w.committed ==> !w.committed[j].HoldsKey(r.org, r.start)
    ensures Leads(w, first, mid) && r.id in mid.committed && mid.committed[r.id].status.Cancelled?
    ensures Leads(mid, rest, end)
    ensures var user := w.committed[r.id].user;
      |ActiveIds(end.committed, r.org, user)| == |ActiveIds(mid.committed, r.org, user)| + 1
  {
    var w0 := BothPassed(w, r, c);
    var opening := [Action.Begin(0, r), Action.Validate(0, true)] + [Action.Begin(1, c), Action.Validate(1, true)];
    BothPass(w, r, c);
    CancelFinishes(w0, 1, c, now);
    first, mid := opening + [Action.Lift(1, now), Action.Commit(1)], AfterCancel(w0, 1, c, now);
    LeadsOn(w, opening, w0, [Action.Lift(1, now), Action.Commit(1)], mid);
    rest, end := LateMove(w, r, c, mid, now);
  }
}
