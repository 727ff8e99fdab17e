/** The booking calls as interleaved database transactions. Each call reads and validates, sends its
    writes, and commits; another transaction sees only what is committed, an update waits for the row
    lock, and an insert waits while an uncommitted transaction has a stake in its index key. */
module Interleaving {
  import opened Bookings
  import opened Slots
  import opened Validation

  datatype Request =
    | CreateRequest(org: int, user: int, start: int)
    | CancelRequest(org: int, actor: int, id: nat)
    | RescheduleRequest(org: int, actor: int, id: nat, start: int)
  {
    predicate Inserts() { !CancelRequest? }

    predicate Updates() { !CreateRequest? }
  }

  /** Passed: read and validated. Lifted: the cancellation is flushed. Claimed: the insert is flushed. */
  datatype Phase = Ready | Passed | Lifted | Claimed | Committed | Refused | Conflicted | Aborted

  /** A transaction and the rows it has written but not committed. */
  datatype Txn = Txn(request: Request, phase: Phase, pending: Table) {
    predicate Open() { phase in {Ready, Passed, Lifted, Claimed} }
  }

  datatype World = World(orgs: map<int, Organization>, grids: map<int, seq<GridRule>>,
                         committed: Table, nextId: nat, txns: map<nat, Txn>)
  {
    /** The rows as transaction t sees them. */
    function View(t: nat): Table
      requires t in txns
    {
      committed + txns[t].pending
    }
  }

  // ----- steps -----

  datatype Action =
    | Begin(t: nat, request: Request)
    | Validate(t: nat, passes: bool)
    | Lift(t: nat, now: int)
    | Claim(t: nat)
    | Commit(t: nat)
    | Abort(t: nat)

  /** These uncommitted rows decide whether the key will be free: one of them holds it, or replaces a
      committed row that does. */
  ghost predicate Stake(committed: Table, pending: Table, org: int, start: int) {
    exists id :: id in pending &&
      (pending[id].HoldsKey(org, start) || (id in committed && committed[id].HoldsKey(org, start)))
  }

  ghost predicate KeyContended(w: World, t: nat, org: int, start: int) {
    exists t' :: t' in w.txns && t' != t && Stake(w.committed, w.txns[t'].pending, org, start)
  }

  ghost predicate RowLocked(w: World, t: nat, id: nat) {
    exists t' :: t' in w.txns && t' != t && id in w.txns[t'].pending
  }

  /** What an inserting request has checked against the organization and its grid. */
  ghost predicate GridPassed(orgs: map<int, Organization>, grids: map<int, seq<GridRule>>, r: Request)
    requires r.Inserts()
  {
    && r.org in orgs && 0 < orgs[r.org].duration
    && GridCheck(orgs[r.org], GridOf(grids, r.org), r.start, orgs[r.org].SlotFrom(r.start).end).None?
  }

  /** What a request must have seen to go on. The checks that depend on the clock, the exceptions or the
      actor's role may come out either way. */
  ghost predicate MayPass(w: World, r: Request) {
    && (r.Inserts() ==> GridPassed(w.orgs, w.grids, r))
    && (r.Updates() ==> InOrg(w.committed, r.id, r.org) && w.committed[r.id].status.Active?)
  }

  ghost predicate MayLift(w: World, t: nat, r: Request) {
    r.Updates() && r.id in w.committed && !RowLocked(w, t, r.id)
  }

  ghost predicate MayClaim(w: World, t: nat, r: Request)
    requires r.Inserts()
  {
    r.org in w.orgs && (r.Updates() ==> r.id in w.committed) && !KeyContended(w, t, r.org, r.start)
  }

  ghost predicate Enabled(w: World, a: Action) {
    match a
    case Begin(t, _) => t !in w.txns
    case Validate(t, passes) =>
      t in w.txns && w.txns[t].phase.Ready? && (passes ==> MayPass(w, w.txns[t].request))
    case Lift(t, _) =>
      t in w.txns && w.txns[t].phase.Passed? && MayLift(w, t, w.txns[t].request)
    case Claim(t) =>
      && t in w.txns && w.txns[t].request.Inserts()
      && w.txns[t].phase == (if w.txns[t].request.Updates() then Lifted else Passed)
      && MayClaim(w, t, w.txns[t].request)
    case Commit(t) =>
      t in w.txns && w.txns[t].phase == if w.txns[t].request.Inserts() then Claimed else Lifted
    case Abort(t) => t in w.txns && w.txns[t].Open()
  }

  /** The row an insert writes; a reschedule keeps the user of the row it cancels. */
  function RowFor(orgs: map<int, Organization>, c: Table, r: Request): Booking
    requires r.Inserts() && r.org in orgs && (r.Updates() ==> r.id in c)
  {
    NewBooking(r.org, if r.CreateRequest? then r.user else c[r.id].user, orgs[r.org].SlotFrom(r.start))
  }

  function NewRow(w: World, r: Request): Booking
    requires r.Inserts() && r.org in w.orgs && (r.Updates() ==> r.id in w.committed)
  {
    RowFor(w.orgs, w.committed, r)
  }

  function With(w: World, t: nat, txn: Txn): World { w.(txns := w.txns[t := txn]) }

  /** The index check of a flushed insert: refusal rolls the transaction back. */
  function ApplyClaim(w: World, t: nat, row: Booking): World
    requires t in w.txns
  {
    var used := w.(nextId := w.nextId + 1);
    if KeyTaken(w.View(t), w.nextId, row.org, row.start)
    then With(used, t, w.txns[t].(phase := Conflicted, pending := map[]))
    else With(used, t, w.txns[t].(phase := Claimed, pending := w.txns[t].pending[w.nextId := row]))
  }

  ghost function Apply(w: World, a: Action): World
    requires Enabled(w, a)
  {
    match a
    case Begin(t, request) => With(w, t, Txn(request, Ready, map[]))
    case Validate(t, passes) => With(w, t, w.txns[t].(phase := if passes then Passed else Refused))
    case Lift(t, now) =>
      var r := w.txns[t].request;
      With(w, t, Txn(r, Lifted, map[r.id := w.committed[r.id].Cancel(now, r.actor)]))
    case Claim(t) => ApplyClaim(w, t, NewRow(w, w.txns[t].request))
    case Commit(t) => With(w.(committed := w.View(t)), t, w.txns[t].(phase := Committed, pending := map[]))
    case Abort(t) => With(w, t, w.txns[t].(phase := Aborted, pending := map[]))
  }

  /** The actions, taken in order from w, are all possible and lead to end. */
  ghost predicate Leads(w: World, actions: seq<Action>, end: World)
    decreases |actions|
  {
    if actions == [] then end == w
    else Enabled(w, actions[0]) && Leads(Apply(w, actions[0]), actions[1..], end)
  }

  /** Only transaction t has moved. */
  ghost predicate Moves(w: World, next: World, t: nat) {
    && next.orgs == w.orgs && t in next.txns && next.txns == w.txns[t := next.txns[t]]
    && (t in w.txns ==> next.txns[t].request == w.txns[t].request)
  }

  lemma StepMoves(w: World, a: Action)
    requires Enabled(w, a)
    ensures Moves(w, Apply(w, a), a.t)
    ensures !a.Commit? ==> Apply(w, a).committed == w.committed
  {
  }

  // ----- what every step keeps -----

  /** Organization, user, start and end are the same. */
  ghost predicate SameBooking(a: Booking, b: Booking) {
    a.org == b.org && a.user == b.user && a.start == b.start && a.end == b.end
  }

  /** Uncommitted rows are cancellations of committed rows and new active rows, never anything else. */
  ghost predicate PendingOk(committed: Table, nextId: nat, pending: Table) {
    forall id :: id in pending ==>
      && id < nextId && RowOk(pending[id])
      && (id in committed <==> pending[id].status.Cancelled?)
      && (id in committed ==> SameBooking(committed[id], pending[id]))
  }

  ghost predicate TxnOk(w: World, txn: Txn) {
    && PendingOk(w.committed, w.nextId, txn.pending)
    && IndexHolds(w.committed + txn.pending)
    && (txn.phase in {Lifted, Claimed} || txn.pending == map[])
    && (txn.phase in {Passed, Lifted, Claimed} ==>
          && (txn.request.Inserts() ==> GridPassed(w.orgs, w.grids, txn.request))
          && (txn.request.Updates() ==> InOrg(w.committed, txn.request.id, txn.request.org)))
  }

  /** Two transactions write different rows, and neither has a stake in a key the other claims. */
  ghost predicate Apart(committed: Table, p: Table, q: Table) {
    && p.Keys !! q.Keys
    && forall id :: id in p && p[id].status.Active? ==> !Stake(committed, q, p[id].org, p[id].start)
  }

  ghost predicate CommittedOk(w: World) {
    && (forall o :: o in w.orgs ==> w.orgs[o].Valid())
    && (forall id :: id in w.committed ==> id < w.nextId && RowOk(w.committed[id]))
    && IndexHolds(w.committed)
  }

  ghost predicate Inv(w: World) {
    && CommittedOk(w)
    && (forall t :: t in w.txns ==> TxnOk(w, w.txns[t]))
    && (forall t, t' :: t in w.txns && t' in w.txns && t != t' ==>
          Apart(w.committed, w.txns[t].pending, w.txns[t'].pending))
  }

  /** A transaction without uncommitted rows disturbs no other. */
  lemma EmptyIsApart(w: World, q: Table)
    ensures Apart(w.committed, map[], q)
    ensures forall id :: id in q ==> !Stake(w.committed, map[], q[id].org, q[id].start)
    ensures Apart(w.committed, q, map[])
  {
  }

  /** Replacing the record of one transaction. */
  lemma WithKeepsInv(w: World, nextId: nat, t: nat, txn: Txn)
    requires Inv(w) && w.nextId <= nextId && TxnOk(w.(nextId := nextId), txn)
    requires forall t' :: t' in w.txns && t' != t ==>
      Apart(w.committed, txn.pending, w.txns[t'].pending) && Apart(w.committed, w.txns[t'].pending, txn.pending)
    ensures Inv(With(w.(nextId := nextId), t, txn))
  {
    var w' := With(w.(nextId := nextId), t, txn);
    forall t' | t' in w'.txns
      ensures TxnOk(w', w'.txns[t'])
    {
      if t' != t { assert TxnOk(w, w.txns[t']); }
    }
  }

  lemma ClearedKeepsInv(w: World, nextId: nat, t: nat, txn: Txn)
    requires Inv(w) && w.nextId <= nextId && txn.pending == map[]
    requires txn.phase in {Ready, Refused, Conflicted, Aborted, Committed} || TxnOk(w, txn)
    ensures Inv(With(w.(nextId := nextId), t, txn))
  {
    assert w.committed + map[] == w.committed;
    forall t' | t' in w.txns { EmptyIsApart(w, w.txns[t'].pending); }
    WithKeepsInv(w, nextId, t, txn);
  }

  /** The row being cancelled cannot be in the way of a key another transaction has claimed. */
  lemma LiftIsApart(w: World, t': nat, id: nat, row: Booking)
    requires Inv(w) && t' in w.txns && id in w.committed && id !in w.txns[t'].pending && row.status.Cancelled?
    ensures var pending: Table := map[id := row];
      Apart(w.committed, pending, w.txns[t'].pending) && Apart(w.committed, w.txns[t'].pending, pending)
  {
    var pending: Table, q := map[id := row], w.txns[t'].pending;
    var view := w.committed + q;
    assert TxnOk(w, w.txns[t']);
    forall k | k in q && q[k].status.Active?
      ensures !Stake(w.committed, pending, q[k].org, q[k].start)
    {
      assert view[id] == w.committed[id] && view[k] == q[k];
    }
  }

  lemma LiftKeepsInv(w: World, t: nat, now: int)
    requires Inv(w) && Enabled(w, Action.Lift(t, now))
    ensures Inv(Apply(w, Action.Lift(t, now)))
  {
    var r := w.txns[t].request;
    var row := w.committed[r.id].Cancel(now, r.actor);
    var pending: Table := map[r.id := row];
    var txn := Txn(r, Lifted, pending);
    CancelKeepsIndex(w.committed, r.id, now, r.actor);
    assert w.committed + pending == w.committed[r.id := row];
    assert TxnOk(w, w.txns[t]);
    forall t' | t' in w.txns && t' != t
      ensures Apart(w.committed, pending, w.txns[t'].pending) && Apart(w.committed, w.txns[t'].pending, pending)
    {
      LiftIsApart(w, t', r.id, row);
    }
    WithKeepsInv(w, w.nextId, t, txn);
  }

  lemma ClaimTables(committed: Table, pending: Table, n: nat, row: Booking)
    requires PendingOk(committed, n, pending) && IndexHolds(committed + pending) && n !in committed
    requires row.status.Active? && RowOk(row) && !KeyTaken(committed + pending, n, row.org, row.start)
    ensures PendingOk(committed, n + 1, pending[n := row]) && IndexHolds(committed + pending[n := row])
  {
    assert committed + pending[n := row] == (committed + pending)[n := row];
    InsertKeepsIndex(committed + pending, n, row);
  }

  lemma NewRowOk(w: World, r: Request)
    requires CommittedOk(w) && r.Inserts() && r.org in w.orgs && (r.Updates() ==> r.id in w.committed)
    ensures RowOk(NewRow(w, r)) && NewRow(w, r).status.Active?
  {
    assert w.orgs[r.org].Valid();
  }

  lemma ClaimedTxnOk(w: World, txn: Txn, row: Booking)
    requires CommittedOk(w) && TxnOk(w, txn) && txn.phase in {Passed, Lifted} && row.status.Active? && RowOk(row)
    requires !KeyTaken(w.committed + txn.pending, w.nextId, row.org, row.start)
    ensures TxnOk(w.(nextId := w.nextId + 1), txn.(phase := Claimed, pending := txn.pending[w.nextId := row]))
  {
    ClaimTables(w.committed, txn.pending, w.nextId, row);
  }

  lemma ClaimIsApart(committed: Table, p: Table, q: Table, n: nat, row: Booking)
    requires Apart(committed, p, q) && Apart(committed, q, p) && row.status.Active?
    requires n !in q && n !in committed && !Stake(committed, q, row.org, row.start)
    ensures Apart(committed, p[n := row], q) && Apart(committed, q, p[n := row])
  {
  }

  lemma ClaimApartFrom(w: World, t: nat, t': nat, row: Booking)
    requires Inv(w) && t in w.txns && t' in w.txns && t' != t && row.status.Active?
    requires !KeyContended(w, t, row.org, row.start)
    ensures var p, q := w.txns[t].pending[w.nextId := row], w.txns[t'].pending;
      Apart(w.committed, p, q) && Apart(w.committed, q, p)
  {
    assert TxnOk(w, w.txns[t']);
    assert !Stake(w.committed, w.txns[t'].pending, row.org, row.start);
    ClaimIsApart(w.committed, w.txns[t].pending, w.txns[t'].pending, w.nextId, row);
  }

  lemma AcceptedClaimKeepsInv(w: World, t: nat, row: Booking)
    requires Inv(w) && t in w.txns && w.txns[t].phase in {Passed, Lifted} && row.status.Active? && RowOk(row)
    requires !KeyContended(w, t, row.org, row.start) && !KeyTaken(w.View(t), w.nextId, row.org, row.start)
    ensures Inv(With(w.(nextId := w.nextId + 1), t,
                     w.txns[t].(phase := Claimed, pending := w.txns[t].pending[w.nextId := row])))
  {
    var txn := w.txns[t];
    ClaimedTxnOk(w, txn, row);
    forall t' | t' in w.txns && t' != t { ClaimApartFrom(w, t, t', row); }
    WithKeepsInv(w, w.nextId + 1, t, txn.(phase := Claimed, pending := txn.pending[w.nextId := row]));
  }

  lemma RowClaimKeepsInv(w: World, t: nat, row: Booking)
    requires Inv(w) && t in w.txns && w.txns[t].phase in {Passed, Lifted} && row.status.Active? && RowOk(row)
    requires !KeyContended(w, t, row.org, row.start)
    ensures Inv(ApplyClaim(w, t, row))
  {
    if KeyTaken(w.View(t), w.nextId, row.org, row.start) {
      ClearedKeepsInv(w, w.nextId + 1, t, w.txns[t].(phase := Conflicted, pending := map[]));
    } else {
      AcceptedClaimKeepsInv(w, t, row);
    }
  }

  lemma ClaimKeepsInv(w: World, t: nat)
    requires Inv(w) && Enabled(w, Action.Claim(t))
    ensures Inv(Apply(w, Action.Claim(t)))
  {
    var row := NewRow(w, w.txns[t].request);
    NewRowOk(w, w.txns[t].request);
    RowClaimKeepsInv(w, t, row);
  }

  /** Two views that each respect the index still do when both sets of writes are in. */
  lemma MergeKeepsIndex(c: Table, p: Table, q: Table)
    requires IndexHolds(c + p) && IndexHolds(c + q) && Apart(c, p, q) && Apart(c, q, p)
    ensures IndexHolds(c + p + q)
  {
    var all, cp, cq := c + p + q, c + p, c + q;
    forall i, j | i in all && j in all && i != j && all[i].status.Active?
      ensures !all[j].HoldsKey(all[i].org, all[i].start)
    {
      if i !in q && j !in q {
        assert all[i] == cp[i] && all[j] == cp[j];
      } else if i !in p && j !in p {
        assert all[i] == cq[i] && all[j] == cq[j];
      } else if i in p {
        assert j in q && p[i].status.Active? && !Stake(c, q, p[i].org, p[i].start);
      } else {
        assert i in q && j in p && q[i].status.Active? && !Stake(c, p, q[i].org, q[i].start);
      }
    }
  }

  /** After the rows p are committed, the transaction with the rows q is as it was. */
  lemma CommitKeepsTxn(w: World, t: nat, t': nat)
    requires Inv(w) && t in w.txns && t' in w.txns && t != t'
    ensures TxnOk(w.(committed := w.View(t)), w.txns[t'])
  {
    var p, q := w.txns[t].pending, w.txns[t'].pending;
    assert TxnOk(w, w.txns[t]) && TxnOk(w, w.txns[t']) && Apart(w.committed, p, q) && Apart(w.committed, q, p);
    MergeKeepsIndex(w.committed, p, q);
    forall id | id in q
      ensures id !in p
    {
    }
  }

  lemma CommitKeepsApart(c: Table, p: Table, q: Table, q': Table)
    requires Apart(c, q, q') && p.Keys !! q'.Keys
    ensures Apart(c + p, q, q')
  {
    forall id | id in q && q[id].status.Active?
      ensures !Stake(c + p, q', q[id].org, q[id].start)
    {
      if Stake(c + p, q', q[id].org, q[id].start) {
        assert Stake(c, q', q[id].org, q[id].start);
      }
    }
  }

  lemma CommitKeepsTables(w: World, t: nat)
    requires Inv(w) && Enabled(w, Action.Commit(t))
    ensures CommittedOk(Apply(w, Action.Commit(t)))
  {
    assert TxnOk(w, w.txns[t]);
  }

  lemma FinishedTxnOk(w: World, txn: Txn)
    requires IndexHolds(w.committed) && txn.pending == map[] && txn.phase !in {Passed, Lifted, Claimed}
    ensures TxnOk(w, txn)
  {
    assert w.committed + txn.pending == w.committed;
  }

  /** What a transaction needs of the world does not include the other transactions. */
  lemma TxnOkElsewhere(w: World, w': World, txn: Txn)
    requires TxnOk(w, txn) && w'.(txns := w.txns) == w
    ensures TxnOk(w', txn)
  {
  }

  lemma CommitKeepsPair(w: World, t: nat, t1: nat, t2: nat)
    requires Inv(w) && Enabled(w, Action.Commit(t)) && t1 in w.txns && t2 in w.txns && t1 != t2
    ensures var w1 := Apply(w, Action.Commit(t)); Apart(w1.committed, w1.txns[t1].pending, w1.txns[t2].pending)
  {
    var w1 := Apply(w, Action.Commit(t));
    if t1 == t {
      EmptyIsApart(w1, w1.txns[t2].pending);
    } else if t2 == t {
      EmptyIsApart(w1, w1.txns[t1].pending);
    } else {
      assert Apart(w.committed, w.txns[t].pending, w.txns[t2].pending);
      CommitKeepsApart(w.committed, w.txns[t].pending, w.txns[t1].pending, w.txns[t2].pending);
    }
  }

  lemma CommitKeepsInv(w: World, t: nat)
    requires Inv(w) && Enabled(w, Action.Commit(t))
    ensures Inv(Apply(w, Action.Commit(t)))
  {
    var w1 := Apply(w, Action.Commit(t));
    CommitKeepsTables(w, t);
    forall t' | t' in w1.txns
      ensures TxnOk(w1, w1.txns[t'])
    {
      if t' != t {
        CommitKeepsTxn(w, t, t');
        TxnOkElsewhere(w.(committed := w.View(t)), w1, w.txns[t']);
      } else {
        FinishedTxnOk(w1, w1.txns[t]);
      }
    }
    forall t1, t2 | t1 in w1.txns && t2 in w1.txns && t1 != t2
      ensures Apart(w1.committed, w1.txns[t1].pending, w1.txns[t2].pending)
    {
      CommitKeepsPair(w, t, t1, t2);
    }
  }

  lemma StepKeepsInv(w: World, a: Action)
    requires Inv(w) && Enabled(w, a)
    ensures Inv(Apply(w, a))
  {
    match a
    case Begin(t, request) => ClearedKeepsInv(w, w.nextId, t, Txn(request, Ready, map[]));
    case Validate(t, passes) =>
      assert TxnOk(w, w.txns[t]);
      ClearedKeepsInv(w, w.nextId, t, w.txns[t].(phase := if passes then Passed else Refused));
    case Lift(t, now) => LiftKeepsInv(w, t, now);
    case Claim(t) => ClaimKeepsInv(w, t);
    case Commit(t) => CommitKeepsInv(w, t);
    case Abort(t) => ClearedKeepsInv(w, w.nextId, t, w.txns[t].(phase := Aborted, pending := map[]));
  }

  // ----- what committed rows keep -----

  /** Same booking, never back to active, and cancelled exactly when stamped. */
  ghost predicate RowKept(before: Booking, after: Booking) {
    SameBooking(before, after) && (before.status.Cancelled? ==> after.status.Cancelled?) && RowOk(after)
  }

  ghost predicate TableKept(before: Table, after: Table) {
    forall id :: id in before ==> id in after && RowKept(before[id], after[id])
  }

  lemma MergeKeepsTable(c: Table, nextId: nat, pending: Table)
    requires PendingOk(c, nextId, pending) && forall id :: id in c ==> RowOk(c[id])
    ensures TableKept(c, c + pending)
  {
  }

  lemma StepKeepsTable(w: World, a: Action)
    requires Inv(w) && Enabled(w, a)
    ensures TableKept(w.committed, Apply(w, a).committed)
  {
    StepMoves(w, a);
    if a.Commit? {
      assert TxnOk(w, w.txns[a.t]);
      MergeKeepsTable(w.committed, w.nextId, w.txns[a.t].pending);
    }
  }

  /** Under every interleaving, aborts and conflicts included: each committed state has at most one active
      booking per organization and start, and committed rows only ever turn from active to cancelled. */
  lemma {:induction false} IndexSafety(w: World, actions: seq<Action>, end: World)
    requires Inv(w) && Leads(w, actions, end)
    ensures Inv(end) && IndexHolds(end.committed) && TableKept(w.committed, end.committed)
    decreases |actions|
  {
    if actions != [] {
      StepKeepsInv(w, actions[0]);
      StepKeepsTable(w, actions[0]);
      IndexSafety(Apply(w, actions[0]), actions[1..], end);
    }
  }

  /** A world with no transactions satisfies the invariant as soon as its tables do. */
  lemma QuietWorldOk(w: World)
    requires CommittedOk(w) && w.txns == map[]
    ensures Inv(w)
  {
  }
}
