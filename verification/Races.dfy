/** What concurrency can and cannot do to bookings. */
module Races {
  import opened Availability
  import opened BookingLaws
  import opened Bookings
  import opened Conservation
  import opened Interleaving
  import opened Slots
  import opened Validation
  import opened Wrappers

  // ----- no double booking, under every interleaving -----

  ghost predicate TameRequestOf(r: Request, o: int, org: Organization, clocks: Clocks) {
    r.Inserts() && r.org == o ==> TameStart(org, r.start, clocks)
  }

  ghost predicate WorldOnGrid(w: World, o: int, org: Organization, rules: seq<GridRule>, clocks: Clocks)
    requires org.Valid()
  {
    && o in w.orgs && w.orgs[o] == org && rules == GridOf(w.grids, o)
    && RowsOnGrid(w.committed, o, org, rules, clocks)
    && forall t :: t in w.txns ==> RowsOnGrid(w.txns[t].pending, o, org, rules, clocks)
                                   && TameRequestOf(w.txns[t].request, o, org, clocks)
  }

  ghost predicate TameAction(a: Action, o: int, org: Organization, clocks: Clocks) {
    a.Begin? ==> TameRequestOf(a.request, o, org, clocks)
  }

  lemma ClaimedRowOnGrid(w: World, t: nat, o: int, org: Organization, rules: seq<GridRule>, clocks: Clocks)
    requires Inv(w) && org.Valid() && WorldOnGrid(w, o, org, rules, clocks) && Enabled(w, Action.Claim(t))
    ensures var row := NewRow(w, w.txns[t].request); row.Holds(o) ==> PlacedOnGrid(row, org, rules, clocks)
  {
    var r := w.txns[t].request;
    assert TxnOk(w, w.txns[t]);
    if r.org == o {
      GridCheckIffFitsByEnd(org, rules, r.start);
    }
  }

  lemma RecordOnGrid(w: World, w': World, t: nat, txn: Txn, o: int, org: Organization, rules: seq<GridRule>,
                     clocks: Clocks)
    requires org.Valid() && WorldOnGrid(w, o, org, rules, clocks)
    requires w'.orgs == w.orgs && w'.grids == w.grids && w'.txns == w.txns[t := txn]
    requires RowsOnGrid(w'.committed, o, org, rules, clocks)
    requires RowsOnGrid(txn.pending, o, org, rules, clocks) && TameRequestOf(txn.request, o, org, clocks)
    ensures WorldOnGrid(w', o, org, rules, clocks)
  {
  }

  lemma MergedOnGrid(a: Table, b: Table, o: int, org: Organization, rules: seq<GridRule>, clocks: Clocks)
    requires org.Valid() && RowsOnGrid(a, o, org, rules, clocks) && RowsOnGrid(b, o, org, rules, clocks)
    ensures RowsOnGrid(a + b, o, org, rules, clocks)
  {
  }

  lemma RowClaimKeepsWorldOnGrid(w: World, t: nat, row: Booking, o: int, org: Organization, rules: seq<GridRule>,
                                 clocks: Clocks)
    requires org.Valid() && WorldOnGrid(w, o, org, rules, clocks) && t in w.txns
    requires row.Holds(o) ==> PlacedOnGrid(row, org, rules, clocks)
    ensures WorldOnGrid(ApplyClaim(w, t, row), o, org, rules, clocks)
  {
    var w', p := ApplyClaim(w, t, row), w.txns[t].pending;
    assert RowsOnGrid(p[w.nextId := row], o, org, rules, clocks);
    RecordOnGrid(w, w', t, w'.txns[t], o, org, rules, clocks);
  }

  lemma ClaimKeepsWorldOnGrid(w: World, t: nat, o: int, org: Organization, rules: seq<GridRule>, clocks: Clocks)
    requires Inv(w) && org.Valid() && WorldOnGrid(w, o, org, rules, clocks) && Enabled(w, Action.Claim(t))
    ensures WorldOnGrid(Apply(w, Action.Claim(t)), o, org, rules, clocks)
  {
    ClaimedRowOnGrid(w, t, o, org, rules, clocks);
    RowClaimKeepsWorldOnGrid(w, t, NewRow(w, w.txns[t].request), o, org, rules, clocks);
  }

  lemma StepKeepsWorldOnGrid(w: World, a: Action, o: int, org: Organization, rules: seq<GridRule>, clocks: Clocks)
    requires Inv(w) && org.Valid() && WorldOnGrid(w, o, org, rules, clocks)
    requires Enabled(w, a) && TameAction(a, o, org, clocks)
    ensures WorldOnGrid(Apply(w, a), o, org, rules, clocks)
  {
    if a.Claim? {
      ClaimKeepsWorldOnGrid(w, a.t, o, org, rules, clocks);
    } else {
      if a.Commit? { MergedOnGrid(w.committed, w.txns[a.t].pending, o, org, rules, clocks); }
      RecordOnGrid(w, Apply(w, a), a.t, Apply(w, a).txns[a.t], o, org, rules, clocks);
    }
  }

  lemma {:induction false} RunKeepsWorldOnGrid(w: World, actions: seq<Action>, end: World, o: int, org: Organization,
                                               rules: seq<GridRule>, clocks: Clocks)
    requires Inv(w) && org.Valid() && WorldOnGrid(w, o, org, rules, clocks) && Leads(w, actions, end)
    requires forall a :: a in actions ==> TameAction(a, o, org, clocks)
    ensures Inv(end) && WorldOnGrid(end, o, org, rules, clocks)
    decreases |actions|
  {
    if actions != [] {
      StepKeepsInv(w, actions[0]);
      StepKeepsWorldOnGrid(w, actions[0], o, org, rules, clocks);
      RunKeepsWorldOnGrid(Apply(w, actions[0]), actions[1..], end, o, org, rules, clocks);
    }
  }

  lemma InterleavingPlacesBookings(w: World, actions: seq<Action>, end: World, o: int, clocks: Clocks)
    requires CommittedOk(w) && w.txns == map[] && Leads(w, actions, end) && o in w.orgs
    requires forall k :: k in w.committed ==> !w.committed[k].Holds(o)
    requires forall a :: a in actions ==> TameAction(a, o, w.orgs[o], clocks)
    ensures w.orgs[o].Valid() && RowsOnGrid(end.committed, o, w.orgs[o], GridOf(w.grids, o), clocks)
    ensures IndexHolds(end.committed)
  {
    assert w.orgs[o].Valid();
    QuietWorldOk(w);
    RunKeepsWorldOnGrid(w, actions, end, o, w.orgs[o], GridOf(w.grids, o), clocks);
  }

  /** No double booking under concurrency: no interleaving double-books when the requested starts are plain and clocks
      do not jump forward inside their slots, or are under one offset. */
  lemma NoConcurrentDoubleBooking(w: World, actions: seq<Action>, end: World, o: int, clocks: Clocks, i: nat, j: nat)
    requires CommittedOk(w) && w.txns == map[] && Leads(w, actions, end)
    requires o in w.orgs && GridOk(GridOf(w.grids, o)) && (clocks.WithoutJumps? || clocks.Under?)
    requires forall k :: k in w.committed ==> !w.committed[k].Holds(o)
    requires forall a :: a in actions ==> TameAction(a, o, w.orgs[o], clocks)
    requires i in end.committed && j in end.committed && i != j
    requires end.committed[i].Holds(o) && end.committed[j].Holds(o)
    ensures !RangesOverlap(end.committed[i].Span(), end.committed[j].Span())
  {
    TruncationKeepsDisjoint(GridOf(w.grids, o));
    InterleavingPlacesBookings(w, actions, end, o, clocks);
    PlacedApart(end.committed, o, w.orgs[o], GridOf(w.grids, o), clocks, i, j);
  }

  // ----- exactly one winner -----

  /** One free key, and the bookings there are when the race for it begins. */
  datatype Prize = Prize(org: int, start: int, before: Table) {
    /** A request to create a booking with this key. */
    predicate Wants(r: Request) { r.CreateRequest? && r.org == org && r.start == start }

    /** Any other request that neither asks for the key nor touches bookings made meanwhile. */
    predicate Ignores(r: Request) {
      && (r.Inserts() ==> r.org != org || r.start != start)
      && (r.Updates() ==> r.id in before)
    }

    predicate FreeIn(c: Table) { forall id :: id in c ==> !c[id].HoldsKey(org, start) }
  }

  ghost predicate StartingLine(w: World, prize: Prize) {
    && CommittedOk(w) && w.txns == map[] && prize.org in w.orgs
    && prize.before == w.committed && prize.FreeIn(w.committed)
  }

  /** The moves of a race: transactions begin at any time, and competitors pass validation and do not give up. */
  ghost predicate RaceMove(w: World, a: Action, prize: Prize)
    requires Enabled(w, a)
  {
    match a
    case Begin(_, r) => prize.Wants(r) || prize.Ignores(r)
    case Validate(t, passes) => prize.Wants(w.txns[t].request) ==> passes
    case Abort(t) => !prize.Wants(w.txns[t].request)
    case _ => true
  }

  /** These moves, in order, lead from w to end. */
  ghost predicate Race(w: World, actions: seq<Action>, end: World, prize: Prize)
    decreases |actions|
  {
    if actions == [] then end == w
    else
      && Enabled(w, actions[0]) && RaceMove(w, actions[0], prize)
      && Race(Apply(w, actions[0]), actions[1..], end, prize)
  }

  /** Who has the key: nobody, a transaction that has flushed its row, or a committed row. */
  datatype Lead = Nobody | Claimant(t: nat) | Holder(t: nat, id: nat)

  /** Everybody competes for the key or ignores it, and the bookings there were do not hold it. */
  ghost predicate Roles(w: World, prize: Prize) {
    && prize.org in w.orgs
    && (forall t :: t in w.txns ==> prize.Wants(w.txns[t].request) || prize.Ignores(w.txns[t].request))
    && (forall id :: id in prize.before ==> id in w.committed && !w.committed[id].HoldsKey(prize.org, prize.start))
  }

  /** The competitors that do not lead have not claimed yet, or lost if anybody leads. */
  ghost predicate OthersBehind(w: World, prize: Prize, lead: Lead) {
    forall t :: t in w.txns && prize.Wants(w.txns[t].request) && (lead.Nobody? || lead.t != t) ==>
      w.txns[t].phase in {Ready, Passed} || (!lead.Nobody? && w.txns[t].phase == Conflicted)
  }

  ghost predicate Leading(w: World, prize: Prize, lead: Lead) {
    match lead
    case Nobody => prize.FreeIn(w.committed)
    case Claimant(t) =>
      t in w.txns && prize.Wants(w.txns[t].request) && w.txns[t].phase == Claimed && prize.FreeIn(w.committed)
    case Holder(t, id) =>
      && t in w.txns && prize.Wants(w.txns[t].request) && w.txns[t].phase == Committed
      && id in w.committed && id !in prize.before
      && prize.org in w.orgs && w.committed[id] == NewRow(w, w.txns[t].request)
  }

  ghost predicate AllCompete(w: World, prize: Prize) { forall t :: t in w.txns ==> prize.Wants(w.txns[t].request) }

  /** When only competitors run, the winner's row is the only change. */
  ghost predicate NothingElse(w: World, prize: Prize, lead: Lead) {
    AllCompete(w, prize) ==>
      if lead.Holder? then lead.id in w.committed && w.committed == prize.before[lead.id := w.committed[lead.id]]
      else w.committed == prize.before
  }

  ghost predicate Shape(w: World, prize: Prize, lead: Lead) {
    Roles(w, prize) && OthersBehind(w, prize, lead) && Leading(w, prize, lead) && NothingElse(w, prize, lead)
  }

  /** How the race stands. */
  ghost predicate Standing(w: World, prize: Prize, lead: Lead) { Tracked(w) && Shape(w, prize, lead) }

  // ----- what each move does to the standing -----

  lemma SameCompetitors(w: World, next: World, t: nat, prize: Prize)
    requires Moves(w, next, t) && AllCompete(next, prize)
    ensures AllCompete(w, prize)
  {
    forall t' | t' in w.txns
      ensures prize.Wants(w.txns[t'].request)
    {
      assert next.txns[t'].request == w.txns[t'].request;
    }
  }

  lemma QuietShape(w: World, next: World, t: nat, prize: Prize, lead: Lead)
    requires Shape(w, prize, lead) && Moves(w, next, t) && next.committed == w.committed
    requires prize.Wants(next.txns[t].request) || prize.Ignores(next.txns[t].request)
    requires prize.Wants(next.txns[t].request) ==>
               next.txns[t].phase in {Ready, Passed} && (lead.Nobody? || lead.t != t)
    ensures Shape(next, prize, lead)
  {
    if AllCompete(next, prize) { SameCompetitors(w, next, t, prize); }
  }

  lemma ClaimShape(w: World, next: World, t: nat, prize: Prize)
    requires Shape(w, prize, Nobody) && Moves(w, next, t) && next.committed == w.committed && t in w.txns
    requires prize.Wants(w.txns[t].request) && next.txns[t].phase == Claimed
    ensures Shape(next, prize, Claimant(t))
  {
    if AllCompete(next, prize) { SameCompetitors(w, next, t, prize); }
  }

  lemma LossShape(w: World, next: World, t: nat, prize: Prize, lead: Lead)
    requires Shape(w, prize, lead) && lead.Holder? && lead.t != t && Moves(w, next, t) && next.committed == w.committed
    requires t in w.txns && prize.Wants(w.txns[t].request) && next.txns[t].phase == Conflicted
    ensures Shape(next, prize, lead)
  {
    if AllCompete(next, prize) { SameCompetitors(w, next, t, prize); }
  }

  lemma WinShape(w: World, next: World, t: nat, n: nat, prize: Prize)
    requires Shape(w, prize, Claimant(t)) && Moves(w, next, t) && next.txns[t].phase == Committed
    requires n !in w.committed && next.committed == w.committed[n := NewRow(w, w.txns[t].request)]
    ensures Shape(next, prize, Holder(t, n))
  {
    if AllCompete(next, prize) { SameCompetitors(w, next, t, prize); }
  }

  /** The commit of a transaction that ignores the key: no booking appears with it, and none that was made meanwhile
      changes. */
  ghost predicate Harmless(c: Table, after: Table, prize: Prize) {
    && (forall id :: id in c ==> id in after && (id !in prize.before ==> after[id] == c[id]))
    && (forall id :: id in after && after[id].HoldsKey(prize.org, prize.start) ==> id in c && c[id] == after[id])
  }

  lemma BystanderShape(w: World, next: World, t: nat, prize: Prize, lead: Lead)
    requires Shape(w, prize, lead) && Moves(w, next, t) && t in w.txns && !prize.Wants(w.txns[t].request)
    requires Harmless(w.committed, next.committed, prize)
    ensures Shape(next, prize, lead)
  {
    assert t in next.txns && !prize.Wants(next.txns[t].request);
  }

  // ----- every move keeps a standing -----

  lemma NothingWritten(w: World, t: nat)
    requires Tracked(w) && t in w.txns && w.txns[t].phase in {Ready, Passed, Conflicted}
    ensures w.txns[t].pending == map[]
  {
    assert WritesOk(w.orgs, w.committed, w.txns[t]);
  }

  lemma OneRow(orgs: map<int, Organization>, c: Table, txn: Txn) returns (n: nat)
    requires WritesOk(orgs, c, txn) && txn.phase == Claimed && txn.request.CreateRequest?
    ensures txn.request.org in orgs && n !in c && txn.pending == map[n := RowFor(orgs, c, txn.request)]
  {
    n :| Inserted(orgs, c, txn.request, txn.pending, n);
  }

  lemma AddRow(c: Table, n: nat, row: Booking)
    ensures var p: Table := map[n := row]; c + p == c[n := row]
  {
  }

  lemma ClaimsOneRow(w: World, t: nat) returns (n: nat)
    requires Tracked(w) && t in w.txns && w.txns[t].phase == Claimed && w.txns[t].request.CreateRequest?
    ensures w.txns[t].request.org in w.orgs && n !in w.committed
    ensures w.txns[t].pending == map[n := NewRow(w, w.txns[t].request)]
    ensures w.View(t) == w.committed[n := NewRow(w, w.txns[t].request)]
  {
    n := OneRow(w.orgs, w.committed, w.txns[t]);
    AddRow(w.committed, n, NewRow(w, w.txns[t].request));
  }

  /** Only a competitor that has claimed has uncommitted rows with the key. */
  lemma PendingKeyIsClaimed(w: World, prize: Prize, t: nat, id: nat)
    requires Tracked(w) && Roles(w, prize) && t in w.txns && id in w.txns[t].pending
    requires w.txns[t].pending[id].HoldsKey(prize.org, prize.start)
    ensures prize.Wants(w.txns[t].request) && w.txns[t].phase == Claimed
  {
    assert TxnOk(w, w.txns[t]) && WritesOk(w.orgs, w.committed, w.txns[t]);
  }

  lemma BystanderWrites(orgs: map<int, Organization>, c: Table, nextId: nat, txn: Txn, prize: Prize)
    requires PendingOk(c, nextId, txn.pending) && WritesOk(orgs, c, txn) && prize.Ignores(txn.request)
    ensures forall id :: id in txn.pending ==> !txn.pending[id].HoldsKey(prize.org, prize.start)
    ensures forall id :: id in txn.pending && id in c ==> id in prize.before
  {
  }

  lemma BystanderIsHarmless(w: World, prize: Prize, t: nat)
    requires Tracked(w) && Roles(w, prize) && t in w.txns && !prize.Wants(w.txns[t].request)
    ensures Harmless(w.committed, w.View(t), prize)
  {
    assert TxnOk(w, w.txns[t]);
    BystanderWrites(w.orgs, w.committed, w.nextId, w.txns[t], prize);
  }

  /** A move that commits nothing and is no competitor's claim leaves the race as it stood. */
  lemma QuietMoveStands(w: World, a: Action, prize: Prize, lead: Lead)
    requires Standing(w, prize, lead) && Enabled(w, a) && RaceMove(w, a, prize) && !a.Commit?
    requires a.Claim? ==> !prize.Wants(w.txns[a.t].request)
    ensures Shape(Apply(w, a), prize, lead)
  {
    StepMoves(w, a);
    QuietShape(w, Apply(w, a), a.t, prize, lead);
  }

  lemma CreateClaimOutcome(w: World, t: nat)
    requires Enabled(w, Action.Claim(t)) && w.txns[t].request.CreateRequest? && w.txns[t].pending == map[]
    ensures var r := w.txns[t].request;
      Apply(w, Action.Claim(t)).txns[t].phase
        == if KeyTaken(w.committed, w.nextId, r.org, r.start) then Conflicted else Claimed
  {
    assert w.View(t) == w.committed;
  }

  lemma FirstClaimLeads(w: World, t: nat, prize: Prize)
    requires Standing(w, prize, Nobody) && Enabled(w, Action.Claim(t)) && prize.Wants(w.txns[t].request)
    ensures Shape(Apply(w, Action.Claim(t)), prize, Claimant(t))
  {
    StepMoves(w, Action.Claim(t));
    NothingWritten(w, t);
    CreateClaimOutcome(w, t);
    ClaimShape(w, Apply(w, Action.Claim(t)), t, prize);
  }

  /** While a competitor's row is flushed but not committed, no other can claim. */
  lemma ClaimantBlocks(w: World, t: nat, prize: Prize, lead: Lead)
    requires Tracked(w) && Leading(w, prize, lead) && lead.Claimant? && t != lead.t
    ensures KeyContended(w, t, prize.org, prize.start)
  {
    var n := ClaimsOneRow(w, lead.t);
    assert w.txns[lead.t].pending[n].HoldsKey(prize.org, prize.start);
  }

  lemma IdsAreUsed(w: World, id: nat)
    requires Tracked(w) && id in w.committed
    ensures id < w.nextId
  {
  }

  lemma LaterClaimLoses(w: World, t: nat, prize: Prize, lead: Lead)
    requires Standing(w, prize, lead) && !lead.Nobody? && Enabled(w, Action.Claim(t)) && prize.Wants(w.txns[t].request)
    ensures Shape(Apply(w, Action.Claim(t)), prize, lead)
  {
    if lead.Claimant? {
      ClaimantBlocks(w, t, prize, lead);
      assert false;
    } else {
      StepMoves(w, Action.Claim(t));
      NothingWritten(w, t);
      assert w.committed[lead.id].HoldsKey(prize.org, prize.start);
      IdsAreUsed(w, lead.id);
      assert KeyTaken(w.committed, w.nextId, prize.org, prize.start);
      CreateClaimOutcome(w, t);
      LossShape(w, Apply(w, Action.Claim(t)), t, prize, lead);
    }
  }

  lemma ClaimantCommits(w: World, t: nat, prize: Prize, lead: Lead) returns (next: Lead)
    requires Standing(w, prize, lead) && Enabled(w, Action.Commit(t)) && prize.Wants(w.txns[t].request)
    ensures Shape(Apply(w, Action.Commit(t)), prize, next)
  {
    StepMoves(w, Action.Commit(t));
    var n := ClaimsOneRow(w, t);
    next := Holder(t, n);
    WinShape(w, Apply(w, Action.Commit(t)), t, n, prize);
  }

  lemma BystanderCommits(w: World, t: nat, prize: Prize, lead: Lead)
    requires Standing(w, prize, lead) && Enabled(w, Action.Commit(t)) && !prize.Wants(w.txns[t].request)
    ensures Shape(Apply(w, Action.Commit(t)), prize, lead)
  {
    StepMoves(w, Action.Commit(t));
    BystanderIsHarmless(w, prize, t);
    BystanderShape(w, Apply(w, Action.Commit(t)), t, prize, lead);
  }

  lemma RaceStep(w: World, a: Action, prize: Prize, lead: Lead) returns (next: Lead)
    requires Standing(w, prize, lead) && Enabled(w, a) && RaceMove(w, a, prize)
    ensures Standing(Apply(w, a), prize, next)
  {
    next := lead;
    StepKeepsTracked(w, a);
    if (a.Claim? || a.Commit?) && prize.Wants(w.txns[a.t].request) {
      if a.Commit? {
        next := ClaimantCommits(w, a.t, prize, lead);
      } else if lead.Nobody? {
        FirstClaimLeads(w, a.t, prize);
        next := Claimant(a.t);
      } else {
        LaterClaimLoses(w, a.t, prize, lead);
      }
    } else if a.Commit? {
      BystanderCommits(w, a.t, prize, lead);
    } else {
      QuietMoveStands(w, a, prize, lead);
    }
  }

  lemma {:induction false} RaceStands(w: World, actions: seq<Action>, end: World, prize: Prize, lead: Lead)
    returns (final: Lead)
    requires Standing(w, prize, lead) && Race(w, actions, end, prize)
    ensures Standing(end, prize, final)
    decreases |actions|
  {
    if actions == [] {
      final := lead;
    } else {
      var next := RaceStep(w, actions[0], prize, lead);
      final := RaceStands(Apply(w, actions[0]), actions[1..], end, prize, next);
    }
  }

  lemma RaceBegins(w: World, prize: Prize)
    requires StartingLine(w, prize)
    ensures Standing(w, prize, Nobody)
  {
    QuietWorldTracked(w);
  }

  /** Exactly one winner. However creates that want one free key begin, validate, claim and commit among each other
      and among transactions that ignore the key, once all of them have run to completion exactly one has
      committed, its row is the only one with the key, and all others have ended in a conflict with their
      writes rolled back. When only competitors ran, that row is the only change to the table. */
  lemma ExactlyOneWinner(w: World, actions: seq<Action>, end: World, prize: Prize, someone: nat)
    returns (winner: nat, id: nat)
    requires StartingLine(w, prize) && Race(w, actions, end, prize)
    requires someone in end.txns && prize.Wants(end.txns[someone].request)
    requires forall t :: t in end.txns && prize.Wants(end.txns[t].request) ==> !end.txns[t].Open()
    ensures winner in end.txns && prize.Wants(end.txns[winner].request) && end.txns[winner].phase == Committed
    ensures forall t :: t in end.txns && t != winner && prize.Wants(end.txns[t].request) ==>
              end.txns[t].phase == Conflicted && end.txns[t].pending == map[]
    ensures id !in w.committed && id in end.committed && prize.org in end.orgs
    ensures end.committed[id]
         == NewBooking(prize.org, end.txns[winner].request.user, end.orgs[prize.org].SlotFrom(prize.start))
    ensures forall j :: j in end.committed && end.committed[j].HoldsKey(prize.org, prize.start) ==> j == id
    ensures AllCompete(end, prize) ==> end.committed == w.committed[id := end.committed[id]]
  {
    RaceBegins(w, prize);
    var final := RaceStands(w, actions, end, prize, Nobody);
    assert !end.txns[someone].Open();
    winner := final.t;
    assert !end.txns[winner].Open();
    id := final.id;
    forall t | t in end.txns && t != winner && prize.Wants(end.txns[t].request)
      ensures end.txns[t].phase == Conflicted && end.txns[t].pending == map[]
    {
      NothingWritten(end, t);
    }
  }

  lemma RaceOne(w: World, a: Action, prize: Prize)
    requires Enabled(w, a) && RaceMove(w, a, prize)
    ensures Race(w, [a], Apply(w, a), prize)
  {
    assert [a][1..] == [] && Race(Apply(w, a), [], Apply(w, a), prize);
  }

  lemma {:induction false} RaceOn(w: World, first: seq<Action>, mid: World, rest: seq<Action>, end: World, prize: Prize)
    requires Race(w, first, mid, prize) && Race(mid, rest, end, prize)
    ensures Race(w, first + rest, end, prize)
    decreases |first|
  {
    if first == [] {
      assert first + rest == rest;
    } else {
      assert (first + rest)[0] == first[0] && (first + rest)[1..] == first[1..] + rest;
      RaceOn(Apply(w, first[0]), first[1..], mid, rest, end, prize);
    }
  }

  // ----- a race ends -----

  lemma NoStake(w: World, prize: Prize, lead: Lead, t: nat)
    requires Standing(w, prize, lead) && !lead.Claimant? && t in w.txns
    ensures !Stake(w.committed, w.txns[t].pending, prize.org, prize.start)
  {
    var p := w.txns[t].pending;
    assert WritesOk(w.orgs, w.committed, w.txns[t]);
    forall id | id in p
      ensures !p[id].HoldsKey(prize.org, prize.start)
      ensures id in w.committed ==> !w.committed[id].HoldsKey(prize.org, prize.start)
    {
      if p[id].HoldsKey(prize.org, prize.start) {
        PendingKeyIsClaimed(w, prize, t, id);
        assert false;
      }
    }
  }

  lemma NobodyElseContends(w: World, prize: Prize, lead: Lead, t: nat)
    requires Standing(w, prize, lead) && !lead.Claimant?
    ensures !KeyContended(w, t, prize.org, prize.start)
  {
    forall t' | t' in w.txns
      ensures !Stake(w.committed, w.txns[t'].pending, prize.org, prize.start)
    {
      NoStake(w, prize, lead, t');
    }
  }

  lemma StandingGoesOn(w: World, prize: Prize, lead: Lead, unfinished: nat) returns (a: Action)
    requires Standing(w, prize, lead) && unfinished in w.txns && w.txns[unfinished].Open()
    requires prize.Wants(w.txns[unfinished].request) && GridPassed(w.orgs, w.grids, w.txns[unfinished].request)
    ensures Enabled(w, a) && RaceMove(w, a, prize)
    ensures !a.Begin? && a.t in w.txns && prize.Wants(w.txns[a.t].request)
  {
    if w.txns[unfinished].phase.Ready? {
      a := Action.Validate(unfinished, true);
    } else if lead.Claimant? {
      a := Action.Commit(lead.t);
    } else {
      a := Action.Claim(unfinished);
      NobodyElseContends(w, prize, lead, unfinished);
    }
  }

  /** The race never gets stuck: at every point of it, as long as the key's slot is on the grid, while some competitor
      is unfinished some competitor can move, whatever the other transactions hold. */
  lemma RaceGoesOn(w: World, actions: seq<Action>, now: World, prize: Prize, unfinished: nat) returns (a: Action)
    requires StartingLine(w, prize) && Race(w, actions, now, prize)
    requires unfinished in now.txns && now.txns[unfinished].Open() && prize.Wants(now.txns[unfinished].request)
    requires GridPassed(now.orgs, now.grids, now.txns[unfinished].request)
    ensures Enabled(now, a) && RaceMove(now, a, prize)
    ensures !a.Begin? && a.t in now.txns && prize.Wants(now.txns[a.t].request)
  {
    RaceBegins(w, prize);
    var lead := RaceStands(w, actions, now, prize, Nobody);
    a := StandingGoesOn(now, prize, lead, unfinished);
  }

  /** How many steps a transaction may still take. */
  function Rank(txn: Txn): nat {
    match txn.phase
    case Ready => 4
    case Passed => 3
    case Lifted => 2
    case Claimed => 1
    case _ => 0
  }

  ghost function WithRank(w: World, rank: nat): set<nat> { set t | t in w.txns && rank <= Rank(w.txns[t]) }

  /** The steps all transactions may still take together. */
  ghost function Work(w: World): nat {
    |WithRank(w, 1)| + |WithRank(w, 2)| + |WithRank(w, 3)| + |WithRank(w, 4)|
  }

  lemma RankShrinks(w: World, next: World, t: nat, rank: nat)
    requires t in w.txns && t in next.txns && next.txns == w.txns[t := next.txns[t]]
    requires Rank(next.txns[t]) < Rank(w.txns[t])
    ensures |WithRank(next, rank)| <= |WithRank(w, rank)|
    ensures rank == Rank(w.txns[t]) ==> |WithRank(next, rank)| < |WithRank(w, rank)|
  {
    if Rank(next.txns[t]) < rank <= Rank(w.txns[t]) {
      assert WithRank(next, rank) == WithRank(w, rank) - {t};
    } else {
      assert WithRank(next, rank) == WithRank(w, rank);
    }
  }

  lemma {:induction false} SubsetIsSmaller(a: set<nat>, b: set<nat>)
    requires a <= b
    ensures |a| <= |b|
    decreases a
  {
    if x :| x in a {
      SubsetIsSmaller(a - {x}, b - {x});
    }
  }

  lemma RankGrows(w: World, next: World, t: nat, rank: nat)
    requires t !in w.txns && t in next.txns && next.txns == w.txns[t := next.txns[t]]
    ensures |WithRank(next, rank)| <= |WithRank(w, rank)| + 1
  {
    assert WithRank(next, rank) <= WithRank(w, rank) + {t};
    SubsetIsSmaller(WithRank(next, rank), WithRank(w, rank) + {t});
  }

  lemma LessRankLessWork(w: World, next: World, t: nat)
    requires Moves(w, next, t) && t in w.txns && Rank(next.txns[t]) < Rank(w.txns[t])
    ensures Work(next) < Work(w)
  {
    RankShrinks(w, next, t, 1);
    RankShrinks(w, next, t, 2);
    RankShrinks(w, next, t, 3);
    RankShrinks(w, next, t, 4);
  }

  lemma BeginningAddsWork(w: World, next: World, t: nat)
    requires Moves(w, next, t) && t !in w.txns
    ensures Work(next) <= Work(w) + 4
  {
    RankGrows(w, next, t, 1);
    RankGrows(w, next, t, 2);
    RankGrows(w, next, t, 3);
    RankGrows(w, next, t, 4);
  }

  lemma StepLowersRank(w: World, a: Action)
    requires Enabled(w, a) && !a.Begin?
    ensures Rank(Apply(w, a).txns[a.t]) < Rank(w.txns[a.t])
  {
  }

  /** Every step but a beginning uses up work, and a beginning adds at most four steps of it. */
  lemma StepUsesWork(w: World, a: Action)
    requires Enabled(w, a)
    ensures Work(Apply(w, a)) <= if a.Begin? then Work(w) + 4 else Work(w) - 1
  {
    StepMoves(w, a);
    if a.Begin? {
      BeginningAddsWork(w, Apply(w, a), a.t);
    } else {
      StepLowersRank(w, a);
      LessRankLessWork(w, Apply(w, a), a.t);
    }
  }

  function Begins(actions: seq<Action>): nat {
    if actions == [] then 0 else (if actions[0].Begin? then 1 else 0) + Begins(actions[1..])
  }

  /** Every run ends: with N transactions begun it takes at most 5 * N steps. */
  lemma {:induction false} RunsEnd(w: World, actions: seq<Action>, end: World)
    requires Leads(w, actions, end)
    ensures |actions| + Work(end) <= Work(w) + 5 * Begins(actions)
    decreases |actions|
  {
    if actions != [] {
      StepUsesWork(w, actions[0]);
      RunsEnd(Apply(w, actions[0]), actions[1..], end);
    }
  }
}
