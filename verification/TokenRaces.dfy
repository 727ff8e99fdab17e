/** Refreshes and logouts whose reads and writes interleave. The service reads a token's row without a lock and
    writes later, so a decision may rest on a row that has changed since. */
module TokenRaces {
  import opened Auth
  import opened Wrappers

  /** A call that has read its row and not written yet. */
  datatype Pending = Pending(call: Call, at: nat, read: TokenRow)

  datatype Session = Session(rows: seq<TokenRow>, users: set<int>, pending: map<nat, Pending>)

  datatype Move =
    | LogsIn(call: Call)
    | Reads(k: nat, call: Call)
    | Writes(k: nat)

  /** A call whose token is unknown ends with its read, which is no move. */
  ghost predicate Possible(s: Session, m: Move) {
    match m
    case LogsIn(c) => c.Login? && FreshIds(s.rows, c)
    case Reads(k, c) => !c.Login? && k !in s.pending && Find(s.rows, c.token).Some?
    case Writes(k) =>
      && k in s.pending && !s.pending[k].call.Login? && s.pending[k].at < |s.rows|
      && FreshIds(s.rows, s.pending[k].call)
  }

  ghost function Next(s: Session, m: Move): Session
    requires Possible(s, m)
  {
    match m
    case LogsIn(c) => s.(rows := Perform(s.rows, s.users, c).rows)
    case Reads(k, c) =>
      var at := Find(s.rows, c.token).value;
      s.(pending := s.pending[k := Pending(c, at, s.rows[at])])
    case Writes(k) =>
      var p := s.pending[k];
      s.(rows := Write(s.rows, s.users, p.call, p.at, p.read).rows, pending := s.pending - {k})
  }

  /** These moves, in order, lead from s to end. */
  ghost predicate Reaches(s: Session, moves: seq<Move>, end: Session)
    decreases |moves|
  {
    if moves == [] then end == s else Possible(s, moves[0]) && Reaches(Next(s, moves[0]), moves[1..], end)
  }

  // ----- how a reading goes stale -----

  /** A row keeps everything but its revocation, which is never undone; a late write may stamp it anew. */
  ghost predicate Ages(before: TokenRow, after: TokenRow) {
    after == before.(revokedAt := after.revokedAt) && (after.Live() ==> before.Live())
  }

  /** What was read is still stored there, at most revoked since. */
  ghost predicate ReadingsOk(s: Session) {
    forall k :: k in s.pending ==>
      && !s.pending[k].call.Login? && s.pending[k].at < |s.rows|
      && Ages(s.pending[k].read, s.rows[s.pending[k].at])
  }

  ghost predicate RowsAge(rows: seq<TokenRow>, after: seq<TokenRow>) {
    |rows| <= |after| && forall i :: 0 <= i < |rows| ==> Ages(rows[i], after[i])
  }

  lemma WriteAgesRows(rows: seq<TokenRow>, users: set<int>, c: Call, at: nat, read: TokenRow)
    requires !c.Login? && at < |rows|
    ensures RowsAge(rows, Write(rows, users, c, at, read).rows)
  {
  }

  lemma MoveKeepsReadings(s: Session, m: Move)
    requires ReadingsOk(s) && Possible(s, m)
    ensures ReadingsOk(Next(s, m)) && RowsAge(s.rows, Next(s, m).rows)
  {
    if m.Writes? {
      var p := s.pending[m.k];
      WriteAgesRows(s.rows, s.users, p.call, p.at, p.read);
    }
  }

  // ----- single liveness -----

  /** The call has decided to rotate the row it read. */
  predicate Rotates(p: Pending, users: set<int>) {
    p.call.Refresh? && p.read.Live() && p.call.now < p.read.expiresAt && p.read.user in users
  }

  /** No other token of the family of row `at` is live. */
  ghost predicate Alone(rows: seq<TokenRow>, at: nat)
    requires at < |rows|
  {
    forall j :: 0 <= j < |rows| && j != at && rows[j].family == rows[at].family ==> !rows[j].Live()
  }

  lemma EarlierLiveBreaks(rows: seq<TokenRow>, i: nat, j: nat)
    requires i < j < |rows| && rows[i].family == rows[j].family && rows[i].Live()
    ensures !FamiliesOk(rows)
  {
  }

  /** A rotation on a possibly stale reading keeps the guarantee on families exactly when no other token of the family
      is live by the time it writes. */
  lemma RotationKeepsFamiliesIff(rows: seq<TokenRow>, at: nat, read: TokenRow, minted: int, now: int, ttl: int)
    requires FamiliesOk(rows) && at < |rows| && Ages(read, rows[at])
    requires forall i :: 0 <= i < |rows| ==> rows[i].token != minted
    ensures FamiliesOk(Rotate(rows, at, read, minted, now, ttl)) <==> Alone(rows, at)
  {
    var after := Rotate(rows, at, read, minted, now, ttl);
    if j :| 0 <= j < |rows| && j != at && rows[j].family == rows[at].family && rows[j].Live() {
      assert after[j] == rows[j] && after[|rows|].family == rows[j].family;
    }
  }

  /** Of all moves only such a rotation can break the guarantee. */
  ghost predicate Forks(s: Session, m: Move)
    requires ReadingsOk(s)
  {
    m.Writes? && m.k in s.pending && Rotates(s.pending[m.k], s.users) && !Alone(s.rows, s.pending[m.k].at)
  }

  lemma RevocationsKeepFamilies(rows: seq<TokenRow>, after: seq<TokenRow>)
    requires FamiliesOk(rows) && |after| == |rows| && RowsAge(rows, after)
    ensures FamiliesOk(after)
  {
  }

  lemma MoveKeepsFamiliesIff(s: Session, m: Move)
    requires ReadingsOk(s) && FamiliesOk(s.rows) && Possible(s, m)
    ensures FamiliesOk(Next(s, m).rows) <==> !Forks(s, m)
  {
    if m.LogsIn? {
      StepKeepsFamilies(s.rows, s.users, m.call);
    } else if m.Writes? {
      var p := s.pending[m.k];
      if Rotates(p, s.users) {
        RotationKeepsFamiliesIff(s.rows, p.at, p.read, p.call.minted, p.call.now, p.call.ttl);
      } else {
        RevocationsKeepFamilies(s.rows, Write(s.rows, s.users, p.call, p.at, p.read).rows);
      }
    }
  }

  ghost predicate AlwaysOk(s: Session, moves: seq<Move>, end: Session)
    requires Reaches(s, moves, end)
    decreases |moves|
  {
    FamiliesOk(s.rows) && (moves == [] || AlwaysOk(Next(s, moves[0]), moves[1..], end))
  }

  ghost predicate NeverForks(s: Session, moves: seq<Move>, end: Session)
    requires Reaches(s, moves, end) && ReadingsOk(s)
    decreases |moves|
  {
    moves == [] ||
    (MoveKeepsReadings(s, moves[0]); !Forks(s, moves[0]) && NeverForks(Next(s, moves[0]), moves[1..], end))
  }

  /** When interleaving breaks single liveness, exactly: in every state of a run each family has one user and at most
      its newest token live, if and only if no rotation in the run writes while another token of its family
      is live. */
  lemma {:induction false} AlwaysOkIff(s: Session, moves: seq<Move>, end: Session)
    requires ReadingsOk(s) && FamiliesOk(s.rows) && Reaches(s, moves, end)
    ensures AlwaysOk(s, moves, end) <==> NeverForks(s, moves, end)
    decreases |moves|
  {
    if moves != [] {
      var next := Next(s, moves[0]);
      MoveKeepsReadings(s, moves[0]);
      MoveKeepsFamiliesIff(s, moves[0]);
      if FamiliesOk(next.rows) {
        AlwaysOkIff(next, moves[1..], end);
      }
    }
  }

  /** A rotation whose row is still live when it writes never forks: a row lock between read and write would be
      enough. */
  lemma CurrentReadingIsAlone(rows: seq<TokenRow>, at: nat)
    requires FamiliesOk(rows) && at < |rows| && rows[at].Live()
    ensures Alone(rows, at)
  {
  }

  // ----- dead families -----

  /** When a dead family comes back to life, exactly: a move revives it if and only if it is the write of a rotation of
      one of its tokens, and then that token was revoked after it was read. */
  lemma RevivesIff(s: Session, m: Move, family: int)
    requires ReadingsOk(s) && Possible(s, m) && Dead(s.rows, family)
    ensures var revives := m.Writes? && Rotates(s.pending[m.k], s.users) && s.pending[m.k].read.family == family;
      && (!Dead(Next(s, m).rows, family) <==> revives)
      && (revives ==> s.pending[m.k].read.Live() && !s.rows[s.pending[m.k].at].Live())
  {
    var after := Next(s, m).rows;
    MoveKeepsReadings(s, m);
    var i :| 0 <= i < |s.rows| && s.rows[i].family == family;
    assert after[i].family == family;
    if m.Writes? && Rotates(s.pending[m.k], s.users) && s.pending[m.k].read.family == family {
      assert after[|s.rows|].family == family && after[|s.rows|].Live();
    }
  }

  /** No refresh under way has read a token of the family as live. */
  ghost predicate Drained(s: Session, family: int) {
    forall k :: k in s.pending && s.pending[k].read.family == family ==> !s.pending[k].read.Live()
  }

  lemma MoveKeepsDrained(s: Session, m: Move, family: int)
    requires ReadingsOk(s) && Possible(s, m) && Dead(s.rows, family) && Drained(s, family)
    ensures Drained(Next(s, m), family) && Dead(Next(s, m).rows, family)
  {
    RevivesIff(s, m, family);
    var next := Next(s, m);
    forall k | k in next.pending && next.pending[k].read.family == family
      ensures !next.pending[k].read.Live()
    {
      if m.Reads? && k == m.k {
        assert next.pending[k].read == s.rows[next.pending[k].at];
      } else {
        assert next.pending[k] == s.pending[k];
      }
    }
  }

  /** A dead family stays dead through every interleaving once no refresh is under way that read it alive. */
  lemma {:induction false} DrainedStaysDead(s: Session, moves: seq<Move>, end: Session, family: int)
    requires ReadingsOk(s) && Reaches(s, moves, end) && Dead(s.rows, family) && Drained(s, family)
    ensures Dead(end.rows, family)
    decreases |moves|
  {
    if moves != [] {
      MoveKeepsReadings(s, moves[0]);
      MoveKeepsDrained(s, moves[0], family);
      DrainedStaysDead(Next(s, moves[0]), moves[1..], end, family);
    }
  }

  /** In particular when no call is under way. */
  lemma RestStaysDead(s: Session, moves: seq<Move>, end: Session, family: int)
    requires s.pending == map[] && Reaches(s, moves, end) && Dead(s.rows, family)
    ensures Dead(end.rows, family)
  {
    assert ReadingsOk(s) && Drained(s, family);
    DrainedStaysDead(s, moves, end, family);
  }

  // ----- what a lock would give -----

  /** A rotation writes only while the row it read is still live, as a row lock between read and write would ensure. */
  ghost predicate Current(s: Session, m: Move)
    requires ReadingsOk(s)
  {
    m.Writes? && m.k in s.pending && Rotates(s.pending[m.k], s.users) ==> s.rows[s.pending[m.k].at].Live()
  }

  /** An atomic call is a read with its write right behind: it leaves the rows of the atomic specification, and its
      reading is current. */
  lemma ReadThenWriteIsPerform(s: Session, k: nat, c: Call)
    requires ReadingsOk(s) && Possible(s, Reads(k, c)) && FreshIds(s.rows, c)
    ensures var read := Next(s, Reads(k, c));
      && ReadingsOk(read) && Possible(read, Writes(k)) && Current(read, Writes(k))
      && Next(read, Writes(k)).rows == Perform(s.rows, s.users, c).rows && Next(read, Writes(k)).pending == s.pending
  {
    MoveKeepsReadings(s, Reads(k, c));
    assert s.pending[k := Pending(c, Find(s.rows, c.token).value, s.rows[Find(s.rows, c.token).value])] - {k}
        == s.pending;
  }

  ghost predicate AlwaysCurrent(s: Session, moves: seq<Move>, end: Session)
    requires Reaches(s, moves, end) && ReadingsOk(s)
    decreases |moves|
  {
    moves == [] ||
    (MoveKeepsReadings(s, moves[0]); Current(s, moves[0]) && AlwaysCurrent(Next(s, moves[0]), moves[1..], end))
  }

  lemma CurrentMoveIsSafe(s: Session, m: Move, family: int)
    requires ReadingsOk(s) && FamiliesOk(s.rows) && Possible(s, m) && Current(s, m)
    ensures FamiliesOk(Next(s, m).rows)
    ensures Dead(s.rows, family) ==> Dead(Next(s, m).rows, family)
  {
    if m.Writes? && Rotates(s.pending[m.k], s.users) {
      CurrentReadingIsAlone(s.rows, s.pending[m.k].at);
    }
    MoveKeepsFamiliesIff(s, m);
    if Dead(s.rows, family) {
      RevivesIff(s, m, family);
    }
  }

  /** With current rotations only, every run keeps one newest live token per family throughout, and what is dead stays
      dead. */
  lemma {:induction false} CurrentRunsAreSafe(s: Session, moves: seq<Move>, end: Session, family: int)
    requires ReadingsOk(s) && FamiliesOk(s.rows) && Reaches(s, moves, end) && AlwaysCurrent(s, moves, end)
    ensures AlwaysOk(s, moves, end)
    ensures Dead(s.rows, family) ==> Dead(end.rows, family)
    decreases |moves|
  {
    if moves != [] {
      var next := Next(s, moves[0]);
      MoveKeepsReadings(s, moves[0]);
      CurrentMoveIsSafe(s, moves[0], family);
      CurrentRunsAreSafe(next, moves[1..], end, family);
    }
  }

  // ----- the schedules -----

  /** A refresh that would be granted, whatever other calls are under way. */
  ghost predicate OneUsable(s: Session, at: nat, c: Call) {
    && FamiliesOk(s.rows) && at < |s.rows|
    && c.Refresh? && FreshIds(s.rows, c) && Usable(s.rows[at], s.users, c.token, c.now)
  }

  lemma UsableIsFound(s: Session, at: nat, c: Call)
    requires OneUsable(s, at, c)
    ensures Find(s.rows, c.token) == Some(at)
  {
  }

  lemma BothRead(s: Session, at: nat, c: Call, d: Call, k: nat, l: nat) returns (mid: Session)
    requires OneUsable(s, at, c) && !d.Login? && d.token == c.token && k != l && k !in s.pending && l !in s.pending
    ensures Possible(s, Reads(k, c)) && Possible(Next(s, Reads(k, c)), Reads(l, d))
    ensures mid == Next(Next(s, Reads(k, c)), Reads(l, d)) && mid.rows == s.rows && mid.users == s.users
    ensures mid.pending == s.pending[k := Pending(c, at, s.rows[at])][l := Pending(d, at, s.rows[at])]
  {
    UsableIsFound(s, at, c);
    mid := Next(Next(s, Reads(k, c)), Reads(l, d));
  }

  lemma FourMoves(s: Session, a: Move, b: Move, c: Move, d: Move)
    requires Possible(s, a) && Possible(Next(s, a), b) && Possible(Next(Next(s, a), b), c)
    requires Possible(Next(Next(Next(s, a), b), c), d)
    ensures Reaches(s, [a, b, c, d], Next(Next(Next(Next(s, a), b), c), d))
  {
    var s1 := Next(s, a);
    var s2 := Next(s1, b);
    var s3 := Next(s2, c);
    assert [a, b, c, d][1..] == [b, c, d] && [b, c, d][1..] == [c, d] && [c, d][1..] == [d] && [d][1..] == [];
    assert Reaches(s3, [d], Next(s3, d));
    assert Reaches(s2, [c, d], Next(s3, d));
    assert Reaches(s1, [b, c, d], Next(s3, d));
  }

  lemma ThreeMoves(s: Session, a: Move, b: Move, c: Move)
    requires Possible(s, a) && Possible(Next(s, a), b) && Possible(Next(Next(s, a), b), c)
    ensures Reaches(s, [a, b, c], Next(Next(Next(s, a), b), c))
  {
    var s1 := Next(s, a);
    var s2 := Next(s1, b);
    assert [a, b, c][1..] == [b, c] && [b, c][1..] == [c] && [c][1..] == [];
    assert Reaches(s2, [c], Next(s2, c));
    assert Reaches(s1, [b, c], Next(s2, c));
  }

  /** Two refreshes of one token that both read it before either writes: the family ends up with two live tokens. */
  lemma TwoRefreshesFork(s: Session, at: nat, c: Call, d: Call, k: nat, l: nat) returns (moves: seq<Move>, end: Session)
    requires OneUsable(s, at, c) && OneUsable(s, at, d) && c.minted != d.minted
    requires k != l && k !in s.pending && l !in s.pending
    ensures Reaches(s, moves, end) && !FamiliesOk(end.rows)
    ensures var n := |s.rows|;
      && |end.rows| == n + 2 && end.rows[n].family == end.rows[n + 1].family == s.rows[at].family
      && end.rows[n].Live() && end.rows[n + 1].Live()
  {
    var mid := BothRead(s, at, c, d, k, l);
    var s3 := Next(mid, Writes(k));
    assert s3.rows == Rotate(s.rows, at, s.rows[at], c.minted, c.now, c.ttl);
    end := Next(s3, Writes(l));
    moves := [Reads(k, c), Reads(l, d), Writes(k), Writes(l)];
    FourMoves(s, Reads(k, c), Reads(l, d), Writes(k), Writes(l));
    var n := |s.rows|;
    assert end.rows[n] == s3.rows[n] && end.rows[n].family == end.rows[n + 1].family;
    EarlierLiveBreaks(end.rows, n, n + 1);
  }

  /** A refresh that read its token before a logout revoked it writes after: the family is dead, and then alive. */
  lemma RefreshOutlivesLogout(s: Session, at: nat, c: Call, now: int, k: nat, l: nat)
    returns (moves: seq<Move>, killed: Session, end: Session)
    requires OneUsable(s, at, c) && k != l && k !in s.pending && l !in s.pending
    ensures |moves| == 4 && Reaches(s, moves[..3], killed) && Dead(killed.rows, s.rows[at].family)
    ensures Reaches(s, moves, end) && !Dead(end.rows, s.rows[at].family)
  {
    var d := Logout(c.token, now);
    var mid := BothRead(s, at, c, d, k, l);
    killed := Next(mid, Writes(l));
    assert killed.rows == s.rows[at := Revoke(s.rows[at], now)];
    assert killed.rows[at].family == s.rows[at].family;
    end := Next(killed, Writes(k));
    moves := [Reads(k, c), Reads(l, d), Writes(l), Writes(k)];
    FourMoves(s, Reads(k, c), Reads(l, d), Writes(l), Writes(k));
    ThreeMoves(s, Reads(k, c), Reads(l, d), Writes(l));
    assert moves[..3] == [Reads(k, c), Reads(l, d), Writes(l)];
    assert end.rows[|s.rows|].Live() && end.rows[|s.rows|].family == s.rows[at].family;
  }
}
