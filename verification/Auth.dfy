/** Refresh-token rotation with family revocation. A token and its stored hash are one opaque id. */
module Auth {
  import opened Wrappers

  datatype TokenRow = TokenRow(user: int, family: int, token: int, expiresAt: int, revokedAt: Option<int>) {
    predicate Live() { revokedAt.None? }
  }

  datatype AuthError = InvalidCredentials | InvalidToken | ReuseDetected | Expired | UserGone

  /** The position of the row stored for a token. */
  function Find(rows: seq<TokenRow>, token: int): (at: Option<nat>)
    ensures at.Some? ==> at.value < |rows| && rows[at.value].token == token
    ensures at.None? ==> forall i :: 0 <= i < |rows| ==> rows[i].token != token
  {
    if rows == [] then None
    else if rows[|rows| - 1].token == token then Some(|rows| - 1)
    else Find(rows[..|rows| - 1], token)
  }

  function Revoke(row: TokenRow, now: int): TokenRow { row.(revokedAt := Some(now)) }

  /** Every live row of the family revoked, all other rows as they were. */
  function RevokeFamily(rows: seq<TokenRow>, family: int, now: int): (after: seq<TokenRow>)
    ensures |after| == |rows|
    ensures forall i :: 0 <= i < |rows| ==>
      after[i] == if rows[i].family == family && rows[i].Live() then Revoke(rows[i], now) else rows[i]
  {
    if rows == [] then []
    else
      var last := rows[|rows| - 1];
      RevokeFamily(rows[..|rows| - 1], family, now)
      + [if last.family == family && last.Live() then Revoke(last, now) else last]
  }

  datatype Call =
    | Login(user: Option<int>, family: int, minted: int, now: int, ttl: int)
    | Refresh(token: int, minted: int, now: int, ttl: int)
    | Logout(token: int, now: int)

  /** Generated ids have not been generated before. */
  ghost predicate FreshIds(rows: seq<TokenRow>, c: Call) {
    && (c.Login? || c.Refresh? ==> forall i :: 0 <= i < |rows| ==> rows[i].token != c.minted)
    && (c.Login? ==> forall i :: 0 <= i < |rows| ==> rows[i].family != c.family)
  }

  datatype Outcome = Outcome(result: Result<int, AuthError>, rows: seq<TokenRow>)

  /** The writes of a rotation: the row at this position is revoked, and its successor is added. */
  function Rotate(rows: seq<TokenRow>, at: nat, read: TokenRow, minted: int, now: int, ttl: int): seq<TokenRow>
    requires at < |rows|
  {
    rows[at := Revoke(rows[at], now)] + [TokenRow(read.user, read.family, minted, now + ttl, None)]
  }

  /** What a refresh or logout decides from the row it has read, which is stored at this position, and what it then
      does to the rows. */
  function Write(rows: seq<TokenRow>, users: set<int>, c: Call, at: nat, read: TokenRow): Outcome
    requires !c.Login? && at < |rows|
  {
    match c
    case Refresh(_, minted, now, ttl) =>
      if !read.Live() then Outcome(Err(ReuseDetected), RevokeFamily(rows, read.family, now))
      else if read.expiresAt <= now then Outcome(Err(Expired), rows)
      else if read.user !in users then Outcome(Err(UserGone), rows)
      else Outcome(Ok(minted), Rotate(rows, at, read, minted, now, ttl))
    case Logout(token, now) =>
      Outcome(Ok(token), if read.Live() then rows[at := Revoke(rows[at], now)] else rows)
  }

  /** What a call answers (the minted token, or the presented one for logout) and leaves stored, when nothing
      happens between its read and its writes. */
  function Perform(rows: seq<TokenRow>, users: set<int>, c: Call): Outcome {
    match c
    case Login(None, _, _, _, _) => Outcome(Err(InvalidCredentials), rows)
    case Login(Some(user), family, minted, now, ttl) =>
      Outcome(Ok(minted), rows + [TokenRow(user, family, minted, now + ttl, None)])
    case Refresh(token, _, _, _) =>
      var at := Find(rows, token);
      if at.None? then Outcome(Err(InvalidToken), rows) else Write(rows, users, c, at.value, rows[at.value])
    case Logout(token, _) =>
      var at := Find(rows, token);
      if at.None? then Outcome(Ok(token), rows) else Write(rows, users, c, at.value, rows[at.value])
  }

  ghost predicate CallsFresh(rows: seq<TokenRow>, users: set<int>, calls: seq<Call>)
    decreases |calls|
  {
    calls == [] || (FreshIds(rows, calls[0]) && CallsFresh(Perform(rows, users, calls[0]).rows, users, calls[1..]))
  }

  function PerformAll(rows: seq<TokenRow>, users: set<int>, calls: seq<Call>): seq<TokenRow>
    decreases |calls|
  {
    if calls == [] then rows else PerformAll(Perform(rows, users, calls[0]).rows, users, calls[1..])
  }

  // ----- the service -----

  class TokenTable {
    var rows: seq<TokenRow>
    var users: set<int>

    constructor (users: set<int>)
      ensures rows == [] && this.users == users
    {
      rows := [];
      this.users := users;
    }

    /** The insert of _issue_token_pair. */
    method IssueToken(user: int, family: int, minted: int, now: int, ttl: int)
      modifies this`rows
      ensures rows == old(rows) + [TokenRow(user, family, minted, now + ttl, None)]
    {
      rows := rows + [TokenRow(user, family, minted, now + ttl, None)];
    }

    /** The bulk update of a detected reuse. */
    method RevokeLive(family: int, now: int)
      modifies this`rows
      ensures rows == RevokeFamily(old(rows), family, now)
    {
      var i := 0;
      while i < |rows|
        invariant 0 <= i <= |rows| == |old(rows)|
        invariant forall k :: 0 <= k < i ==> rows[k] == RevokeFamily(old(rows), family, now)[k]
        invariant forall k :: i <= k < |rows| ==> rows[k] == old(rows)[k]
      {
        if rows[i].family == family && rows[i].revokedAt == None {
          rows := rows[i := rows[i].(revokedAt := Some(now))];
        }
        i := i + 1;
      }
    }

    method LogIn(user: Option<int>, family: int, minted: int, now: int, ttl: int) returns (r: Result<int, AuthError>)
      modifies this`rows
      ensures Outcome(r, rows) == Perform(old(rows), users, Login(user, family, minted, now, ttl))
    {
      if user.None? {
        return Err(InvalidCredentials);
      }
      IssueToken(user.value, family, minted, now, ttl);
      return Ok(minted);
    }

    method RefreshToken(token: int, minted: int, now: int, ttl: int) returns (r: Result<int, AuthError>)
      modifies this`rows
      ensures Outcome(r, rows) == Perform(old(rows), users, Refresh(token, minted, now, ttl))
    {
      var at := Find(rows, token);
      if at.None? {
        return Err(InvalidToken);
      }
      var row := rows[at.value];
      if row.revokedAt != None {
        RevokeLive(row.family, now);
        return Err(ReuseDetected);
      }
      if row.expiresAt <= now {
        return Err(Expired);
      }
      if row.user !in users {
        return Err(UserGone);
      }
      rows := rows[at.value := row.(revokedAt := Some(now))];
      IssueToken(row.user, row.family, minted, now, ttl);
      return Ok(minted);
    }

    method LogOut(token: int, now: int)
      modifies this`rows
      ensures rows == Perform(old(rows), users, Logout(token, now)).rows
    {
      var at := Find(rows, token);
      if at.None? {
        return;
      }
      if rows[at.value].revokedAt == None {
        rows := rows[at.value := rows[at.value].(revokedAt := Some(now))];
      }
    }
  }

  // ----- what families keep -----

  /** Tokens are distinct, a family has one user, and only the newest token of a family can be live. */
  ghost predicate FamiliesOk(rows: seq<TokenRow>) {
    forall i, j :: 0 <= i < j < |rows| ==>
      && rows[i].token != rows[j].token
      && (rows[i].family == rows[j].family ==> rows[i].user == rows[j].user && !rows[i].Live())
  }

  lemma StepKeepsFamilies(rows: seq<TokenRow>, users: set<int>, c: Call)
    requires FamiliesOk(rows) && FreshIds(rows, c)
    ensures FamiliesOk(Perform(rows, users, c).rows)
  {
  }

  /** Over any run every family has one user and at most one live token, which is its newest. */
  lemma {:induction false} RunKeepsFamilies(rows: seq<TokenRow>, users: set<int>, calls: seq<Call>)
    requires FamiliesOk(rows) && CallsFresh(rows, users, calls)
    ensures FamiliesOk(PerformAll(rows, users, calls))
    decreases |calls|
  {
    if calls != [] {
      StepKeepsFamilies(rows, users, calls[0]);
      RunKeepsFamilies(Perform(rows, users, calls[0]).rows, users, calls[1..]);
    }
  }

  /** A row keeps its contents, and once revoked is never touched again. */
  ghost predicate RowKept(before: TokenRow, after: TokenRow) {
    after == before || (before.Live() && exists now :: after == Revoke(before, now))
  }

  ghost predicate RowsKept(before: seq<TokenRow>, after: seq<TokenRow>) {
    |before| <= |after| && forall i :: 0 <= i < |before| ==> RowKept(before[i], after[i])
  }

  lemma StepKeepsRows(rows: seq<TokenRow>, users: set<int>, c: Call)
    ensures RowsKept(rows, Perform(rows, users, c).rows)
  {
    var after := Perform(rows, users, c).rows;
    forall i | 0 <= i < |rows|
      ensures RowKept(rows[i], after[i])
    {
      if after[i] != rows[i] { assert after[i] == Revoke(rows[i], c.now); }
    }
  }

  /** Revocation is permanent over any run. */
  lemma {:induction false} RunKeepsRows(rows: seq<TokenRow>, users: set<int>, calls: seq<Call>)
    ensures RowsKept(rows, PerformAll(rows, users, calls))
    decreases |calls|
  {
    if calls != [] {
      var next := Perform(rows, users, calls[0]).rows;
      StepKeepsRows(rows, users, calls[0]);
      RunKeepsRows(next, users, calls[1..]);
    }
  }

  /** The family a call works on: a fresh one for login, the presented token's otherwise. */
  ghost function FamilyOf(rows: seq<TokenRow>, c: Call): Option<int> {
    match c
    case Login(_, family, _, _, _) => Some(family)
    case _ => var at := Find(rows, c.token); if at.None? then None else Some(rows[at.value].family)
  }

  /** A call on one family neither changes nor adds rows of any other. */
  lemma OtherFamiliesUntouched(rows: seq<TokenRow>, users: set<int>, c: Call)
    ensures var after := Perform(rows, users, c).rows;
      && |rows| <= |after|
      && (forall i :: 0 <= i < |rows| && Some(rows[i].family) != FamilyOf(rows, c) ==> after[i] == rows[i])
      && (forall i :: |rows| <= i < |after| ==> Some(after[i].family) == FamilyOf(rows, c))
  {
  }

  ghost predicate Usable(row: TokenRow, users: set<int>, token: int, now: int) {
    row.token == token && row.Live() && now < row.expiresAt && row.user in users
  }

  /** Refresh answers with a new token exactly when the presented one is stored, live, unexpired and its user
      exists; it is then the newest of its family, and is revoked in favour of the new one. */
  lemma RefreshRotates(rows: seq<TokenRow>, users: set<int>, token: int, minted: int, now: int, ttl: int)
    requires FamiliesOk(rows)
    ensures var r := Perform(rows, users, Refresh(token, minted, now, ttl));
      && (r.result.Ok? <==> exists i :: 0 <= i < |rows| && Usable(rows[i], users, token, now))
      && (forall i :: 0 <= i < |rows| && Usable(rows[i], users, token, now) ==>
            && (forall j :: i < j < |rows| ==> rows[j].family != rows[i].family)
            && r.rows == rows[i := Revoke(rows[i], now)]
                         + [TokenRow(rows[i].user, rows[i].family, minted, now + ttl, None)])
  {
  }

  // ----- what each call answers and stores -----

  /** The one row stored for the token, if there is one. */
  ghost predicate HoldsToken(rows: seq<TokenRow>, at: int, token: int) { 0 <= at < |rows| && rows[at].token == token }

  /** The rows are the same but that row `at` is revoked now. */
  ghost predicate OnlyRevoked(rows: seq<TokenRow>, after: seq<TokenRow>, at: int, now: int) {
    && |after| == |rows| && 0 <= at < |rows|
    && (forall i :: 0 <= i < |rows| && i != at ==> after[i] == rows[i])
    && after[at].user == rows[at].user && after[at].family == rows[at].family && after[at].token == rows[at].token
    && after[at].expiresAt == rows[at].expiresAt && after[at].revokedAt == Some(now)
  }

  /** A login with a user adds exactly one row, live, of that user and family, for the minted token, which it answers,
      until ttl from now; one without a user is refused and stores nothing. */
  lemma LoginIsExact(rows: seq<TokenRow>, users: set<int>, c: Call)
    requires c.Login?
    ensures var r := Perform(rows, users, c);
      if c.user.None? then r.result == Err(InvalidCredentials) && r.rows == rows
      else
        && r.result == Ok(c.minted) && |r.rows| == |rows| + 1
        && (forall i :: 0 <= i < |rows| ==> r.rows[i] == rows[i])
        && var row := r.rows[|rows|];
           && row.user == c.user.value && row.family == c.family && row.token == c.minted
           && row.expiresAt == c.now + c.ttl && row.revokedAt == None
  {
  }

  /** What a refresh answers and stores. An unknown token is invalid; a revoked one is a reuse, and revokes just the
      live tokens of its family; an expired one and one whose user is gone are refused, and nothing changes; any
      other is revoked, and one successor of the same user and family is added and answered. */
  lemma RefreshIsExact(rows: seq<TokenRow>, users: set<int>, c: Call, at: int)
    requires FamiliesOk(rows) && c.Refresh?
    ensures var r := Perform(rows, users, c);
      && ((forall i :: !HoldsToken(rows, i, c.token)) ==> r.result == Err(InvalidToken) && r.rows == rows)
      && (HoldsToken(rows, at, c.token) ==>
            if rows[at].revokedAt.Some? then
              && r.result == Err(ReuseDetected) && |r.rows| == |rows|
              && forall i :: 0 <= i < |rows| ==>
                   if rows[i].family == rows[at].family && rows[i].revokedAt.None?
                   then r.rows[i] == rows[i].(revokedAt := Some(c.now)) else r.rows[i] == rows[i]
            else if rows[at].expiresAt <= c.now then r.result == Err(Expired) && r.rows == rows
            else if rows[at].user !in users then r.result == Err(UserGone) && r.rows == rows
            else
              && r.result == Ok(c.minted) && |r.rows| == |rows| + 1 && OnlyRevoked(rows, r.rows[..|rows|], at, c.now)
              && r.rows[|rows|] == TokenRow(rows[at].user, rows[at].family, c.minted, c.now + c.ttl, None))
  {
    var found := Find(rows, c.token);
    if HoldsToken(rows, at, c.token) {
      assert found == Some(at);
    } else if found.Some? {
      assert HoldsToken(rows, found.value, c.token);
    }
  }

  /** A logout revokes the presented token if it is stored and live, and no other; otherwise it changes nothing. */
  lemma LogoutIsExact(rows: seq<TokenRow>, users: set<int>, c: Call, at: int)
    requires FamiliesOk(rows) && c.Logout?
    ensures var r := Perform(rows, users, c);
      && r.result.Ok?
      && ((forall i :: !HoldsToken(rows, i, c.token)) ==> r.rows == rows)
      && (HoldsToken(rows, at, c.token) ==>
            if rows[at].revokedAt.Some? then r.rows == rows else OnlyRevoked(rows, r.rows, at, c.now))
  {
    var found := Find(rows, c.token);
    if HoldsToken(rows, at, c.token) {
      assert found == Some(at);
    } else if found.Some? {
      assert HoldsToken(rows, found.value, c.token);
    }
  }

  /** No call of the run works on this family. */
  ghost predicate SparesFamily(rows: seq<TokenRow>, users: set<int>, calls: seq<Call>, family: int)
    decreases |calls|
  {
    calls == [] ||
    (FamilyOf(rows, calls[0]) != Some(family)
     && SparesFamily(Perform(rows, users, calls[0]).rows, users, calls[1..], family))
  }

  lemma {:induction false} SparedRowStays(rows: seq<TokenRow>, users: set<int>, calls: seq<Call>, at: nat)
    requires at < |rows| && SparesFamily(rows, users, calls, rows[at].family)
    ensures at < |PerformAll(rows, users, calls)| && PerformAll(rows, users, calls)[at] == rows[at]
    decreases |calls|
  {
    if calls != [] {
      OtherFamiliesUntouched(rows, users, calls[0]);
      SparedRowStays(Perform(rows, users, calls[0]).rows, users, calls[1..], at);
    }
  }

  /** The token a login answers is good for a refresh until it expires, whatever calls on other families come
      between. */
  lemma LoginServesRefresh(rows: seq<TokenRow>, users: set<int>, c: Call, later: seq<Call>, again: Call)
    requires FamiliesOk(rows) && c.Login? && c.user.Some? && c.user.value in users
    requires CallsFresh(rows, users, [c] + later) && again.Refresh? && again.token == c.minted
    requires SparesFamily(Perform(rows, users, c).rows, users, later, c.family) && again.now < c.now + c.ttl
    ensures Perform(PerformAll(rows, users, [c] + later), users, again).result == Ok(again.minted)
  {
    var next := Perform(rows, users, c).rows;
    assert ([c] + later)[1..] == later;
    LoginIsExact(rows, users, c);
    StepKeepsFamilies(rows, users, c);
    SparedRowStays(next, users, later, |rows|);
    RunKeepsFamilies(next, users, later);
    RefreshIsExact(PerformAll(next, users, later), users, again, |rows|);
  }

  // ----- dead families -----

  ghost predicate Dead(rows: seq<TokenRow>, family: int) {
    && (exists i :: 0 <= i < |rows| && rows[i].family == family)
    && forall i :: 0 <= i < |rows| && rows[i].family == family ==> !rows[i].Live()
  }

  /** The rows of a family, oldest first. */
  ghost function FamilyRows(rows: seq<TokenRow>, family: int): seq<TokenRow> {
    if rows == [] then []
    else FamilyRows(rows[..|rows| - 1], family)
         + if rows[|rows| - 1].family == family then [rows[|rows| - 1]] else []
  }

  /** Presenting a revoked token kills its family. */
  lemma ReuseKills(rows: seq<TokenRow>, users: set<int>, token: int, minted: int, now: int, ttl: int)
    requires Find(rows, token).Some? && !rows[Find(rows, token).value].Live()
    ensures var r := Perform(rows, users, Refresh(token, minted, now, ttl));
      r.result == Err(ReuseDetected) && Dead(r.rows, rows[Find(rows, token).value].family)
  {
    var i := Find(rows, token).value;
    assert RevokeFamily(rows, rows[i].family, now)[i].family == rows[i].family;
  }

  /** Logging out the live token kills its family. */
  lemma LogoutKills(rows: seq<TokenRow>, users: set<int>, token: int, now: int)
    requires FamiliesOk(rows) && Find(rows, token).Some? && rows[Find(rows, token).value].Live()
    ensures Dead(Perform(rows, users, Logout(token, now)).rows, rows[Find(rows, token).value].family)
  {
    var i := Find(rows, token).value;
    var after := rows[i := Revoke(rows[i], now)];
    assert after[i].family == rows[i].family;
  }

  lemma {:induction false} FamilyRowsFrame(rows: seq<TokenRow>, after: seq<TokenRow>, family: int)
    requires |rows| <= |after|
    requires forall i :: 0 <= i < |rows| && rows[i].family == family ==> after[i] == rows[i]
    requires forall i :: 0 <= i < |rows| && after[i].family == family ==> rows[i].family == family
    requires forall i :: |rows| <= i < |after| ==> after[i].family != family
    ensures FamilyRows(after, family) == FamilyRows(rows, family)
    decreases |after|
  {
    if |rows| < |after| {
      FamilyRowsFrame(rows, after[..|after| - 1], family);
    } else if rows != [] {
      FamilyRowsFrame(rows[..|rows| - 1], after[..|after| - 1], family);
    }
  }

  lemma DeadRowsUntouched(rows: seq<TokenRow>, users: set<int>, c: Call, family: int)
    requires FreshIds(rows, c) && Dead(rows, family)
    ensures var after := Perform(rows, users, c).rows;
      && |rows| <= |after|
      && (forall i :: 0 <= i < |rows| ==> after[i].family == rows[i].family)
      && (forall i :: 0 <= i < |rows| && rows[i].family == family ==> after[i] == rows[i])
      && (forall i :: |rows| <= i < |after| ==> after[i].family != family)
  {
  }

  lemma StepKeepsDead(rows: seq<TokenRow>, users: set<int>, c: Call, family: int)
    requires FamiliesOk(rows) && FreshIds(rows, c) && Dead(rows, family)
    ensures var after := Perform(rows, users, c).rows;
      Dead(after, family) && FamilyRows(after, family) == FamilyRows(rows, family)
  {
    var after := Perform(rows, users, c).rows;
    DeadRowsUntouched(rows, users, c, family);
    var i :| 0 <= i < |rows| && rows[i].family == family;
    assert after[i].family == family;
    FamilyRowsFrame(rows, after, family);
  }

  /** A dead family is dead forever: no run of calls revives, changes or adds any of its tokens, and none of
      its tokens is accepted by a refresh at the end of the run. */
  lemma {:induction false} DeadForever(rows: seq<TokenRow>, users: set<int>, calls: seq<Call>, family: int)
    requires FamiliesOk(rows) && CallsFresh(rows, users, calls) && Dead(rows, family)
    ensures var end := PerformAll(rows, users, calls);
      && Dead(end, family) && FamilyRows(end, family) == FamilyRows(rows, family)
      && forall c: Call :: c.Refresh? && FamilyOf(end, c) == Some(family) ==>
           Perform(end, users, c).result == Err(ReuseDetected)
    decreases |calls|
  {
    if calls != [] {
      var next := Perform(rows, users, calls[0]).rows;
      StepKeepsFamilies(rows, users, calls[0]);
      StepKeepsDead(rows, users, calls[0], family);
      DeadForever(next, users, calls[1..], family);
    }
  }

  lemma {:induction false} FreshPrefix(rows: seq<TokenRow>, users: set<int>, calls: seq<Call>, more: seq<Call>)
    requires CallsFresh(rows, users, calls + more)
    ensures CallsFresh(rows, users, calls)
    decreases |calls|
  {
    if calls != [] {
      assert (calls + more)[1..] == calls[1..] + more;
      FreshPrefix(Perform(rows, users, calls[0]).rows, users, calls[1..], more);
    }
  }

  /** Presenting a token again after it was rotated ends the session: the reuse is refused, and the
      successor it was rotated into dies with the family. */
  lemma RotatedTokenIsATrap(rows: seq<TokenRow>, users: set<int>, token: int, minted: int, now: int, ttl: int,
                            again: Call, later: seq<Call>)
    requires FamiliesOk(rows) && again.Refresh? && again.token == token
    requires Perform(rows, users, Refresh(token, minted, now, ttl)).result.Ok?
    requires CallsFresh(rows, users, [Refresh(token, minted, now, ttl)] + later + [again])
    ensures var mid := PerformAll(rows, users, [Refresh(token, minted, now, ttl)] + later);
      && Perform(mid, users, again).result == Err(ReuseDetected)
      && Dead(Perform(mid, users, again).rows, rows[Find(rows, token).value].family)
  {
    var first := Refresh(token, minted, now, ttl);
    var next := Perform(rows, users, first).rows;
    var mid := PerformAll(rows, users, [first] + later);
    var i := Find(rows, token).value;
    assert ([first] + later)[1..] == later;
    var calls := [first] + later + [again];
    assert calls[1..] == later + [again];
    StepKeepsFamilies(rows, users, first);
    FreshPrefix(next, users, later, [again]);
    RunKeepsFamilies(next, users, later);
    RunKeepsRows(next, users, later);
    assert next[i] == Revoke(rows[i], now) && RowKept(next[i], mid[i]);
    var k := Find(mid, token);
    assert k == Some(i);
    ReuseKills(mid, users, token, again.minted, again.now, again.ttl);
  }
}
