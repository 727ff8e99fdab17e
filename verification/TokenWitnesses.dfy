/** Sessions that show what the token laws speak of. */
module TokenWitnesses {
  import opened Auth
  import opened TokenRaces
  import opened Wrappers

  /** A run of one more call. */
  lemma OneMoreCall(rows: seq<TokenRow>, users: set<int>, c: Call, rest: seq<Call>)
    requires FreshIds(rows, c) && CallsFresh(Perform(rows, users, c).rows, users, rest)
    ensures CallsFresh(rows, users, [c] + rest)
    ensures PerformAll(rows, users, [c] + rest) == PerformAll(Perform(rows, users, c).rows, users, rest)
  {
    assert ([c] + rest)[0] == c && ([c] + rest)[1..] == rest;
  }

  const LOGIN := Call.Login(Some(7), 1, 5, 0, 100)
  const ROTATE := Call.Refresh(5, 6, 10, 100)
  const AGAIN := Call.Refresh(5, 8, 20, 100)
  const LOGGED_IN := [TokenRow(7, 1, 5, 100, None)]
  const ROTATED := [TokenRow(7, 1, 5, 100, Some(10)), TokenRow(7, 1, 6, 110, None)]

  lemma LoginThenRotation()
    ensures Perform([], {7}, LOGIN).rows == LOGGED_IN && Perform(LOGGED_IN, {7}, ROTATE).rows == ROTATED
  {
    assert Find(LOGGED_IN, 5) == Some(0);
  }

  lemma RotatedIsReused()
    ensures FreshIds(ROTATED, AGAIN) && Dead(Perform(ROTATED, {7}, AGAIN).rows, 1)
  {
    assert ROTATED[..1] == [ROTATED[0]] && Find(ROTATED, 5) == Some(0);
    ReuseKills(ROTATED, {7}, 5, 8, 20, 100);
  }

  /** User 7 logs in, rotates the token once, and presents the old one again: the session is dead. */
  lemma ReuseEndsSession()
    ensures CallsFresh([], {7}, [LOGIN, ROTATE, AGAIN]) && Dead(PerformAll([], {7}, [LOGIN, ROTATE, AGAIN]), 1)
  {
    LoginThenRotation();
    RotatedIsReused();
    OneMoreCall(ROTATED, {7}, AGAIN, []);
    OneMoreCall(LOGGED_IN, {7}, ROTATE, [AGAIN] + []);
    OneMoreCall([], {7}, LOGIN, [ROTATE] + ([AGAIN] + []));
    assert [LOGIN, ROTATE, AGAIN] == [LOGIN] + ([ROTATE] + ([AGAIN] + []));
  }

  const ONE_TOKEN := Session([TokenRow(7, 1, 5, 100, None)], {7}, map[])

  lemma OneTokenUsable(minted: int)
    requires minted != 5
    ensures OneUsable(ONE_TOKEN, 0, Call.Refresh(5, minted, 10, 100))
  {
  }

  /** Two refreshes of the one token leave two live ones. */
  lemma OneTokenForks() returns (moves: seq<Move>, end: Session)
    ensures Reaches(ONE_TOKEN, moves, end) && |end.rows| == 3 && end.rows[1].Live() && end.rows[2].Live()
    ensures end.rows[1].family == 1 && end.rows[2].family == 1
  {
    OneTokenUsable(6);
    OneTokenUsable(8);
    moves, end := TwoRefreshesFork(ONE_TOKEN, 0, Call.Refresh(5, 6, 10, 100), Call.Refresh(5, 8, 10, 100), 0, 1);
  }

  /** A refresh under way outlives the logout of the one token. */
  lemma OneTokenRevives() returns (moves: seq<Move>, killed: Session, end: Session)
    ensures |moves| == 4 && Reaches(ONE_TOKEN, moves[..3], killed) && Dead(killed.rows, 1)
    ensures Reaches(ONE_TOKEN, moves, end) && !Dead(end.rows, 1)
  {
    OneTokenUsable(6);
    moves, killed, end := RefreshOutlivesLogout(ONE_TOKEN, 0, Call.Refresh(5, 6, 10, 100), 10, 0, 1);
  }

  /** Another user's login does not disturb the session. */
  lemma LoginsDoNotInterfere()
    ensures Perform(PerformAll([], {7, 8}, [Call.Login(Some(7), 1, 5, 0, 100), Call.Login(Some(8), 2, 6, 1, 100)]),
                    {7, 8}, Call.Refresh(5, 9, 50, 100)).result.Ok?
  {
    var first, other := Call.Login(Some(7), 1, 5, 0, 100), Call.Login(Some(8), 2, 6, 1, 100);
    var one := Perform([], {7, 8}, first).rows;
    assert one == [TokenRow(7, 1, 5, 100, None)];
    assert [other][1..] == [] && [other] + [] == [other] && [first, other] == [first] + [other];
    OneMoreCall(one, {7, 8}, other, []);
    OneMoreCall([], {7, 8}, first, [other]);
    assert SparesFamily(Perform(one, {7, 8}, other).rows, {7, 8}, [], 1);
    assert SparesFamily(one, {7, 8}, [other], 1);
    LoginServesRefresh([], {7, 8}, first, [other], Call.Refresh(5, 9, 50, 100));
  }
}
