/** Replacement of an organization's weekly grid. */
module Availability {
  import opened Slots
  import opened SlotLaws
  import opened ListingLaws
  import opened Wrappers

  datatype GridError = EndNotAfterStart | OverlappingRules(dayOfWeek: int)

  predicate NonEmpty(r: GridRule) { r.start < r.end }

  predicate Disjoint(a: GridRule, b: GridRule) { a.end <= b.start || b.end <= a.start }

  ghost predicate Compatible(a: GridRule, b: GridRule) {
    a.dayOfWeek == b.dayOfWeek ==> Disjoint(a, b)
  }

  ghost predicate PairwiseOk(rules: seq<GridRule>) {
    forall i, j :: 0 <= i < j < |rules| ==> Compatible(rules[i], rules[j])
  }

  /** The guarantee of the grid: every window is non-empty, and windows of one day are pairwise disjoint. */
  ghost predicate GridOk(rules: seq<GridRule>) {
    && (forall r :: r in rules ==> NonEmpty(r))
    && PairwiseOk(rules)
  }

  predicate AtTime(r: GridRule, t: int) { r.start <= t < r.end }

  lemma DisjointMeans(a: GridRule, b: GridRule)
    requires NonEmpty(a) && NonEmpty(b)
    ensures Disjoint(a, b) <==> forall t :: !(AtTime(a, t) && AtTime(b, t))
  {
    if !Disjoint(a, b) {
      var t := if a.start < b.start then b.start else a.start;
      assert AtTime(a, t) && AtTime(b, t);
    }
  }

  /** What an accepted grid means: windows are non-empty, and no time of a day is within two of its windows. */
  lemma GridOkMeans(rules: seq<GridRule>)
    ensures GridOk(rules) <==>
      && (forall r :: r in rules ==> r.start < r.end)
      && forall i, j, t :: 0 <= i < j < |rules| && rules[i].dayOfWeek == rules[j].dayOfWeek ==>
           !(AtTime(rules[i], t) && AtTime(rules[j], t))
  {
    forall i, j | 0 <= i < j < |rules| && NonEmpty(rules[i]) && NonEmpty(rules[j])
      ensures Disjoint(rules[i], rules[j]) <==> forall t :: !(AtTime(rules[i], t) && AtTime(rules[j], t))
    {
      DisjointMeans(rules[i], rules[j]);
    }
    if GridOk(rules) {
      forall i, j, t | 0 <= i < j < |rules| && rules[i].dayOfWeek == rules[j].dayOfWeek
        ensures !(AtTime(rules[i], t) && AtTime(rules[j], t))
      {
        assert Compatible(rules[i], rules[j]);
      }
    }
  }

  // ----- the order of windows within a day -----

  predicate Before(a: GridRule, b: GridRule) {
    a.start < b.start || (a.start == b.start && a.end <= b.end)
  }

  function InsertWindow(w: GridRule, s: seq<GridRule>): seq<GridRule> {
    if s == [] || Before(w, s[0]) then [w] + s else [s[0]] + InsertWindow(w, s[1..])
  }

  function SortWindows(s: seq<GridRule>): seq<GridRule> {
    if s == [] then [] else InsertWindow(s[0], SortWindows(s[1..]))
  }

  ghost predicate Ascending(s: seq<GridRule>) {
    forall i, j :: 0 <= i < j < |s| ==> s[i].start <= s[j].start
  }

  lemma InsertWindowMembers(w: GridRule, s: seq<GridRule>, x: GridRule)
    ensures x in InsertWindow(w, s) <==> x == w || x in s
  {
  }

  lemma {:induction false} InsertWindowAdds(w: GridRule, s: seq<GridRule>)
    ensures multiset(InsertWindow(w, s)) == multiset(s) + multiset{w}
  {
    if s != [] && !Before(w, s[0]) {
      InsertWindowAdds(w, s[1..]);
      assert s == [s[0]] + s[1..];
    }
  }

  lemma {:induction false} SortWindowsPermutes(s: seq<GridRule>)
    ensures multiset(SortWindows(s)) == multiset(s)
  {
    if s != [] {
      SortWindowsPermutes(s[1..]);
      InsertWindowAdds(s[0], SortWindows(s[1..]));
      assert s == [s[0]] + s[1..];
    }
  }

  lemma {:induction false} InsertWindowAscends(w: GridRule, s: seq<GridRule>)
    requires Ascending(s)
    ensures Ascending(InsertWindow(w, s))
  {
    if s != [] && !Before(w, s[0]) {
      InsertWindowAscends(w, s[1..]);
      forall x | x in InsertWindow(w, s[1..])
        ensures s[0].start <= x.start
      {
        InsertWindowMembers(w, s[1..], x);
      }
    }
  }

  lemma {:induction false} SortWindowsAscends(s: seq<GridRule>)
    ensures Ascending(SortWindows(s))
  {
    if s != [] {
      SortWindowsAscends(s[1..]);
      InsertWindowAscends(s[0], SortWindows(s[1..]));
    }
  }

  // ----- pairwise compatibility does not depend on order -----

  lemma PairwiseFromHead(w: GridRule, s: seq<GridRule>)
    ensures PairwiseOk([w] + s) <==> PairwiseOk(s) && forall x :: x in s ==> Compatible(w, x)
  {
    var all := [w] + s;
    if PairwiseOk(all) {
      forall i, j | 0 <= i < j < |s|
        ensures Compatible(s[i], s[j])
      {
        assert all[i + 1] == s[i] && all[j + 1] == s[j];
      }
      forall x | x in s
        ensures Compatible(w, x)
      {
        var j :| 0 <= j < |s| && s[j] == x;
        assert all[0] == w && all[j + 1] == x;
      }
    }
  }

  lemma CompatibleWithAll(w: GridRule, v: GridRule, s: seq<GridRule>, tail: seq<GridRule>)
    requires forall x :: x in s <==> x == w || x in tail
    ensures (forall x :: x in s ==> Compatible(v, x)) <==>
              Compatible(v, w) && forall x :: x in tail ==> Compatible(v, x)
  {
  }

  /** Swapping the first two. */
  lemma PairwiseSwap(v: GridRule, w: GridRule, s: seq<GridRule>, tail: seq<GridRule>)
    requires PairwiseOk(s) <==> PairwiseOk([w] + tail)
    requires forall x :: x in s <==> x == w || x in tail
    ensures PairwiseOk([v] + s) <==> PairwiseOk([w] + ([v] + tail))
  {
    PairwiseFromHead(v, s);
    PairwiseFromHead(w, tail);
    PairwiseFromHead(w, [v] + tail);
    PairwiseFromHead(v, tail);
    CompatibleWithAll(w, v, s, tail);
    CompatibleWithAll(v, w, [v] + tail, tail);
    assert Compatible(v, w) <==> Compatible(w, v);
  }

  lemma {:induction false} PairwiseMiddle(a: seq<GridRule>, w: GridRule, b: seq<GridRule>)
    ensures PairwiseOk(a + [w] + b) <==> PairwiseOk([w] + (a + b))
  {
    if a == [] {
      assert a + [w] + b == [w] + b && a + b == b;
    } else {
      var tail := a[1..] + b;
      var rest := a[1..] + [w] + b;
      PairwiseMiddle(a[1..], w, b);
      PairwiseSwap(a[0], w, rest, tail);
      assert a + [w] + b == [a[0]] + rest && a + b == [a[0]] + tail;
    }
  }

  lemma SameHeadSameRest(w: GridRule, s: seq<GridRule>, s': seq<GridRule>)
    requires multiset(s) == multiset(s') && (PairwiseOk(s) <==> PairwiseOk(s'))
    ensures PairwiseOk([w] + s) <==> PairwiseOk([w] + s')
  {
    PairwiseFromHead(w, s);
    PairwiseFromHead(w, s');
    assert forall x :: x in s <==> x in multiset(s);
    assert forall x :: x in s' <==> x in multiset(s');
  }

  lemma {:induction false} PairwisePermutes(a: seq<GridRule>, b: seq<GridRule>)
    requires multiset(a) == multiset(b)
    ensures PairwiseOk(a) <==> PairwiseOk(b)
    decreases |a|
  {
    if a == [] {
      assert |multiset(b)| == 0;
    } else {
      assert a[0] in multiset(b);
      var i :| 0 <= i < |b| && b[i] == a[0];
      RemoveAt(b, i);
      var rest := b[..i] + b[i + 1..];
      assert a == [a[0]] + a[1..] && b == b[..i] + [a[0]] + b[i + 1..];
      PairwisePermutes(a[1..], rest);
      SameHeadSameRest(a[0], a[1..], rest);
      PairwiseMiddle(b[..i], a[0], b[i + 1..]);
    }
  }

  /** Whether a grid is acceptable does not depend on the order its rules come in. */
  lemma GridOkPermutes(a: seq<GridRule>, b: seq<GridRule>)
    requires multiset(a) == multiset(b)
    ensures GridOk(a) <==> GridOk(b)
  {
    PairwisePermutes(a, b);
    assert forall x :: x in a <==> x in multiset(a);
    assert forall x :: x in b <==> x in multiset(b);
  }

  // ----- comparing neighbours is enough -----

  ghost predicate NeighboursOk(s: seq<GridRule>) {
    forall i :: 1 <= i < |s| ==> s[i - 1].end <= s[i].start
  }

  ghost predicate OneDay(s: seq<GridRule>, d: int) {
    forall r :: r in s ==> NonEmpty(r) && r.dayOfWeek == d
  }

  lemma {:induction false} NeighboursReachFar(s: seq<GridRule>, d: int, i: nat, j: nat)
    requires OneDay(s, d) && NeighboursOk(s) && i < j < |s|
    ensures s[i].end <= s[j].start
    decreases j
  {
    if i + 1 < j {
      NeighboursReachFar(s, d, i, j - 1);
      assert NonEmpty(s[j - 1]);
      assert s[j - 1].end <= s[j].start;
    }
  }

  lemma NeighboursSuffice(s: seq<GridRule>, d: int)
    requires OneDay(s, d) && Ascending(s)
    ensures NeighboursOk(s) <==> PairwiseOk(s)
  {
    if NeighboursOk(s) {
      forall i: nat, j: nat | i < j < |s|
        ensures Compatible(s[i], s[j])
      {
        NeighboursReachFar(s, d, i, j);
      }
    }
    if PairwiseOk(s) {
      forall i | 1 <= i < |s|
        ensures s[i - 1].end <= s[i].start
      {
        assert Compatible(s[i - 1], s[i]) && s[i - 1].start <= s[i].start;
        assert NonEmpty(s[i - 1]) && NonEmpty(s[i]);
      }
    }
  }

  /** Sorting the windows of a day and comparing neighbours decides whether all pairs are disjoint. */
  lemma SortedNeighboursDecide(s: seq<GridRule>, d: int)
    requires OneDay(s, d)
    ensures NeighboursOk(SortWindows(s)) <==> PairwiseOk(s)
  {
    SortWindowsAscends(s);
    SortWindowsPermutes(s);
    assert forall x :: x in SortWindows(s) <==> x in multiset(SortWindows(s));
    NeighboursSuffice(SortWindows(s), d);
    PairwisePermutes(s, SortWindows(s));
  }

  // ----- a grid is fine when each day is -----

  lemma {:induction false} PairwiseOnDay(rules: seq<GridRule>, d: int)
    requires PairwiseOk(rules)
    ensures PairwiseOk(RulesOn(rules, d))
  {
    if rules != [] {
      var rest := RulesOn(rules[1..], d);
      PairwiseOnDay(rules[1..], d);
      assert rules == [rules[0]] + rules[1..];
      PairwiseFromHead(rules[0], rules[1..]);
      PairwiseFromHead(rules[0], rest);
      forall x | x in rest ensures x in rules[1..] { RulesOnMembers(rules[1..], d, x); }
      assert [] + rest == rest;
    }
  }

  lemma DropHeadOn(rules: seq<GridRule>, d: int)
    requires rules != [] && PairwiseOk(RulesOn(rules, d))
    ensures PairwiseOk(RulesOn(rules[1..], d))
  {
    var rest := RulesOn(rules[1..], d);
    if rules[0].dayOfWeek == d {
      assert RulesOn(rules, d) == [rules[0]] + rest;
      PairwiseFromHead(rules[0], rest);
    } else {
      assert RulesOn(rules, d) == [] + rest == rest;
    }
  }

  lemma {:induction false} PairwiseByDay(rules: seq<GridRule>)
    requires forall d :: PairwiseOk(RulesOn(rules, d))
    ensures PairwiseOk(rules)
  {
    if rules != [] {
      forall d
        ensures PairwiseOk(RulesOn(rules[1..], d))
      {
        assert PairwiseOk(RulesOn(rules, d));
        DropHeadOn(rules, d);
      }
      PairwiseByDay(rules[1..]);
      var d0 := rules[0].dayOfWeek;
      assert PairwiseOk(RulesOn(rules, d0));
      PairwiseFromHead(rules[0], RulesOn(rules[1..], d0));
      forall x | x in rules[1..]
        ensures Compatible(rules[0], x)
      {
        RulesOnMembers(rules[1..], d0, x);
      }
      PairwiseFromHead(rules[0], rules[1..]);
      assert rules == [rules[0]] + rules[1..];
    }
  }

  /** Truncation to whole minutes keeps the windows of an accepted grid disjoint. */
  lemma TruncationKeepsDisjoint(rules: seq<GridRule>)
    requires GridOk(rules)
    ensures RulesDisjoint(rules)
  {
    forall i, j | 0 <= i < j < |rules| && rules[i].dayOfWeek == rules[j].dayOfWeek
      ensures rules[i].EndMinute() <= rules[j].StartMinute() || rules[j].EndMinute() <= rules[i].StartMinute()
    {
      assert Compatible(rules[i], rules[j]);
    }
  }

  // ----- replace_grid -----

  /** The groups in the order their days were first met, as a Python dict iterates. */
  datatype Grouped = Grouped(days: seq<int>, byDay: map<int, seq<GridRule>>)

  ghost predicate Groups(g: Grouped, rules: seq<GridRule>) {
    && (forall d :: RulesFor(g.byDay, d) == RulesOn(rules, d))
    && (forall d :: d in g.days <==> d in g.byDay)
    && (forall i, j :: 0 <= i < j < |g.days| ==> g.days[i] != g.days[j])
  }

  /** The position of the first rule of this day, or the number of rules if there is none. */
  function FirstMet(rules: seq<GridRule>, d: int): (at: nat)
    ensures at <= |rules|
  {
    if rules == [] || rules[0].dayOfWeek == d then 0 else 1 + FirstMet(rules[1..], d)
  }

  lemma {:induction false} FirstMetAppend(rules: seq<GridRule>, rule: GridRule, d: int)
    ensures FirstMet(rules + [rule], d)
         == if FirstMet(rules, d) < |rules| || rule.dayOfWeek == d then FirstMet(rules, d) else |rules| + 1
  {
    if rules == [] {
      assert rules + [rule] == [rule];
    } else {
      assert (rules + [rule])[1..] == rules[1..] + [rule];
      FirstMetAppend(rules[1..], rule, d);
    }
  }

  lemma {:induction false} FirstMetIff(rules: seq<GridRule>, d: int)
    ensures FirstMet(rules, d) < |rules| <==> RulesOn(rules, d) != []
  {
    if rules != [] { FirstMetIff(rules[1..], d); }
  }

  /** The days are among the rules', in the order they are first met. */
  ghost predicate InOrder(days: seq<int>, rules: seq<GridRule>) {
    && (forall d :: d in days ==> FirstMet(rules, d) < |rules|)
    && forall i, j :: 0 <= i < j < |days| ==> FirstMet(rules, days[i]) < FirstMet(rules, days[j])
  }

  lemma OrderNext(days: seq<int>, seen: seq<GridRule>, rule: GridRule)
    requires InOrder(days, seen)
    requires rule.dayOfWeek in days <==> FirstMet(seen, rule.dayOfWeek) < |seen|
    ensures var d := rule.dayOfWeek; InOrder(if d in days then days else days + [d], seen + [rule])
  {
    forall d { FirstMetAppend(seen, rule, d); }
  }

  /** Rows as replace_grid stores them: day by day as first met, and within a day from early to late. */
  ghost predicate Arranged(rules: seq<GridRule>, rows: seq<GridRule>) {
    forall i, j :: 0 <= i < j < |rows| ==>
      if rows[i].dayOfWeek == rows[j].dayOfWeek then rows[i].end <= rows[j].start
      else FirstMet(rules, rows[i].dayOfWeek) < FirstMet(rules, rows[j].dayOfWeek)
  }

  lemma ArrangeDay(rules: seq<GridRule>, days: seq<int>, i: nat, stored: seq<GridRule>, windows: seq<GridRule>)
    requires i < |days| && InOrder(days, rules) && Arranged(rules, stored)
    requires (forall x :: x in stored ==> x.dayOfWeek in days[..i]) && OneDay(windows, days[i]) && NeighboursOk(windows)
    ensures Arranged(rules, stored + windows)
    ensures forall x :: x in stored + windows ==> x.dayOfWeek in days[..i + 1]
  {
    var all := stored + windows;
    forall a: nat, b: nat | a < b < |windows|
      ensures windows[a].end <= windows[b].start
    {
      NeighboursReachFar(windows, days[i], a, b);
    }
    forall x | x in all
      ensures x.dayOfWeek in days[..i + 1]
    {
      assert x in windows ==> x.dayOfWeek == days[..i + 1][i];
    }
    forall a: nat, b: nat | a < |stored| && b < |windows|
      ensures FirstMet(rules, stored[a].dayOfWeek) < FirstMet(rules, windows[b].dayOfWeek)
    {
      assert stored[a] in stored && windows[b] in windows;
      var k :| 0 <= k < i && days[..i][k] == stored[a].dayOfWeek;
    }
  }

  ghost predicate DaysOk(rules: seq<GridRule>, days: seq<int>) {
    forall d :: d in days ==> PairwiseOk(RulesOn(rules, d))
  }

  /** The days met before this one are among those checked before it. */
  lemma EarlierDaysOk(rules: seq<GridRule>, g: Grouped, i: nat, d: int)
    requires Groups(g, rules) && InOrder(g.days, rules) && i < |g.days| && DaysOk(rules, g.days[..i])
    requires FirstMet(rules, d) < FirstMet(rules, g.days[i])
    ensures PairwiseOk(RulesOn(rules, d))
  {
    FirstMetIff(rules, d);
    assert RulesFor(g.byDay, d) == RulesOn(rules, d);
    assert g.days[i] in g.days && d in g.days;
    var k :| 0 <= k < |g.days| && g.days[k] == d;
    assert k < i;
    assert d == g.days[..i][k];
  }

  lemma DayIsOneDay(rules: seq<GridRule>, d: int)
    requires forall x :: x in rules ==> NonEmpty(x)
    ensures OneDay(RulesOn(rules, d), d)
  {
    forall x | x in RulesOn(rules, d)
      ensures NonEmpty(x) && x.dayOfWeek == d
    {
      RulesOnMembers(rules, d, x);
    }
  }

  lemma GridOkOnDay(rules: seq<GridRule>, d: int)
    ensures GridOk(rules) ==> PairwiseOk(RulesOn(rules, d))
  {
    if GridOk(rules) { PairwiseOnDay(rules, d); }
  }

  lemma DayVerdict(rules: seq<GridRule>, g: Grouped, d: int)
    requires Groups(g, rules) && d in g.days && forall x :: x in rules ==> NonEmpty(x)
    ensures d in g.byDay && g.byDay[d] == RulesOn(rules, d)
    ensures NeighboursOk(SortWindows(g.byDay[d])) <==> PairwiseOk(RulesOn(rules, d))
    ensures GridOk(rules) ==> PairwiseOk(RulesOn(rules, d))
  {
    assert RulesFor(g.byDay, d) == RulesOn(rules, d);
    DayIsOneDay(rules, d);
    SortedNeighboursDecide(RulesOn(rules, d), d);
    GridOkOnDay(rules, d);
  }

  /** The rows collected so far are the rules of these days, each as often as given. */
  ghost predicate StoredDays(rules: seq<GridRule>, days: seq<int>, stored: seq<GridRule>) {
    forall x: GridRule :: multiset(stored)[x] == if x.dayOfWeek in days then multiset(rules)[x] else 0
  }

  /** The loop over sorted neighbours. */
  method CheckNeighbours(windows: seq<GridRule>) returns (fine: bool)
    ensures fine <==> NeighboursOk(windows)
  {
    var i := 1;
    while i < |windows|
      invariant 1 <= i
      invariant forall k :: 1 <= k < i && k < |windows| ==> windows[k - 1].end <= windows[k].start
    {
      var prevEnd, curStart := windows[i - 1].end, windows[i].start;
      if curStart < prevEnd {
        return false;
      }
      i := i + 1;
    }
    return true;
  }

  lemma StoreDayCount(
    rules: seq<GridRule>, earlier: seq<int>, d: int, stored: seq<GridRule>, windows: seq<GridRule>, x: GridRule)
    requires d !in earlier && StoredDays(rules, earlier, stored)
    requires multiset(windows) == multiset(RulesOn(rules, d))
    ensures multiset(stored + windows)[x] == if x.dayOfWeek in earlier + [d] then multiset(rules)[x] else 0
  {
    RulesOnCount(rules, d, x);
    assert multiset(stored + windows)[x] == multiset(stored)[x] + multiset(windows)[x];
  }

  lemma StoreDayOn(rules: seq<GridRule>, earlier: seq<int>, d: int, stored: seq<GridRule>, windows: seq<GridRule>)
    requires d !in earlier && StoredDays(rules, earlier, stored) && DaysOk(rules, earlier)
    requires multiset(windows) == multiset(RulesOn(rules, d)) && PairwiseOk(RulesOn(rules, d))
    ensures DaysOk(rules, earlier + [d]) && StoredDays(rules, earlier + [d], stored + windows)
  {
    forall x
      ensures multiset(stored + windows)[x] == if x.dayOfWeek in earlier + [d] then multiset(rules)[x] else 0
    {
      StoreDayCount(rules, earlier, d, stored, windows, x);
    }
  }

  lemma StoreDay(rules: seq<GridRule>, days: seq<int>, i: nat, stored: seq<GridRule>, windows: seq<GridRule>)
    requires i < |days| && days[i] !in days[..i]
    requires windows == SortWindows(RulesOn(rules, days[i])) && PairwiseOk(RulesOn(rules, days[i]))
    requires StoredDays(rules, days[..i], stored) && DaysOk(rules, days[..i])
    ensures DaysOk(rules, days[..i + 1])
    ensures StoredDays(rules, days[..i + 1], stored + windows)
  {
    SortWindowsPermutes(RulesOn(rules, days[i]));
    assert days[..i + 1] == days[..i] + [days[i]];
    StoreDayOn(rules, days[..i], days[i], stored, windows);
  }

  lemma AllDaysStored(rules: seq<GridRule>, g: Grouped, stored: seq<GridRule>)
    requires Groups(g, rules) && (forall x :: x in rules ==> NonEmpty(x))
    requires DaysOk(rules, g.days[..|g.days|]) && StoredDays(rules, g.days[..|g.days|], stored)
    ensures GridOk(rules) && multiset(stored) == multiset(rules)
  {
    assert g.days[..|g.days|] == g.days;
    forall d
      ensures PairwiseOk(RulesOn(rules, d))
    {
      assert RulesFor(g.byDay, d) == RulesOn(rules, d);
    }
    PairwiseByDay(rules);
    forall x
      ensures multiset(stored)[x] == multiset(rules)[x]
    {
      if x.dayOfWeek !in g.days {
        assert RulesFor(g.byDay, x.dayOfWeek) == RulesOn(rules, x.dayOfWeek);
        RulesOnMembers(rules, x.dayOfWeek, x);
        assert x !in rules;
      }
    }
  }

  lemma SortedIsOneDay(rules: seq<GridRule>, d: int)
    requires forall x :: x in rules ==> NonEmpty(x)
    ensures OneDay(SortWindows(RulesOn(rules, d)), d)
  {
    DayIsOneDay(rules, d);
    SortWindowsPermutes(RulesOn(rules, d));
    assert forall x :: x in SortWindows(RulesOn(rules, d)) <==> x in multiset(SortWindows(RulesOn(rules, d)));
  }

  /** No day met earlier has overlapping windows. */
  ghost predicate FirstToFail(rules: seq<GridRule>, d: int) {
    && !PairwiseOk(RulesOn(rules, d))
    && forall d' :: FirstMet(rules, d') < FirstMet(rules, d) ==> PairwiseOk(RulesOn(rules, d'))
  }

  /** The loop over the days: sort each day's windows, compare neighbours, collect the rows to store. */
  method CheckDays(rules: seq<GridRule>, g: Grouped) returns (r: Result<seq<GridRule>, GridError>)
    requires Groups(g, rules) && InOrder(g.days, rules) && forall x :: x in rules ==> NonEmpty(x)
    ensures r.Ok? <==> GridOk(rules)
    ensures r.Ok? ==> multiset(r.value) == multiset(rules) && Arranged(rules, r.value)
    ensures r.Err? ==> r.error.OverlappingRules? && FirstToFail(rules, r.error.dayOfWeek)
  {
    var stored: seq<GridRule> := [];
    for i := 0 to |g.days|
      invariant DaysOk(rules, g.days[..i])
      invariant StoredDays(rules, g.days[..i], stored)
      invariant Arranged(rules, stored) && forall x :: x in stored ==> x.dayOfWeek in g.days[..i]
    {
      var d := g.days[i];
      DayVerdict(rules, g, d);
      var windows := SortWindows(g.byDay[d]);
      var fine := CheckNeighbours(windows);
      if !fine {
        forall d' | FirstMet(rules, d') < FirstMet(rules, d) { EarlierDaysOk(rules, g, i, d'); }
        return Err(OverlappingRules(d));
      }
      SortedIsOneDay(rules, d);
      ArrangeDay(rules, g.days, i, stored, windows);
      StoreDay(rules, g.days, i, stored, windows);
      stored := stored + windows;
    }
    AllDaysStored(rules, g, stored);
    return Ok(stored);
  }

  lemma GroupOne(g: Grouped, seen: seq<GridRule>, rule: GridRule)
    requires Groups(g, seen)
    ensures Groups(Grouped(if rule.dayOfWeek in g.byDay then g.days else g.days + [rule.dayOfWeek],
                           g.byDay[rule.dayOfWeek := RulesFor(g.byDay, rule.dayOfWeek) + [rule]]),
                   seen + [rule])
  {
    var byDay := g.byDay[rule.dayOfWeek := RulesFor(g.byDay, rule.dayOfWeek) + [rule]];
    forall d
      ensures RulesFor(byDay, d) == RulesOn(seen + [rule], d)
    {
      assert RulesFor(g.byDay, d) == RulesOn(seen, d);
      RulesOnAppend(seen, rule, d);
    }
  }

  lemma DayIsMet(g: Grouped, seen: seq<GridRule>, d: int)
    requires Groups(g, seen) && InOrder(g.days, seen)
    ensures d in g.days <==> FirstMet(seen, d) < |seen|
  {
    FirstMetIff(seen, d);
    assert RulesFor(g.byDay, d) == RulesOn(seen, d);
  }

  /** What the grouping loop has after these rules. */
  ghost predicate Grouping(g: Grouped, rules: seq<GridRule>) { Groups(g, rules) && InOrder(g.days, rules) }

  function GroupIn(g: Grouped, rule: GridRule): Grouped {
    Grouped(if rule.dayOfWeek in g.byDay then g.days else g.days + [rule.dayOfWeek],
            g.byDay[rule.dayOfWeek := RulesFor(g.byDay, rule.dayOfWeek) + [rule]])
  }

  /** The groups after all these rules, taken one by one. */
  function GroupAll(rules: seq<GridRule>): Grouped {
    if rules == [] then Grouped([], map[])
    else GroupIn(GroupAll(rules[..|rules| - 1]), rules[|rules| - 1])
  }

  lemma GroupNext(rules: seq<GridRule>, i: nat)
    requires i < |rules|
    ensures GroupAll(rules[..i + 1]) == GroupIn(GroupAll(rules[..i]), rules[i])
  {
    assert rules[..i + 1][..i] == rules[..i];
  }

  lemma GroupingGrows(g: Grouped, seen: seq<GridRule>, rule: GridRule)
    requires Grouping(g, seen)
    ensures Grouping(GroupIn(g, rule), seen + [rule])
  {
    GroupOne(g, seen, rule);
    DayIsMet(g, seen, rule.dayOfWeek);
    OrderNext(g.days, seen, rule);
  }

  lemma SplitLast(rules: seq<GridRule>)
    requires rules != []
    ensures rules == rules[..|rules| - 1] + [rules[|rules| - 1]]
  {
  }

  lemma {:induction false} GroupAllGroups(rules: seq<GridRule>)
    ensures Grouping(GroupAll(rules), rules)
  {
    if rules != [] {
      GroupAllGroups(rules[..|rules| - 1]);
      GroupingGrows(GroupAll(rules[..|rules| - 1]), rules[..|rules| - 1], rules[|rules| - 1]);
      SplitLast(rules);
    }
  }

  /** The grouping loop, which stops at the first empty window. */
  method GroupByDay(rules: seq<GridRule>) returns (r: Result<Grouped, GridError>)
    ensures r.Ok? <==> forall x :: x in rules ==> NonEmpty(x)
    ensures r.Ok? ==> r.value == GroupAll(rules)
    ensures r.Err? ==> r == Err(EndNotAfterStart)
  {
    var days, byDay := [], map[];
    for i := 0 to |rules|
      invariant forall k :: 0 <= k < i ==> NonEmpty(rules[k])
      invariant Grouped(days, byDay) == GroupAll(rules[..i])
    {
      var rule := rules[i];
      if rule.end <= rule.start {
        assert rule in rules && !NonEmpty(rule);
        return Err(EndNotAfterStart);
      }
      GroupNext(rules, i);
      days := if rule.dayOfWeek in byDay then days else days + [rule.dayOfWeek];
      byDay := byDay[rule.dayOfWeek := RulesFor(byDay, rule.dayOfWeek) + [rule]];
    }
    assert rules[..|rules|] == rules;
    return Ok(Grouped(days, byDay));
  }

  class GridTable {
    /** The rules stored for each organization. */
    var grids: map<int, seq<GridRule>>

    constructor ()
      ensures grids == map[]
    {
      grids := map[];
    }

    /** replace_grid. */
    method ReplaceGrid(org: int, rules: seq<GridRule>) returns (r: Result<seq<GridRule>, GridError>)
      modifies this
      ensures r.Ok? <==> GridOk(rules)
      ensures r.Ok? ==> GridOk(r.value) && multiset(r.value) == multiset(rules) && grids == old(grids)[org := r.value]
      ensures r.Ok? ==> Arranged(rules, r.value)
      ensures r.Err? ==> grids == old(grids)
      ensures r == Err(EndNotAfterStart) <==> exists x :: x in rules && !NonEmpty(x)
      ensures r.Err? && r.error.OverlappingRules? ==> FirstToFail(rules, r.error.dayOfWeek)
    {
      var grouped := GroupByDay(rules);
      if grouped.Err? {
        return Err(grouped.error);
      }
      GroupAllGroups(rules);
      var checked := CheckDays(rules, grouped.value);
      if checked.Err? {
        return checked;
      }
      GridOkPermutes(rules, checked.value);
      grids := grids[org := checked.value];
      return checked;
    }
  }
}
