/** Longest-prefix dispatch of request paths over the configured routes. */
module Dispatcher {
  import opened Wrappers

  datatype Route = Route(prefix: string, target: string)
  datatype RouteMatch = RouteMatch(route: Route, strippedPath: string)

  /** Before the first route with a prefix no longer than its own: routes of equal length keep their order. */
  function Insert(r: Route, sorted: seq<Route>): seq<Route> {
    if sorted == [] || |r.prefix| >= |sorted[0].prefix| then [r] + sorted
    else [sorted[0]] + Insert(r, sorted[1..])
  }

  /** The stable sort by prefix length, longest first. */
  function SortRoutes(routes: seq<Route>): seq<Route> {
    if routes == [] then [] else Insert(routes[0], SortRoutes(routes[1..]))
  }

  predicate Matches(path: string, r: Route) {
    r.prefix <= path
  }

  /** The first match; the rest of the path always begins with a slash. */
  function ResolveRoute(path: string, routes: seq<Route>): Option<RouteMatch> {
    if routes == [] then None
    else if Matches(path, routes[0]) then
      var stripped := path[|routes[0].prefix|..];
      Some(RouteMatch(routes[0], if "/" <= stripped then stripped else "/" + stripped))
    else ResolveRoute(path, routes[1..])
  }

  // ------------------------------------------------------- what the sort gives

  predicate Sorted(routes: seq<Route>) {
    forall i, j :: 0 <= i < j < |routes| ==> |routes[i].prefix| >= |routes[j].prefix|
  }

  /** The routes whose prefix has length `n`, in order. */
  function OfLength(routes: seq<Route>, n: nat): seq<Route> {
    if routes == [] then []
    else (if |routes[0].prefix| == n then [routes[0]] else []) + OfLength(routes[1..], n)
  }

  lemma {:induction false} InsertAdds(r: Route, sorted: seq<Route>)
    ensures multiset(Insert(r, sorted)) == multiset{r} + multiset(sorted)
    ensures forall x :: x in Insert(r, sorted) <==> x == r || x in sorted
  {
    if sorted != [] && |r.prefix| < |sorted[0].prefix| {
      InsertAdds(r, sorted[1..]);
      assert sorted == [sorted[0]] + sorted[1..];
    }
  }

  lemma {:induction false} InsertKeepsSorted(r: Route, sorted: seq<Route>)
    requires Sorted(sorted)
    ensures Sorted(Insert(r, sorted))
  {
    if sorted != [] && |r.prefix| < |sorted[0].prefix| {
      InsertKeepsSorted(r, sorted[1..]);
      InsertAdds(r, sorted[1..]);
      var rest := Insert(r, sorted[1..]);
      forall i | 0 <= i < |rest| ensures |sorted[0].prefix| >= |rest[i].prefix| {
        assert rest[i] in rest;
      }
    }
  }

  lemma OfLengthCons(r: Route, routes: seq<Route>, n: nat)
    ensures OfLength([r] + routes, n) == if |r.prefix| == n then [r] + OfLength(routes, n) else OfLength(routes, n)
  {
    assert ([r] + routes)[1..] == routes;
    assert [] + OfLength(routes, n) == OfLength(routes, n);
  }

  lemma {:induction false} InsertIsStable(r: Route, sorted: seq<Route>, n: nat)
    ensures OfLength(Insert(r, sorted), n) == if |r.prefix| == n then [r] + OfLength(sorted, n) else OfLength(sorted, n)
  {
    if sorted == [] || |r.prefix| >= |sorted[0].prefix| {
      OfLengthCons(r, sorted, n);
    } else {
      InsertIsStable(r, sorted[1..], n);
      OfLengthCons(sorted[0], Insert(r, sorted[1..]), n);
      OfLengthCons(sorted[0], sorted[1..], n);
      assert sorted == [sorted[0]] + sorted[1..];
    }
  }

  lemma InsertSorts(r: Route, rest: seq<Route>, sorted: seq<Route>, n: nat)
    requires Sorted(sorted) && multiset(sorted) == multiset(rest) && OfLength(sorted, n) == OfLength(rest, n)
    ensures Sorted(Insert(r, sorted))
    ensures multiset(Insert(r, sorted)) == multiset([r] + rest)
    ensures OfLength(Insert(r, sorted), n) == OfLength([r] + rest, n)
  {
    InsertAdds(r, sorted);
    InsertKeepsSorted(r, sorted);
    InsertIsStable(r, sorted, n);
    OfLengthCons(r, rest, n);
  }

  /** Longest first, the same routes, and those of equal length in configured order. */
  lemma {:induction false} SortIsStable(routes: seq<Route>, n: nat)
    ensures Sorted(SortRoutes(routes))
    ensures multiset(SortRoutes(routes)) == multiset(routes)
    ensures OfLength(SortRoutes(routes), n) == OfLength(routes, n)
  {
    if routes != [] {
      SortIsStable(routes[1..], n);
      InsertSorts(routes[0], routes[1..], SortRoutes(routes[1..]), n);
      assert routes == [routes[0]] + routes[1..];
    }
  }

  // -------------------------------------------------------- longest-prefix match

  /** The i-th route's prefix is one of the path, no such prefix is longer, and none as long comes earlier. */
  ghost predicate IsBest(path: string, routes: seq<Route>, i: nat) {
    && i < |routes| && routes[i].prefix <= path
    && (forall j :: 0 <= j < |routes| && routes[j].prefix <= path ==> |routes[j].prefix| <= |routes[i].prefix|)
    && (forall j :: 0 <= j < i && routes[j].prefix <= path ==> |routes[j].prefix| < |routes[i].prefix|)
  }

  lemma {:induction false} FirstMatch(path: string, routes: seq<Route>)
    ensures ResolveRoute(path, routes).None? <==> forall i :: 0 <= i < |routes| ==> !Matches(path, routes[i])
    ensures ResolveRoute(path, routes).Some? ==>
              exists i :: 0 <= i < |routes| && routes[i] == ResolveRoute(path, routes).value.route && Matches(path, routes[i])
                          && forall j :: 0 <= j < i ==> !Matches(path, routes[j])
  {
    if routes != [] && !Matches(path, routes[0]) {
      FirstMatch(path, routes[1..]);
      if ResolveRoute(path, routes).Some? {
        var r := ResolveRoute(path, routes).value.route;
        var i :| 0 <= i < |routes| - 1 && routes[1..][i] == r && Matches(path, routes[1..][i])
                 && forall j :: 0 <= j < i ==> !Matches(path, routes[1..][j]);
        assert routes[i + 1] == r;
        forall j | 0 <= j < i + 1 ensures !Matches(path, routes[j]) {
          assert j > 0 ==> routes[j] == routes[1..][j - 1];
        }
      }
      assert forall i :: 0 < i < |routes| ==> routes[i] == routes[1..][i - 1];
    }
  }

  /** Two routes matching one path with prefixes of one length have the same prefix. */
  lemma SameLengthSamePrefix(path: string, a: Route, b: Route)
    requires Matches(path, a) && Matches(path, b) && |a.prefix| == |b.prefix|
    ensures a.prefix == b.prefix
  {
    assert a.prefix == path[..|a.prefix|] == b.prefix;
  }

  /** The first route of a given length, among those matching, heads the list of that length's matches. */
  function MatchesOfLength(path: string, routes: seq<Route>, n: nat): seq<Route> {
    if routes == [] then []
    else (if |routes[0].prefix| == n && Matches(path, routes[0]) then [routes[0]] else [])
         + MatchesOfLength(path, routes[1..], n)
  }

  lemma {:induction false} MatchesFromOfLength(path: string, a: seq<Route>, b: seq<Route>, n: nat)
    requires OfLength(a, n) == OfLength(b, n)
    ensures MatchesOfLength(path, a, n) == MatchesOfLength(path, b, n)
    decreases |a| + |b|
  {
    if a != [] && |a[0].prefix| != n {
      assert OfLength(a, n) == OfLength(a[1..], n);
      MatchesFromOfLength(path, a[1..], b, n);
      assert [] + MatchesOfLength(path, a[1..], n) == MatchesOfLength(path, a[1..], n);
    } else if b != [] && |b[0].prefix| != n {
      assert OfLength(b, n) == OfLength(b[1..], n);
      MatchesFromOfLength(path, a, b[1..], n);
      assert [] + MatchesOfLength(path, b[1..], n) == MatchesOfLength(path, b[1..], n);
    } else if a != [] && b != [] {
      assert OfLength(a, n)[1..] == OfLength(a[1..], n) && OfLength(b, n)[1..] == OfLength(b[1..], n);
      assert OfLength(a, n)[0] == a[0] && OfLength(b, n)[0] == b[0];
      MatchesFromOfLength(path, a[1..], b[1..], n);
    }
  }

  lemma {:induction false} HeadOfMatches(path: string, routes: seq<Route>, i: nat)
    requires i < |routes| && Matches(path, routes[i])
    requires forall j :: 0 <= j < i && Matches(path, routes[j]) ==> |routes[j].prefix| != |routes[i].prefix|
    ensures var ms := MatchesOfLength(path, routes, |routes[i].prefix|); ms != [] && ms[0] == routes[i]
  {
    if i > 0 {
      HeadOfMatches(path, routes[1..], i - 1);
      assert !Matches(path, routes[0]) || |routes[0].prefix| != |routes[i].prefix|;
    }
  }

  /** The route found in the sorted list is the best of the configured ones. */
  lemma FoundIsBest(path: string, routes: seq<Route>) returns (i: nat)
    requires ResolveRoute(path, SortRoutes(routes)).Some?
    ensures IsBest(path, routes, i) && routes[i] == ResolveRoute(path, SortRoutes(routes)).value.route
  {
    var sorted := SortRoutes(routes);
    FirstMatch(path, sorted);
    var k :| 0 <= k < |sorted| && sorted[k] == ResolveRoute(path, sorted).value.route && Matches(path, sorted[k])
             && forall j :: 0 <= j < k ==> !Matches(path, sorted[j]);
    i := FirstOfItsLength(path, routes, sorted[k], k);
    NoMatchIsLonger(path, routes, k);
  }

  /** Of the matches of one length, the sorted list and the configuration have the same first. */
  lemma FirstOfItsLength(path: string, routes: seq<Route>, r: Route, k: nat) returns (i: nat)
    requires k < |SortRoutes(routes)| && SortRoutes(routes)[k] == r && Matches(path, r)
    requires forall j :: 0 <= j < k ==> !Matches(path, SortRoutes(routes)[j])
    ensures i < |routes| && routes[i] == r
    ensures forall j :: 0 <= j < i && Matches(path, routes[j]) ==> |routes[j].prefix| != |r.prefix|
  {
    var n := |r.prefix|;
    SortIsStable(routes, n);
    MatchesFromOfLength(path, SortRoutes(routes), routes, n);
    HeadOfMatches(path, SortRoutes(routes), k);
    SameElements(routes, SortRoutes(routes));
    assert r in SortRoutes(routes);
    var y :| 0 <= y < |routes| && routes[y] == r;
    i := FirstOfLength(path, routes, n, y);
    HeadOfMatches(path, routes, i);
  }

  lemma SortedFrom(routes: seq<Route>, j: nat) returns (x: nat)
    requires j < |routes|
    ensures x < |SortRoutes(routes)| && SortRoutes(routes)[x] == routes[j]
  {
    SortIsStable(routes, 0);
    SameElements(routes, SortRoutes(routes));
    assert routes[j] in routes;
    x :| x < |SortRoutes(routes)| && SortRoutes(routes)[x] == routes[j];
  }

  lemma NoMatchIsLonger(path: string, routes: seq<Route>, k: nat)
    requires k < |SortRoutes(routes)| && forall j :: 0 <= j < k ==> !Matches(path, SortRoutes(routes)[j])
    ensures forall j :: 0 <= j < |routes| && Matches(path, routes[j]) ==>
              |routes[j].prefix| <= |SortRoutes(routes)[k].prefix|
  {
    SortIsStable(routes, 0);
    forall j | 0 <= j < |routes| && Matches(path, routes[j])
      ensures |routes[j].prefix| <= |SortRoutes(routes)[k].prefix|
    {
      var x := SortedFrom(routes, j);
      assert k <= x;
    }
  }

  lemma BestIsUnique(path: string, routes: seq<Route>, a: nat, b: nat)
    requires IsBest(path, routes, a) && IsBest(path, routes, b)
    ensures a == b
  {
  }

  /**
   Dispatch over the sorted routes: null exactly when no prefix matches, and otherwise the earliest
   configured route among those with the longest matching prefix.
   */
  lemma ResolvesToBest(path: string, routes: seq<Route>)
    ensures var m := ResolveRoute(path, SortRoutes(routes));
            && (m.None? <==> forall i :: 0 <= i < |routes| ==> !(routes[i].prefix <= path))
            && (forall i: nat :: IsBest(path, routes, i) ==> m.Some? && m.value.route == routes[i])
            && (m.Some? ==> exists i: nat :: IsBest(path, routes, i))
  {
    var sorted := SortRoutes(routes);
    if ResolveRoute(path, sorted).Some? {
      var i := FoundIsBest(path, routes);
      forall b: nat | IsBest(path, routes, b) ensures b == i {
        BestIsUnique(path, routes, b, i);
      }
    } else {
      FirstMatch(path, sorted);
      SortIsStable(routes, 0);
      SameElements(routes, sorted);
      forall i | 0 <= i < |routes| ensures !Matches(path, routes[i]) {
        assert routes[i] in routes;
        var x :| 0 <= x < |sorted| && sorted[x] == routes[i];
      }
    }
  }

  lemma SameElements(routes: seq<Route>, sorted: seq<Route>)
    requires multiset(routes) == multiset(sorted)
    ensures forall r :: r in routes <==> r in sorted
  {
    forall r ensures r in routes <==> r in sorted {
      assert r in routes <==> r in multiset(routes);
      assert r in sorted <==> r in multiset(sorted);
    }
  }

  /** The earliest match of length `n`, given one at `y`. */
  lemma {:induction false} FirstOfLength(path: string, routes: seq<Route>, n: nat, y: nat) returns (i: nat)
    requires y < |routes| && Matches(path, routes[y]) && |routes[y].prefix| == n
    ensures i <= y && Matches(path, routes[i]) && |routes[i].prefix| == n
    ensures forall j :: 0 <= j < i && Matches(path, routes[j]) ==> |routes[j].prefix| != n
  {
    i := 0;
    while !(Matches(path, routes[i]) && |routes[i].prefix| == n)
      invariant i <= y
      invariant forall j :: 0 <= j < i && Matches(path, routes[j]) ==> |routes[j].prefix| != n
      decreases y - i
    {
      i := i + 1;
    }
  }

  /** Prefix and remainder rebuild the path; the stripped path is the remainder with its leading slash. */
  lemma {:induction false} PrefixAndRemainder(path: string, routes: seq<Route>)
    requires ResolveRoute(path, routes).Some?
    ensures var m := ResolveRoute(path, routes).value;
            && m.route in routes
            && "/" <= m.strippedPath
            && (path == m.route.prefix + m.strippedPath || path == m.route.prefix + m.strippedPath[1..])
            && (path == m.route.prefix + m.strippedPath <==> "/" <= path[|m.route.prefix|..])
  {
    if !Matches(path, routes[0]) {
      PrefixAndRemainder(path, routes[1..]);
    } else {
      var m := ResolveRoute(path, routes).value;
      var stripped := path[|m.route.prefix|..];
      assert path == m.route.prefix + stripped;
      if !("/" <= stripped) {
        assert ("/" + stripped)[1..] == stripped;
        assert |m.route.prefix + m.strippedPath| == |path| + 1;
      }
    }
  }

  /** With distinct prefixes every ordering of the configuration gives the same answer. */
  lemma OrderDoesNotMatter(path: string, routes: seq<Route>, others: seq<Route>)
    requires multiset(routes) == multiset(others)
    requires forall i, j :: 0 <= i < j < |routes| ==> routes[i].prefix != routes[j].prefix
    ensures ResolveRoute(path, SortRoutes(routes)) == ResolveRoute(path, SortRoutes(others))
  {
    var a, b := ResolveRoute(path, SortRoutes(routes)), ResolveRoute(path, SortRoutes(others));
    ResolvesToBest(path, routes);
    ResolvesToBest(path, others);
    SameElements(routes, others);
    if a.Some? {
      var i: nat :| IsBest(path, routes, i);
      assert routes[i] in routes;
      var x :| 0 <= x < |others| && others[x] == routes[i];
      assert Matches(path, others[x]);
      var j: nat :| IsBest(path, others, j);
      assert others[j] in others;
      var y :| 0 <= y < |routes| && routes[y] == others[j];
      SameLengthSamePrefix(path, routes[i], routes[y]);
      assert i == y;
      AnswerFromRoute(path, SortRoutes(routes));
      AnswerFromRoute(path, SortRoutes(others));
    } else {
      forall j | 0 <= j < |others| ensures !Matches(path, others[j]) {
        assert others[j] in others;
        var y :| 0 <= y < |routes| && routes[y] == others[j];
      }
    }
  }

  /** The answer is fixed by the route it names. */
  lemma {:induction false} AnswerFromRoute(path: string, routes: seq<Route>)
    requires ResolveRoute(path, routes).Some?
    ensures var m := ResolveRoute(path, routes).value;
            && Matches(path, m.route)
            && m == RouteMatch(m.route, var s := path[|m.route.prefix|..]; if "/" <= s then s else "/" + s)
  {
    if !Matches(path, routes[0]) {
      AnswerFromRoute(path, routes[1..]);
    }
  }
}
