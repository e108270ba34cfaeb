/** The longest-prefix router (src/http/router.cpp).  Handlers are identified by numbers. */
module Router {
  import opened Wrappers
  import opened Text

  datatype Route = Route(prefix: string, handler: nat, allowed: seq<string>)

  datatype Outcome =
    | Invoke(handler: nat)
    | MethodNotAllowed(allow: string)
    | NoRoute

  /** The route's match test. */
  predicate Matches(prefix: string, path: string) {
    prefix == "/" || path == prefix ||
    (|path| > |prefix| && path[..|prefix|] == prefix && path[|prefix|] == '/')
  }

  /** The first route in the table that matches. */
  function Consulted(routes: seq<Route>, path: string): Option<Route> {
    if routes == [] then None
    else if Matches(routes[0].prefix, path) then Some(routes[0])
    else Consulted(routes[1..], path)
  }

  function JoinComma(methods: seq<string>): string {
    if methods == [] then ""
    else if |methods| == 1 then methods[0]
    else JoinComma(methods[..|methods| - 1]) + ", " + methods[|methods| - 1]
  }

  /** What the consulted route does with the request's method. */
  function Answer(r: Option<Route>, verb: string, fallback: Option<nat>): Outcome {
    match r
    case None => if fallback.Some? then Invoke(fallback.value) else NoRoute
    case Some(route) =>
      if route.allowed != [] && verb !in route.allowed then MethodNotAllowed(JoinComma(route.allowed))
      else Invoke(route.handler)
  }

  // ---------------------------------------------------------------------------------------------
  // Tables
  // ---------------------------------------------------------------------------------------------

  /** Sorted by prefix length, longest first; equal lengths in any order. */
  ghost predicate Descending(routes: seq<Route>) {
    forall i, j :: 0 <= i < j < |routes| ==> |routes[i].prefix| >= |routes[j].prefix|
  }

  /** A table that the registrations `regs` may have produced, in any order, with any unstable sort. */
  ghost predicate TableOf(routes: seq<Route>, regs: seq<Route>) {
    Descending(routes) && multiset(routes) == multiset(regs)
  }

  ghost predicate DistinctPrefixes(regs: seq<Route>) {
    forall i, j :: 0 <= i < j < |regs| ==> regs[i].prefix != regs[j].prefix
  }

  /** The longest registered prefix that matches; every other match is strictly shorter. */
  ghost predicate IsLongestMatch(regs: seq<Route>, path: string, r: Route) {
    && r in regs && Matches(r.prefix, path)
    && forall q :: q in regs && Matches(q.prefix, path) && q != r ==> |q.prefix| < |r.prefix|
  }

  lemma SameMembers(a: seq<Route>, b: seq<Route>)
    requires multiset(a) == multiset(b)
    ensures forall r :: r in a <==> r in b
  {
    assert forall r :: r in a <==> r in multiset(a);
    assert forall r :: r in b <==> r in multiset(b);
  }

  /** Two matching prefixes of one length are the same prefix, because the path starts with a slash. */
  lemma MatchesAgree(p: string, q: string, path: string)
    requires path != "" && path[0] == '/'
    requires Matches(p, path) && Matches(q, path) && |p| == |q|
    ensures p == q
  {
    assert p == path[..|p|];
    assert q == path[..|q|];
  }

  lemma PrefixIdentifies(regs: seq<Route>, q: Route, r: Route)
    requires DistinctPrefixes(regs) && q in regs && r in regs && q.prefix == r.prefix
    ensures q == r
  {
    var i :| 0 <= i < |regs| && regs[i] == q;
    var j :| 0 <= j < |regs| && regs[j] == r;
    assert i == j;
  }

  lemma {:induction false} ConsultedIsFirst(routes: seq<Route>, path: string)
    requires Descending(routes)
    ensures Consulted(routes, path).None? ==> forall r :: r in routes ==> !Matches(r.prefix, path)
    ensures Consulted(routes, path).Some? ==>
              var r := Consulted(routes, path).value;
              && r in routes && Matches(r.prefix, path)
              && forall q :: q in routes && Matches(q.prefix, path) ==> |q.prefix| <= |r.prefix|
  {
    if routes != [] {
      var head, tail := routes[0], routes[1..];
      assert routes == [head] + tail;
      assert forall q :: q in tail ==> |q.prefix| <= |head.prefix|;
      if !Matches(head.prefix, path) {
        ConsultedIsFirst(tail, path);
      }
    }
  }

  /** The route consulted is the unique longest match, and there is none only if nothing matches. */
  lemma ConsultsLongestMatch(routes: seq<Route>, regs: seq<Route>, path: string)
    requires TableOf(routes, regs) && DistinctPrefixes(regs)
    requires path != "" && path[0] == '/'
    ensures Consulted(routes, path).None? <==> forall r :: r in regs ==> !Matches(r.prefix, path)
    ensures forall r :: Consulted(routes, path) == Some(r) <==> IsLongestMatch(regs, path, r)
  {
    SameMembers(routes, regs);
    ConsultedIsFirst(routes, path);
    var found := Consulted(routes, path);
    if found.Some? {
      var r := found.value;
      hide Matches;
      forall q | q in regs && Matches(q.prefix, path) && q != r ensures |q.prefix| < |r.prefix| {
        if |q.prefix| == |r.prefix| {
          MatchesAgree(q.prefix, r.prefix, path);
          PrefixIdentifies(regs, q, r);
        }
      }
      assert IsLongestMatch(regs, path, r);
    }
  }

  /** Neither the registration order nor the sort's treatment of equal lengths matters to any request. */
  lemma OrderIsIrrelevant(
    routes: seq<Route>, regs: seq<Route>, routes': seq<Route>, regs': seq<Route>,
    verb: string, path: string, fallback: Option<nat>)
    requires TableOf(routes, regs) && TableOf(routes', regs') && multiset(regs) == multiset(regs')
    requires DistinctPrefixes(regs)
    requires path != "" && path[0] == '/'
    ensures Answer(Consulted(routes, path), verb, fallback) == Answer(Consulted(routes', path), verb, fallback)
  {
    assert TableOf(routes', regs);
    ConsultsLongestMatch(routes, regs, path);
    ConsultsLongestMatch(routes', regs, path);
    hide IsLongestMatch, Matches, TableOf, DistinctPrefixes;
    var a, b := Consulted(routes, path), Consulted(routes', path);
    if a.Some? {
      assert IsLongestMatch(regs, path, a.value);
    } else {
      assert b.None?;
    }
  }

  // ---------------------------------------------------------------------------------------------
  // Outcomes
  // ---------------------------------------------------------------------------------------------

  /** The prefix is the root, or the path is the prefix or goes on after it with a slash. */
  ghost predicate Covers(r: Route, path: string) {
    r.prefix == "/" || path == r.prefix || r.prefix + "/" <= path
  }

  /** `r` has the longest registered prefix that covers the path. */
  ghost predicate IsRouteFor(regs: seq<Route>, path: string, r: Route) {
    r in regs && Covers(r, path) && forall q :: q in regs && Covers(q, path) ==> |q.prefix| <= |r.prefix|
  }

  lemma CoversIsMatches(r: Route, path: string)
    ensures Covers(r, path) <==> Matches(r.prefix, path)
  {
    var n := |r.prefix|;
    if Matches(r.prefix, path) && |path| > n {
      assert path[..n + 1] == path[..n] + [path[n]];
    }
    if r.prefix + "/" <= path {
      assert path[..n] == (r.prefix + "/")[..n] == r.prefix && path[n] == (r.prefix + "/")[n];
    }
  }

  /** The text cut at each comma, without the space that follows it. */
  function CutAtCommas(s: string): seq<string>
    decreases |s|
  {
    match FindChar(s, ',', 0)
    case None => [s]
    case Some(i) => [s[..i]] + if i + 2 <= |s| then CutAtCommas(s[i + 2..]) else []
  }

  lemma {:induction false} JoinFirst(methods: seq<string>)
    requires |methods| > 1
    ensures JoinComma(methods) == methods[0] + ", " + JoinComma(methods[1..])
  {
    var init, last := methods[..|methods| - 1], methods[|methods| - 1];
    if |init| > 1 {
      JoinFirst(init);
      assert methods[1..][..|methods| - 2] == init[1..];
    } else {
      assert methods[1..] == [last];
    }
  }

  /** The Allow value names exactly the allowed methods, in order. */
  lemma {:induction false} AllowNamesMethods(methods: seq<string>)
    requires methods != [] && forall i :: 0 <= i < |methods| ==> ',' !in methods[i]
    ensures CutAtCommas(JoinComma(methods)) == methods
    decreases |methods|
  {
    var first, s := methods[0], JoinComma(methods);
    if |methods| > 1 {
      var rest := JoinComma(methods[1..]);
      JoinFirst(methods);
      AllowNamesMethods(methods[1..]);
      assert s == first + [','] + (" " + rest);
      FindCharAt(first, ',', " " + rest);
      assert s[..|first|] == first && s[|first| + 2..] == rest;
    } else {
      assert s[0..] == s && FindChar(s, ',', 0).None?;
    }
  }

  /**
   What every request gets.  The route with the longest prefix covering the path is asked; it handles the
   request iff it allows all methods or this one, and otherwise refuses with the methods it allows.  Where
   no prefix covers the path, the default handler is asked if there is one.
   */
  lemma RequestOutcome(routes: seq<Route>, regs: seq<Route>, verb: string, path: string, fallback: Option<nat>)
    requires TableOf(routes, regs) && DistinctPrefixes(regs)
    requires path != "" && path[0] == '/'
    ensures forall r :: IsRouteFor(regs, path, r) ==>
              var out := Answer(Consulted(routes, path), verb, fallback);
              if r.allowed == [] || verb in r.allowed then out == Invoke(r.handler)
              else
                && out.MethodNotAllowed?
                && ((forall i :: 0 <= i < |r.allowed| ==> ',' !in r.allowed[i]) ==> CutAtCommas(out.allow) == r.allowed)
    ensures (forall r :: r in regs ==> !Covers(r, path)) ==>
              Answer(Consulted(routes, path), verb, fallback) ==
              if fallback.Some? then Invoke(fallback.value) else NoRoute
    ensures (exists r :: IsRouteFor(regs, path, r)) || (forall r :: r in regs ==> !Covers(r, path))
  {
    ConsultsLongestMatch(routes, regs, path);
    forall r ensures Covers(r, path) <==> Matches(r.prefix, path) {
      CoversIsMatches(r, path);
    }
    hide Covers, Matches, TableOf, JoinComma, CutAtCommas;
    var found := Consulted(routes, path);
    if found.Some? {
      assert IsRouteFor(regs, path, found.value);
    }
    forall r | IsRouteFor(regs, path, r) ensures found == Some(r) {
      OneRoute(regs, path, r, found);
    }
    forall r: Route | r.allowed != [] && forall i :: 0 <= i < |r.allowed| ==> ',' !in r.allowed[i]
      ensures CutAtCommas(JoinComma(r.allowed)) == r.allowed
    {
      AllowNamesMethods(r.allowed);
    }
  }

  lemma OneRoute(regs: seq<Route>, path: string, r: Route, found: Option<Route>)
    requires IsRouteFor(regs, path, r)
    requires forall q :: Covers(q, path) <==> Matches(q.prefix, path)
    requires found.None? <==> forall q :: q in regs ==> !Matches(q.prefix, path)
    requires forall q :: found == Some(q) <==> IsLongestMatch(regs, path, q)
    ensures found == Some(r)
  {
    hide Covers, Matches;
    assert found.Some?;
    var q := found.value;
    assert IsLongestMatch(regs, path, q);
    assert r != q ==> |r.prefix| < |q.prefix| && |q.prefix| <= |r.prefix|;
  }

  // ---------------------------------------------------------------------------------------------
  // The class
  // ---------------------------------------------------------------------------------------------

  /** Where a route of length `n` goes in a sorted table. */
  function Slot(routes: seq<Route>, n: nat): (i: nat)
    ensures i <= |routes|
    ensures forall j :: 0 <= j < i ==> |routes[j].prefix| >= n
    ensures i < |routes| ==> |routes[i].prefix| < n
  {
    if routes == [] || |routes[0].prefix| < n then 0
    else Slot(routes[1..], n) + 1
  }

  /**
   Stands for `std::sort` by descending prefix length.  Callers know only that the result is a sorted
   permutation, which leaves the order of equal lengths open.
   */
  method SortByLength(routes: seq<Route>) returns (sorted: seq<Route>)
    ensures TableOf(sorted, routes)
  {
    sorted := [];
    for i := 0 to |routes|
      invariant TableOf(sorted, routes[..i])
    {
      assert routes[..i + 1] == routes[..i] + [routes[i]];
      var k := Slot(sorted, |routes[i].prefix|);
      assert sorted == sorted[..k] + sorted[k..];
      sorted := sorted[..k] + [routes[i]] + sorted[k..];
    }
    assert routes[..|routes|] == routes;
  }

  class Router {
    var routes: seq<Route>
    var defaultHandler: Option<nat>
    /** Every route registered so far, in order. */
    ghost var registered: seq<Route>

    ghost predicate Valid()
      reads this
    {
      TableOf(routes, registered)
    }

    constructor ()
      ensures Valid() && registered == [] && defaultHandler == None
    {
      routes, defaultHandler, registered := [], None, [];
    }

    method AddRoute(prefix: string, handler: nat, allowed: seq<string>)
      requires Valid()
      modifies this`routes, this`registered
      ensures Valid() && registered == old(registered) + [Route(prefix, handler, allowed)]
    {
      routes := routes + [Route(prefix, handler, allowed)];
      registered := registered + [Route(prefix, handler, allowed)];
      routes := SortByLength(routes);
    }

    method SetDefaultHandler(handler: nat)
      modifies this`defaultHandler
      ensures defaultHandler == Some(handler)
    {
      defaultHandler := Some(handler);
    }

    /** The scan with its flags and early returns. */
    method Dispatch(verb: string, path: string) returns (outcome: Outcome)
      ensures outcome == Answer(Consulted(routes, path), verb, defaultHandler)
    {
      var i := 0;
      while i < |routes|
        invariant 0 <= i <= |routes|
        invariant Consulted(routes[i..], path) == Consulted(routes, path)
      {
        var route := routes[i];
        assert routes[i..][0] == route && routes[i..][1..] == routes[i + 1..];
        var isMatch := false;
        if route.prefix == "/" {
          isMatch := true;
        } else if path == route.prefix {
          isMatch := true;
        } else if |path| > |route.prefix| && path[..|route.prefix|] == route.prefix && path[|route.prefix|] == '/' {
          isMatch := true;
        }
        i := i + 1;
        if !isMatch {
          continue;
        }
        if route.allowed != [] {
          var methodOk := Includes(route.allowed, verb);
          if !methodOk {
            var allow := AllowValue(route.allowed);
            return MethodNotAllowed(allow);
          }
        }
        return Invoke(route.handler);
      }
      return if defaultHandler.Some? then Invoke(defaultHandler.value) else NoRoute;
    }
  }

  method Includes(methods: seq<string>, verb: string) returns (found: bool)
    ensures found == (verb in methods)
  {
    found := false;
    for i := 0 to |methods|
      invariant verb !in methods[..i]
    {
      if methods[i] == verb {
        return true;
      }
    }
  }

  /** Builds the value of the Allow header. */
  method AllowValue(methods: seq<string>) returns (allowed: string)
    ensures allowed == JoinComma(methods)
  {
    allowed := "";
    for i := 0 to |methods|
      invariant allowed == JoinComma(methods[..i])
    {
      assert methods[..i + 1][..i] == methods[..i];
      if i > 0 {
        allowed := allowed + ", ";
      }
      allowed := allowed + methods[i];
    }
    assert methods[..|methods|] == methods;
  }
}
