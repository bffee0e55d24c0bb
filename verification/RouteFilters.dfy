/** The allowlist and denylist of `src/utils.rs`, and what they do to the set of routed addresses. */
module RouteFilters {
  import opened Sequences
  import opened Wrappers
  import opened Counting
  import opened Cidr
  import opened CidrAlgebra

  // ----- The lists the loops build

  function AddIntersection(found: seq<Route>, server: Route, allowed: Route): seq<Route> {
    match IntersectCidr(server, allowed)
    case None => found
    case Some(route) => if route in found then found else found + [route]
  }

  function IntersectOne(found: seq<Route>, server: Route, allowed: seq<Route>): seq<Route>
    decreases |allowed|
  {
    if allowed == [] then found
    else IntersectOne(AddIntersection(found, server, allowed[0]), server, allowed[1..])
  }

  function IntersectAll(found: seq<Route>, servers: seq<Route>, allowed: seq<Route>): seq<Route>
    decreases |servers|
  {
    if servers == [] then found
    else IntersectAll(IntersectOne(found, servers[0], allowed), servers[1..], allowed)
  }

  /** `flat_map` of the subtraction over `routes`. */
  function SubtractFrom(routes: seq<Route>, excluded: Route): seq<Route> {
    if routes == [] then [] else SubtractCidr(routes[0], excluded) + SubtractFrom(routes[1..], excluded)
  }

  function SubtractAll(routes: seq<Route>, excluded: seq<Route>): seq<Route>
    decreases |excluded|
  {
    if excluded == [] then routes else SubtractAll(SubtractFrom(routes, excluded[0]), excluded[1..])
  }

  function Permitted(servers: seq<Route>, allowed: Option<seq<Route>>): seq<Route> {
    match allowed
    case None => servers
    case Some(list) => IntersectAll([], servers, list)
  }

  function FilteredRoutes(servers: seq<Route>, allowed: Option<seq<Route>>, disallowed: Option<seq<Route>>): seq<Route> {
    match disallowed
    case None => Permitted(servers, allowed)
    case Some(list) => SubtractAll(Permitted(servers, allowed), list)
  }

  method ApplyRouteFilters(servers: seq<Route>, allowed: Option<seq<Route>>, disallowed: Option<seq<Route>>)
    returns (routes: seq<Route>)
    ensures routes == FilteredRoutes(servers, allowed, disallowed)
  {
    match allowed {
      case None =>
        routes := servers;
      case Some(list) =>
        var intersections := [];
        for i := 0 to |servers|
          invariant IntersectAll(intersections, servers[i..], list) == Permitted(servers, allowed)
        {
          assert servers[i..][1..] == servers[i + 1..];
          ghost var done := IntersectOne(intersections, servers[i], list);
          for j := 0 to |list|
            invariant IntersectOne(intersections, servers[i], list[j..]) == done
          {
            assert list[j..][1..] == list[j + 1..];
            match IntersectCidr(servers[i], list[j]) {
              case None =>
              case Some(route) =>
                if route !in intersections {
                  intersections := intersections + [route];
                }
            }
          }
        }
        routes := intersections;
    }
    match disallowed {
      case None =>
      case Some(list) =>
        for i := 0 to |list|
          invariant SubtractAll(routes, list[i..]) == FilteredRoutes(servers, allowed, disallowed)
        {
          assert list[i..][1..] == list[i + 1..];
          routes := SubtractFrom(routes, list[i]);
        }
    }
  }

  // ----- The order of the lists

  /** The intersections of one server route with the allowlist, in its order. */
  function CandidatesOf(server: Route, allowed: seq<Route>): seq<Route> {
    if allowed == [] then []
    else
      var first := IntersectCidr(server, allowed[0]);
      (if first.Some? then [first.value] else []) + CandidatesOf(server, allowed[1..])
  }

  function Candidates(servers: seq<Route>, allowed: seq<Route>): seq<Route> {
    if servers == [] then [] else CandidatesOf(servers[0], allowed) + Candidates(servers[1..], allowed)
  }

  lemma {:induction false} IntersectOneOrder(found: seq<Route>, server: Route, allowed: seq<Route>)
    ensures IntersectOne(found, server, allowed) == AddNew(found, CandidatesOf(server, allowed))
    decreases |allowed|
  {
    if allowed != [] {
      IntersectOneOrder(AddIntersection(found, server, allowed[0]), server, allowed[1..]);
      var first := IntersectCidr(server, allowed[0]);
      if first.Some? {
        AddNewOne(found, first.value, CandidatesOf(server, allowed[1..]));
      } else {
        assert [] + CandidatesOf(server, allowed[1..]) == CandidatesOf(server, allowed[1..]);
      }
    }
  }

  /** The intersections come in the order of the server's routes and then of the allowlist, each at its first place. */
  lemma {:induction false} IntersectionsInOrder(found: seq<Route>, servers: seq<Route>, allowed: seq<Route>)
    ensures IntersectAll(found, servers, allowed) == AddNew(found, Candidates(servers, allowed))
    decreases |servers|
  {
    if servers != [] {
      IntersectOneOrder(found, servers[0], allowed);
      IntersectionsInOrder(IntersectOne(found, servers[0], allowed), servers[1..], allowed);
      AddNewAppend(found, CandidatesOf(servers[0], allowed), Candidates(servers[1..], allowed));
    }
  }

  /** Subtraction goes entry by entry: what comes of earlier entries stands before what comes of later ones. */
  lemma {:induction false} SubtractFromInOrder(xs: seq<Route>, ys: seq<Route>, excluded: Route)
    ensures SubtractFrom(xs + ys, excluded) == SubtractFrom(xs, excluded) + SubtractFrom(ys, excluded)
    ensures |xs| == 1 ==> SubtractFrom(xs, excluded) == SubtractCidr(xs[0], excluded)
  {
    if xs == [] {
      assert xs + ys == ys;
    } else {
      assert (xs + ys)[1..] == xs[1..] + ys;
      SubtractFromInOrder(xs[1..], ys, excluded);
      Assoc(SubtractCidr(xs[0], excluded), SubtractFrom(xs[1..], excluded), SubtractFrom(ys, excluded));
      assert SubtractCidr(xs[0], excluded) + [] == SubtractCidr(xs[0], excluded);
    }
  }

  // ----- The set of addresses

  lemma CoveredSplit(routes: seq<Route>, a: Ip)
    requires routes != []
    ensures Covered(routes, a) <==> In(routes[0], a) || Covered(routes[1..], a)
  {
    CoveredCons(routes[0], routes[1..], a);
    assert [routes[0]] + routes[1..] == routes;
  }

  lemma {:induction false} IntersectOneMeaning(found: seq<Route>, server: Route, allowed: seq<Route>, a: Ip)
    ensures Covered(IntersectOne(found, server, allowed), a) <==>
            Covered(found, a) || (In(server, a) && Covered(allowed, a))
    decreases |allowed|
  {
    if allowed != [] {
      IntersectMeaning(server, allowed[0]);
      CoveredSplit(allowed, a);
      AddMeaning(found, server, allowed[0], a);
      IntersectOneMeaning(AddIntersection(found, server, allowed[0]), server, allowed[1..], a);
    }
  }

  lemma AddMeaning(found: seq<Route>, server: Route, allowed: Route, a: Ip)
    ensures Covered(AddIntersection(found, server, allowed), a) <==>
            Covered(found, a) || (In(server, a) && In(allowed, a))
  {
    IntersectMeaning(server, allowed);
    match IntersectCidr(server, allowed)
    case None =>
    case Some(route) =>
      CoveredAppend(found, [route], a);
      CoveredSingle(route, a);
      if route in found {
        var i :| 0 <= i < |found| && found[i] == route;
        assert In(found[i], a) ==> Covered(found, a);
      }
  }

  lemma {:induction false} IntersectAllMeaning(found: seq<Route>, servers: seq<Route>, allowed: seq<Route>, a: Ip)
    ensures Covered(IntersectAll(found, servers, allowed), a) <==>
            Covered(found, a) || (Covered(servers, a) && Covered(allowed, a))
    decreases |servers|
  {
    if servers != [] {
      CoveredSplit(servers, a);
      IntersectOneMeaning(found, servers[0], allowed, a);
      IntersectAllMeaning(IntersectOne(found, servers[0], allowed), servers[1..], allowed, a);
    }
  }

  lemma {:induction false} SubtractFromMeaning(routes: seq<Route>, excluded: Route, a: Ip)
    ensures Covered(SubtractFrom(routes, excluded), a) <==> Covered(routes, a) && !In(excluded, a)
    decreases |routes|
  {
    if routes != [] {
      CoveredSplit(routes, a);
      SubtractMeaning(routes[0], excluded, a);
      SubtractFromMeaning(routes[1..], excluded, a);
      CoveredAppend(SubtractCidr(routes[0], excluded), SubtractFrom(routes[1..], excluded), a);
    }
  }

  lemma {:induction false} SubtractAllMeaning(routes: seq<Route>, excluded: seq<Route>, a: Ip)
    ensures Covered(SubtractAll(routes, excluded), a) <==> Covered(routes, a) && !Covered(excluded, a)
    decreases |excluded|
  {
    if excluded != [] {
      CoveredSplit(excluded, a);
      SubtractFromMeaning(routes, excluded[0], a);
      SubtractAllMeaning(SubtractFrom(routes, excluded[0]), excluded[1..], a);
    }
  }

  /** `a` survives the two optional lists. */
  ghost predicate PassesFilters(allowed: Option<seq<Route>>, disallowed: Option<seq<Route>>, a: Ip) {
    && (allowed.Some? ==> Covered(allowed.value, a))
    && (disallowed.Some? ==> !Covered(disallowed.value, a))
  }

  lemma FilterMeaning(servers: seq<Route>, allowed: Option<seq<Route>>, disallowed: Option<seq<Route>>, a: Ip)
    ensures Covered(FilteredRoutes(servers, allowed, disallowed), a) <==>
            Covered(servers, a) && PassesFilters(allowed, disallowed, a)
  {
    if allowed.Some? {
      IntersectAllMeaning([], servers, allowed.value, a);
    }
    if disallowed.Some? {
      SubtractAllMeaning(Permitted(servers, allowed), disallowed.value, a);
    }
  }

  /** Permuting any of the three lists leaves the set of addresses alone. */
  lemma FilterIgnoresOrder(servers: seq<Route>, allowed: seq<Route>, disallowed: seq<Route>,
                           servers': seq<Route>, allowed': seq<Route>, disallowed': seq<Route>, a: Ip)
    requires multiset(servers) == multiset(servers')
    requires multiset(allowed) == multiset(allowed') && multiset(disallowed) == multiset(disallowed')
    ensures Covered(FilteredRoutes(servers, Some(allowed), Some(disallowed)), a) <==>
            Covered(FilteredRoutes(servers', Some(allowed'), Some(disallowed')), a)
  {
    FilterMeaning(servers, Some(allowed), Some(disallowed), a);
    FilterMeaning(servers', Some(allowed'), Some(disallowed'), a);
    CoveredByElements(servers, servers', a);
    CoveredByElements(allowed, allowed', a);
    CoveredByElements(disallowed, disallowed', a);
  }

  lemma CoveredByElements(xs: seq<Route>, ys: seq<Route>, a: Ip)
    requires multiset(xs) == multiset(ys)
    ensures Covered(xs, a) <==> Covered(ys, a)
  {
    CoveredByMember(xs, a);
    CoveredByMember(ys, a);
    assert forall r :: r in xs <==> r in multiset(xs);
    assert forall r :: r in ys <==> r in multiset(ys);
  }

  lemma CoveredByMember(xs: seq<Route>, a: Ip)
    ensures Covered(xs, a) <==> exists r :: r in xs && In(r, a)
  {
  }

  /** An allowlist without a parseable entry lets no route through, whatever the denylist. */
  lemma {:induction false} NothingAllowed(servers: seq<Route>, allowed: seq<Route>, disallowed: Option<seq<Route>>)
    requires forall i :: 0 <= i < |allowed| ==> !IsValidCidr(allowed[i])
    ensures FilteredRoutes(servers, Some(allowed), disallowed) == []
  {
    NoIntersections(servers, allowed);
    if disallowed.Some? {
      NothingToSubtract(disallowed.value);
    }
  }

  lemma {:induction false} NoIntersections(servers: seq<Route>, allowed: seq<Route>)
    requires forall i :: 0 <= i < |allowed| ==> !IsValidCidr(allowed[i])
    ensures IntersectAll([], servers, allowed) == []
  {
    if servers != [] {
      NoIntersection(servers[0], allowed);
      NoIntersections(servers[1..], allowed);
    }
  }

  lemma {:induction false} NoIntersection(server: Route, allowed: seq<Route>)
    requires forall i :: 0 <= i < |allowed| ==> !IsValidCidr(allowed[i])
    ensures IntersectOne([], server, allowed) == []
  {
    if allowed != [] {
      assert !IsValidCidr(allowed[0]);
      NoIntersection(server, allowed[1..]);
    }
  }

  lemma {:induction false} NothingToSubtract(excluded: seq<Route>)
    ensures SubtractAll([], excluded) == []
  {
    if excluded != [] {
      NothingToSubtract(excluded[1..]);
    }
  }

  /** The allowlist's intersections are printed canonically and listed once each. */
  lemma {:induction false} IntersectionsListedOnce(found: seq<Route>, servers: seq<Route>, allowed: seq<Route>)
    requires ListedOnce(found)
    ensures ListedOnce(IntersectAll(found, servers, allowed))
    decreases |servers|
  {
    if servers != [] {
      IntersectOneListedOnce(found, servers[0], allowed);
      IntersectionsListedOnce(IntersectOne(found, servers[0], allowed), servers[1..], allowed);
    }
  }

  ghost predicate ListedOnce(found: seq<Route>) {
    Distinct(found) && forall i :: 0 <= i < |found| ==> Canonical(found[i])
  }

  lemma {:induction false} IntersectOneListedOnce(found: seq<Route>, server: Route, allowed: seq<Route>)
    requires ListedOnce(found)
    ensures ListedOnce(IntersectOne(found, server, allowed))
    decreases |allowed|
  {
    if allowed != [] {
      IntersectMeaning(server, allowed[0]);
      IntersectOneListedOnce(AddIntersection(found, server, allowed[0]), server, allowed[1..]);
    }
  }

  // ----- Disjointness

  ghost predicate Apart(xs: seq<Route>, ys: seq<Route>) {
    forall a: Ip :: !(Covered(xs, a) && Covered(ys, a))
  }

  lemma DisjointAppend(xs: seq<Route>, ys: seq<Route>)
    requires PairwiseDisjoint(xs) && PairwiseDisjoint(ys) && Apart(xs, ys)
    ensures PairwiseDisjoint(xs + ys)
  {
    forall i, j, a: Ip | 0 <= i < |xs| && 0 <= j < |ys| && In(xs[i], a)
      ensures !In(ys[j], a)
    {
      assert Covered(xs, a);
      assert In(ys[j], a) ==> Covered(ys, a);
    }
  }

  lemma DisjointTail(routes: seq<Route>)
    requires PairwiseDisjoint(routes) && routes != []
    ensures PairwiseDisjoint(routes[1..])
    ensures forall a: Ip :: In(routes[0], a) ==> !Covered(routes[1..], a)
  {
    forall i, j | 0 <= i < j < |routes[1..]|
      ensures Disjoint(routes[1..][i], routes[1..][j])
    {
      assert Disjoint(routes[i + 1], routes[j + 1]);
    }
    forall a: Ip | In(routes[0], a)
      ensures !Covered(routes[1..], a)
    {
      forall i | 0 <= i < |routes[1..]| ensures !In(routes[1..][i], a) { assert Disjoint(routes[0], routes[i + 1]); }
    }
  }

  lemma {:induction false} IntersectOneDisjoint(found: seq<Route>, server: Route, allowed: seq<Route>)
    requires PairwiseDisjoint(found) && PairwiseDisjoint(allowed)
    requires forall a: Ip :: Covered(found, a) && In(server, a) ==> !Covered(allowed, a)
    ensures PairwiseDisjoint(IntersectOne(found, server, allowed))
    decreases |allowed|
  {
    if allowed != [] {
      DisjointTail(allowed);
      IntersectMeaning(server, allowed[0]);
      var next := AddIntersection(found, server, allowed[0]);
      forall a: Ip
        ensures Covered(next, a) && In(server, a) ==> !Covered(allowed[1..], a)
        ensures Covered(allowed, a) <==> In(allowed[0], a) || Covered(allowed[1..], a)
      {
        AddMeaning(found, server, allowed[0], a);
        CoveredSplit(allowed, a);
      }
      AddDisjoint(found, server, allowed[0]);
      IntersectOneDisjoint(next, server, allowed[1..]);
    }
  }

  lemma AddDisjoint(found: seq<Route>, server: Route, allowed: Route)
    requires PairwiseDisjoint(found)
    requires forall a: Ip :: Covered(found, a) && In(server, a) ==> !In(allowed, a)
    ensures PairwiseDisjoint(AddIntersection(found, server, allowed))
  {
    IntersectMeaning(server, allowed);
    match IntersectCidr(server, allowed)
    case None =>
    case Some(route) =>
      forall a: Ip ensures !(Covered(found, a) && Covered([route], a)) { CoveredSingle(route, a); }
      DisjointAppend(found, [route]);
  }

  lemma {:induction false} IntersectAllDisjoint(found: seq<Route>, servers: seq<Route>, allowed: seq<Route>)
    requires PairwiseDisjoint(found) && PairwiseDisjoint(servers) && PairwiseDisjoint(allowed)
    requires Apart(found, servers)
    ensures PairwiseDisjoint(IntersectAll(found, servers, allowed))
    decreases |servers|
  {
    if servers != [] {
      DisjointTail(servers);
      var next := IntersectOne(found, servers[0], allowed);
      forall a: Ip
        ensures Covered(servers, a) <==> In(servers[0], a) || Covered(servers[1..], a)
        ensures !(Covered(next, a) && Covered(servers[1..], a))
      {
        CoveredSplit(servers, a);
        IntersectOneMeaning(found, servers[0], allowed, a);
      }
      IntersectOneDisjoint(found, servers[0], allowed);
      IntersectAllDisjoint(next, servers[1..], allowed);
    }
  }

  lemma {:induction false} SubtractFromDisjoint(routes: seq<Route>, excluded: Route)
    requires PairwiseDisjoint(routes)
    ensures PairwiseDisjoint(SubtractFrom(routes, excluded))
    decreases |routes|
  {
    if routes != [] {
      DisjointTail(routes);
      SubtractShape(routes[0], excluded);
      SubtractFromDisjoint(routes[1..], excluded);
      forall a: Ip
        ensures !(Covered(SubtractCidr(routes[0], excluded), a) && Covered(SubtractFrom(routes[1..], excluded), a))
      {
        SubtractMeaning(routes[0], excluded, a);
        SubtractFromMeaning(routes[1..], excluded, a);
      }
      DisjointAppend(SubtractCidr(routes[0], excluded), SubtractFrom(routes[1..], excluded));
    }
  }

  lemma {:induction false} SubtractAllDisjoint(routes: seq<Route>, excluded: seq<Route>)
    requires PairwiseDisjoint(routes)
    ensures PairwiseDisjoint(SubtractAll(routes, excluded))
    decreases |excluded|
  {
    if excluded != [] {
      SubtractFromDisjoint(routes, excluded[0]);
      SubtractAllDisjoint(SubtractFrom(routes, excluded[0]), excluded[1..]);
    }
  }

  /** Disjoint server routes (and a disjoint allowlist, when there is one) give disjoint routes. */
  lemma FilterKeepsDisjoint(servers: seq<Route>, allowed: Option<seq<Route>>, disallowed: Option<seq<Route>>)
    requires PairwiseDisjoint(servers)
    requires allowed.Some? ==> PairwiseDisjoint(allowed.value)
    ensures PairwiseDisjoint(Permitted(servers, allowed))
    ensures PairwiseDisjoint(FilteredRoutes(servers, allowed, disallowed))
  {
    if allowed.Some? {
      IntersectAllDisjoint([], servers, allowed.value);
    }
    if disallowed.Some? {
      SubtractAllDisjoint(Permitted(servers, allowed), disallowed.value);
    }
  }

  // ----- Size

  /** The most entries one denylist entry can add: 31 for IPv4, 127 for IPv6, none when it does not parse. */
  function Growth(excluded: Route): nat {
    if IsValidCidr(excluded) then HostBits(excluded.ip.family) - 1 else 0
  }

  function TotalGrowth(excluded: seq<Route>): nat {
    if excluded == [] then 0 else Growth(excluded[0]) + TotalGrowth(excluded[1..])
  }

  lemma SubtractSize(route: Route, excluded: Route)
    ensures |SubtractCidr(route, excluded)| <= 1 + Growth(excluded)
    ensures |SubtractCidr(route, excluded)| > 1 ==> IsValidCidr(excluded) && In(route, excluded.ip)
  {
    SubtractShape(route, excluded);
  }

  lemma {:induction false} NoGrowth(routes: seq<Route>, excluded: Route)
    requires IsValidCidr(excluded) ==> !Covered(routes, excluded.ip)
    ensures |SubtractFrom(routes, excluded)| <= |routes|
    decreases |routes|
  {
    if routes != [] {
      SubtractSize(routes[0], excluded);
      if IsValidCidr(excluded) {
        CoveredSplit(routes, excluded.ip);
      }
      NoGrowth(routes[1..], excluded);
    }
  }

  /** Among disjoint routes at most one can be split, so one entry of the denylist adds little. */
  lemma {:induction false} SubtractFromSize(routes: seq<Route>, excluded: Route)
    requires PairwiseDisjoint(routes)
    ensures |SubtractFrom(routes, excluded)| <= |routes| + Growth(excluded)
    decreases |routes|
  {
    if routes != [] {
      DisjointTail(routes);
      SubtractSize(routes[0], excluded);
      if |SubtractCidr(routes[0], excluded)| > 1 {
        NoGrowth(routes[1..], excluded);
      } else {
        SubtractFromSize(routes[1..], excluded);
      }
    }
  }

  lemma {:induction false} SubtractAllSize(routes: seq<Route>, excluded: seq<Route>)
    requires PairwiseDisjoint(routes)
    ensures |SubtractAll(routes, excluded)| <= |routes| + TotalGrowth(excluded)
    decreases |excluded|
  {
    if excluded != [] {
      SubtractFromSize(routes, excluded[0]);
      SubtractFromDisjoint(routes, excluded[0]);
      SubtractAllSize(SubtractFrom(routes, excluded[0]), excluded[1..]);
    }
  }

  lemma FilterSize(servers: seq<Route>, allowed: Option<seq<Route>>, disallowed: seq<Route>)
    requires PairwiseDisjoint(servers)
    requires allowed.Some? ==> PairwiseDisjoint(allowed.value)
    ensures |FilteredRoutes(servers, allowed, Some(disallowed))|
         <= |Permitted(servers, allowed)| + TotalGrowth(disallowed)
  {
    FilterKeepsDisjoint(servers, allowed, None);
    SubtractAllSize(Permitted(servers, allowed), disallowed);
  }
}
