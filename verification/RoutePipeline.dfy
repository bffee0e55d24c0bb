/** How `src/client.rs` turns the server's routes into the tunnel's allowed IPs. */
module RoutePipeline {
  import opened Sequences
  import opened Wrappers
  import opened Cidr
  import opened CidrAlgebra
  import opened RouteFilters

  datatype RouteMode = Split | Full

  /** The route lists of one server reply; an absent IPv6 list is empty. */
  datatype ServerReply = ServerReply(
    splitV4: seq<Route>, splitV6: seq<Route>, fullV4: seq<Route>, fullV6: seq<Route>, hasIpv6Address: bool)

  /** The user's settings. `resolved` holds the host routes of the additional domains. */
  datatype RouteConfig = RouteConfig(
    mode: RouteMode,
    additional: Option<seq<Route>>,
    resolved: seq<Route>,
    allowed: Option<seq<Route>>,
    disallowed: Option<seq<Route>>)

  datatype PipelineError = NoUsableRoutes

  function ServerRoutes(mode: RouteMode, reply: ServerReply): Result<seq<Route>, PipelineError> {
    var v4 := if mode.Split? then reply.splitV4 else reply.fullV4;
    var v6 := if mode.Split? then reply.splitV6 else reply.fullV6;
    var routes := if reply.hasIpv6Address then v4 + v6 else v4;
    if mode.Full? && routes == [] then Err(NoUsableRoutes) else Ok(routes)
  }

  /** Valid, and of a family the tunnel has an address for. */
  predicate Mergeable(route: Route, hasIpv6Address: bool) {
    IsValidCidr(route) && (hasIpv6Address || route.ip.family == V4)
  }

  function Merged(routes: seq<Route>, additional: seq<Route>, hasIpv6Address: bool): seq<Route>
    decreases |additional|
  {
    if additional == [] then routes
    else
      var next := if Mergeable(additional[0], hasIpv6Address) && additional[0] !in routes
                  then routes + [additional[0]] else routes;
      Merged(next, additional[1..], hasIpv6Address)
  }

  method MergeAdditionalRoutes(routes: seq<Route>, additional: seq<Route>, hasIpv6Address: bool)
    returns (merged: seq<Route>)
    ensures merged == Merged(routes, additional, hasIpv6Address)
  {
    merged := routes;
    for i := 0 to |additional|
      invariant Merged(merged, additional[i..], hasIpv6Address) == Merged(routes, additional, hasIpv6Address)
    {
      assert additional[i..][1..] == additional[i + 1..];
      var route := additional[i];
      if !IsValidCidr(route) {
        continue;
      }
      if !hasIpv6Address && route.ip.family == V6 {
        continue;
      }
      if route !in merged {
        merged := merged + [route];
      }
    }
  }

  function HostRoute(ip: Ip): Route {
    Printed(ip, HostBits(ip.family))
  }

  function AdditionalRoutes(config: RouteConfig): seq<Route> {
    (if config.additional.Some? then config.additional.value else []) + config.resolved
  }

  function FinalRoutes(config: RouteConfig, reply: ServerReply, peer: Option<Ip>): Result<seq<Route>, PipelineError> {
    match ServerRoutes(config.mode, reply)
    case Err(e) => Err(e)
    case Ok(server) =>
      var merged := Merged(server, AdditionalRoutes(config), reply.hasIpv6Address);
      var filtered := FilteredRoutes(merged, config.allowed, config.disallowed);
      Ok(if peer.Some? then SubtractFrom(filtered, HostRoute(peer.value)) else filtered)
  }

  lemma SubtractNext(routes: seq<Route>, i: nat, excluded: Route)
    requires i < |routes|
    ensures SubtractFrom(routes[i..], excluded) == SubtractCidr(routes[i], excluded) + SubtractFrom(routes[i + 1..], excluded)
  {
    assert routes[i..][1..] == routes[i + 1..];
  }

  method CarvePeer(routes: seq<Route>, peerCidr: Route) returns (carved: seq<Route>)
    ensures carved == SubtractFrom(routes, peerCidr)
  {
    carved := [];
    for i := 0 to |routes|
      invariant carved + SubtractFrom(routes[i..], peerCidr) == SubtractFrom(routes, peerCidr)
    {
      SubtractNext(routes, i, peerCidr);
      Assoc(carved, SubtractCidr(routes[i], peerCidr), SubtractFrom(routes[i + 1..], peerCidr));
      carved := carved + SubtractCidr(routes[i], peerCidr);
    }
  }

  /** The part of `connect_vpn_selected` between the server's reply and the tunnel configuration. */
  method AllowedIps(config: RouteConfig, reply: ServerReply, peer: Option<Ip>)
    returns (result: Result<seq<Route>, PipelineError>)
    ensures result == FinalRoutes(config, reply, peer)
  {
    var server := ServerRoutes(config.mode, reply);
    if server.Err? {
      return Err(server.error);
    }
    var allowedIps := server.value;
    var additional := AdditionalRoutes(config);
    if additional != [] {
      allowedIps := MergeAdditionalRoutes(allowedIps, additional, reply.hasIpv6Address);
    }
    allowedIps := ApplyRouteFilters(allowedIps, config.allowed, config.disallowed);
    if peer.Some? {
      allowedIps := CarvePeer(allowedIps, HostRoute(peer.value));
    }
    return Ok(allowedIps);
  }

  lemma {:induction false} MergeMeaning(routes: seq<Route>, additional: seq<Route>, hasIpv6Address: bool, a: Ip)
    ensures Covered(Merged(routes, additional, hasIpv6Address), a) <==>
            Covered(routes, a) || (Covered(additional, a) && (hasIpv6Address || a.family == V4))
    decreases |additional|
  {
    if additional != [] {
      var r := additional[0];
      var next := if Mergeable(r, hasIpv6Address) && r !in routes then routes + [r] else routes;
      CoveredSplit(additional, a);
      ParseMeaning(r);
      CoveredAppend(routes, [r], a);
      CoveredSingle(r, a);
      CoveredByMember(routes, a);
      assert In(r, a) && Mergeable(r, hasIpv6Address) ==> Covered(next, a);
      MergeMeaning(next, additional[1..], hasIpv6Address, a);
    }
  }

  /** Merging only appends, and appends nothing that is already listed. */
  lemma {:induction false} MergeAppends(routes: seq<Route>, additional: seq<Route>, hasIpv6Address: bool)
    ensures var merged := Merged(routes, additional, hasIpv6Address);
            && routes <= merged
            && forall i :: |routes| <= i < |merged| ==> merged[i] in additional && merged[i] !in merged[..i]
    decreases |additional|
  {
    if additional != [] {
      var r := additional[0];
      var next := if Mergeable(r, hasIpv6Address) && r !in routes then routes + [r] else routes;
      MergeAppends(next, additional[1..], hasIpv6Address);
      var merged := Merged(next, additional[1..], hasIpv6Address);
      assert |routes| < |next| ==> merged[..|routes|] == routes && merged[|routes|] == next[|routes|] == r;
    }
  }

  /** The additional routes the tunnel can use, in their order. */
  function Usable(additional: seq<Route>, hasIpv6Address: bool): seq<Route> {
    if additional == [] then []
    else
      (if Mergeable(additional[0], hasIpv6Address) then [additional[0]] else [])
      + Usable(additional[1..], hasIpv6Address)
  }

  /** They are appended in their order, each unless it is already there. */
  lemma {:induction false} MergeInOrder(routes: seq<Route>, additional: seq<Route>, hasIpv6Address: bool)
    ensures Merged(routes, additional, hasIpv6Address) == AddNew(routes, Usable(additional, hasIpv6Address))
    decreases |additional|
  {
    if additional != [] {
      var r, rest := additional[0], Usable(additional[1..], hasIpv6Address);
      var next := if Mergeable(r, hasIpv6Address) && r !in routes then routes + [r] else routes;
      MergeInOrder(next, additional[1..], hasIpv6Address);
      if Mergeable(r, hasIpv6Address) {
        AddNewOne(routes, r, rest);
      } else {
        assert [] + rest == rest;
      }
    }
  }

  /** The server offers `a` in this mode: its IPv6 list counts only for a tunnel with an IPv6 address. */
  ghost predicate Offered(mode: RouteMode, reply: ServerReply, a: Ip) {
    match mode
    case Split => Covered(reply.splitV4, a) || (reply.hasIpv6Address && Covered(reply.splitV6, a))
    case Full => Covered(reply.fullV4, a) || (reply.hasIpv6Address && Covered(reply.fullV6, a))
  }

  lemma ServerRoutesMeaning(mode: RouteMode, reply: ServerReply, a: Ip)
    requires ServerRoutes(mode, reply).Ok?
    ensures Covered(ServerRoutes(mode, reply).value, a) <==> Offered(mode, reply, a)
  {
    CoveredAppend(reply.splitV4, reply.splitV6, a);
    CoveredAppend(reply.fullV4, reply.fullV6, a);
  }

  /** The server's lists that the mode and the IPv6 address select. */
  function Listed(mode: RouteMode, reply: ServerReply): seq<Route> {
    match mode
    case Split => reply.splitV4 + if reply.hasIpv6Address then reply.splitV6 else []
    case Full => reply.fullV4 + if reply.hasIpv6Address then reply.fullV6 else []
  }

  lemma ServerRoutesListed(mode: RouteMode, reply: ServerReply)
    ensures ServerRoutes(mode, reply)
         == if mode.Full? && Listed(mode, reply) == [] then Err(NoUsableRoutes) else Ok(Listed(mode, reply))
  {
    assert reply.splitV4 + [] == reply.splitV4 && reply.fullV4 + [] == reply.fullV4;
  }

  /** The user's settings add `a`, by a route or by a domain that resolves to it. */
  ghost predicate Added(config: RouteConfig, a: Ip) {
    (config.additional.Some? && Covered(config.additional.value, a)) || Covered(config.resolved, a)
  }

  lemma AdditionalMeaning(config: RouteConfig, a: Ip)
    ensures Covered(AdditionalRoutes(config), a) <==> Added(config, a)
  {
    CoveredAppend(if config.additional.Some? then config.additional.value else [], config.resolved, a);
  }

  /**
   ((Server routes or usable additional routes) within the allowlist) without the denylist and without the
   peer's own address.
   */
  ghost predicate Routable(config: RouteConfig, reply: ServerReply, peer: Option<Ip>, a: Ip) {
    && (Offered(config.mode, reply, a) || (Added(config, a) && (reply.hasIpv6Address || a.family == V4)))
    && PassesFilters(config.allowed, config.disallowed, a)
    && peer != Some(a)
  }

  lemma HostRouteMeaning(ip: Ip, a: Ip)
    ensures In(HostRoute(ip), a) <==> a == ip
  {
  }

  /** The allowed IPs that parse hold the routable addresses. `TunnelRoutes` adds those that do not parse. */
  lemma PipelineMeaning(config: RouteConfig, reply: ServerReply, peer: Option<Ip>, a: Ip)
    requires FinalRoutes(config, reply, peer).Ok?
    ensures Covered(FinalRoutes(config, reply, peer).value, a) <==> Routable(config, reply, peer, a)
  {
    AdditionalMeaning(config, a);
    ServerRoutesMeaning(config.mode, reply, a);
    var server := ServerRoutes(config.mode, reply).value;
    var merged := Merged(server, AdditionalRoutes(config), reply.hasIpv6Address);
    MergeMeaning(server, AdditionalRoutes(config), reply.hasIpv6Address, a);
    FilterMeaning(merged, config.allowed, config.disallowed, a);
    if peer.Some? {
      SubtractFromMeaning(FilteredRoutes(merged, config.allowed, config.disallowed), HostRoute(peer.value), a);
      HostRouteMeaning(peer.value, a);
    }
  }

  /** Merging, allowlist, denylist and peer come in this order; every step keeps the order of the list. */
  lemma PipelineInOrder(config: RouteConfig, reply: ServerReply, peer: Option<Ip>)
    requires FinalRoutes(config, reply, peer).Ok?
    ensures var additional := (if config.additional.Some? then config.additional.value else []) + config.resolved;
            var merged := AddNew(Listed(config.mode, reply), Usable(additional, reply.hasIpv6Address));
            var allowed := if config.allowed.Some? then AddNew([], Candidates(merged, config.allowed.value)) else merged;
            var kept := if config.disallowed.Some? then SubtractAll(allowed, config.disallowed.value) else allowed;
            FinalRoutes(config, reply, peer).value
            == if peer.Some? then SubtractFrom(kept, HostRoute(peer.value)) else kept
  {
    var server := Listed(config.mode, reply);
    ServerRoutesListed(config.mode, reply);
    MergeInOrder(server, AdditionalRoutes(config), reply.hasIpv6Address);
    if config.allowed.Some? {
      var merged := Merged(server, AdditionalRoutes(config), reply.hasIpv6Address);
      IntersectionsInOrder([], merged, config.allowed.value);
    }
  }

  /** No allowed IP that parses holds the peer's address. `TunnelRoutes.PeerIsRoutedIff` has the others. */
  lemma ParsedRoutesAvoidPeer(config: RouteConfig, reply: ServerReply, peer: Ip, i: nat)
    requires FinalRoutes(config, reply, Some(peer)).Ok?
    requires i < |FinalRoutes(config, reply, Some(peer)).value|
    ensures !In(FinalRoutes(config, reply, Some(peer)).value[i], peer)
  {
    PipelineMeaning(config, reply, Some(peer), peer);
  }

  /** The connection is refused exactly when full mode has no route of a usable family. */
  lemma RefusedOnlyWithoutRoutes(config: RouteConfig, reply: ServerReply, peer: Option<Ip>)
    ensures FinalRoutes(config, reply, peer).Err? <==>
            config.mode.Full? && reply.fullV4 == [] && (reply.hasIpv6Address ==> reply.fullV6 == [])
  {
  }
}
