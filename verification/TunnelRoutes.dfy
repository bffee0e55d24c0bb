/**
 What the tunnel is told to route: the configuration text of `src/wg.rs`.

 The lists of `src/client.rs` may hold text that does not parse. It counts as empty in the filters, and is
 still written into the configuration: an address without a slash with a prefix behind it, any other text
 as it is, line breaks included. How the tunnel reads the number behind a key is the parameter `read`,
 which gives the addresses a value stands for. Whether it takes a configuration with lines it cannot read
 is not part of this model.
 */
module TunnelRoutes {
  import opened Sequences
  import opened Wrappers
  import opened Cidr
  import opened CidrAlgebra
  import opened RouteFilters
  import opened RoutePipeline
  import opened TunnelText

  /** What the peer may carry, and what the system sends into the tunnel. */
  datatype Use = AllowedIp | SystemRoute

  const ALLOWED_IP := "allowed_ip"
  const ROUTE := "route"

  function KeyOf(use: Use): string {
    match use
    case AllowedIp => ALLOWED_IP
    case SystemRoute => ROUTE
  }

  /** One `push_str`: a key with a route the program can read, or text. The final line break is left out. */
  datatype Push = Entry(key: string, route: Route) | Text(text: string)

  /** The fields of the tunnel configuration besides its two lists. Keys are in hexadecimal. */
  datatype Fields = Fields(
    privateKey: string, publicKey: string, peerAddress: string, address: string, address6: string, mtu: string)

  /** The prefix put behind a bare address. An allowed IP gets `/32` whatever its family. */
  function BarePrefix(use: Use, family: Family): nat {
    match use
    case AllowedIp => 32
    case SystemRoute => if family == V6 then 128 else 32
  }

  /** The same for text: any text without a slash gets a prefix, and a colon makes it an IPv6 route. */
  function Suffix(use: Use, text: string): string {
    if '/' in text then "" else if use.SystemRoute? && ':' in text then "/128" else "/32"
  }

  function PushOf(use: Use, route: Route): Push {
    match route
    case Cidr(_, _, _) => Entry(KeyOf(use), route)
    case Bare(ip) => Entry(KeyOf(use), Printed(ip, BarePrefix(use, ip.family)))
    case Opaque(text) => Text(KeyValue(KeyOf(use), text + Suffix(use, text)))
  }

  function PushAll(use: Use, routes: seq<Route>): seq<Push> {
    if routes == [] then [] else [PushOf(use, routes[0])] + PushAll(use, routes[1..])
  }

  /** The pairs written in front of the allowed IPs. */
  function PeerFields(fields: Fields): seq<(string, string)> {
    [("private_key", fields.privateKey), ("replace_peers", "true"), ("public_key", fields.publicKey),
     ("replace_allowed_ips", "true"), ("endpoint", fields.peerAddress), ("persistent_keepalive_interval", "10")]
  }

  /** The pairs written in front of the system routes. */
  function DeviceFields(fields: Fields): seq<(string, string)> {
    [("address", fields.address)]
    + (if fields.address6 != "" then [("address", fields.address6)] else [])
    + [("mtu", fields.mtu), ("up", "true")]
  }

  function PushFields(fields: seq<(string, string)>): seq<Push> {
    seq(|fields|, i requires 0 <= i < |fields| => Text(KeyValue(fields[i].0, fields[i].1)))
  }

  /** The whole configuration of `config_wg`. */
  function Configuration(fields: Fields, allowedIps: seq<Route>, routes: seq<Route>): seq<Push> {
    PushFields(PeerFields(fields)) + PushAll(AllowedIp, allowedIps)
    + PushFields(DeviceFields(fields)) + PushAll(SystemRoute, routes)
  }

  method PushAllowedIp(allowedIp: Route) returns (push: Push)
    ensures push == PushOf(AllowedIp, allowedIp)
  {
    match allowedIp {
      case Cidr(_, _, _) => push := Entry(ALLOWED_IP, allowedIp);
      case Bare(ip) => push := Entry(ALLOWED_IP, Printed(ip, 32));
      case Opaque(text) => push := Text(KeyValue(ALLOWED_IP, text + if '/' in text then "" else "/32"));
    }
  }

  method PushRoute(route: Route) returns (push: Push)
    ensures push == PushOf(SystemRoute, route)
  {
    match route {
      case Cidr(_, _, _) => push := Entry(ROUTE, route);
      case Bare(ip) => push := Entry(ROUTE, Printed(ip, if ip.family == V6 then 128 else 32));
      case Opaque(text) =>
        var prefix := if ':' in text then "/128" else "/32";
        push := Text(KeyValue(ROUTE, text + if '/' in text then "" else prefix));
    }
  }

  /** The loop over the allowed IPs, which `config_wg` and `config_wg_netstack` share. */
  method PushAllowedIps(allowedIps: seq<Route>) returns (pushed: seq<Push>)
    ensures pushed == PushAll(AllowedIp, allowedIps)
  {
    pushed := [];
    for i := 0 to |allowedIps|
      invariant pushed + PushAll(AllowedIp, allowedIps[i..]) == PushAll(AllowedIp, allowedIps)
    {
      assert allowedIps[i..][1..] == allowedIps[i + 1..];
      var push := PushAllowedIp(allowedIps[i]);
      Assoc(pushed, [push], PushAll(AllowedIp, allowedIps[i + 1..]));
      pushed := pushed + [push];
    }
  }

  method PushRoutes(routes: seq<Route>) returns (pushed: seq<Push>)
    ensures pushed == PushAll(SystemRoute, routes)
  {
    pushed := [];
    for i := 0 to |routes|
      invariant pushed + PushAll(SystemRoute, routes[i..]) == PushAll(SystemRoute, routes)
    {
      assert routes[i..][1..] == routes[i + 1..];
      var push := PushRoute(routes[i]);
      Assoc(pushed, [push], PushAll(SystemRoute, routes[i + 1..]));
      pushed := pushed + [push];
    }
  }

  method ConfigWg(fields: Fields, allowedIps: seq<Route>, routes: seq<Route>) returns (buffer: seq<Push>)
    ensures buffer == Configuration(fields, allowedIps, routes)
  {
    buffer := PushFields(PeerFields(fields));
    var allowed := PushAllowedIps(allowedIps);
    buffer := buffer + allowed;
    buffer := buffer + PushFields(DeviceFields(fields));
    var system := PushRoutes(routes);
    buffer := buffer + system;
  }

  method ConfigWgNetstack(fields: Fields, allowedIps: seq<Route>) returns (buffer: seq<Push>)
    ensures buffer == PushFields(PeerFields(fields)) + PushAll(AllowedIp, allowedIps)
  {
    buffer := PushFields(PeerFields(fields));
    var allowed := PushAllowedIps(allowedIps);
    buffer := buffer + allowed;
  }

  // ----- Text that does not parse, on its way through the pipeline

  /** The entries that are not of the form `ip/number`. */
  function Unparsed(routes: seq<Route>): seq<Route> {
    if routes == [] then [] else (if routes[0].Cidr? then [] else [routes[0]]) + Unparsed(routes[1..])
  }

  lemma {:induction false} UnparsedAppend(xs: seq<Route>, ys: seq<Route>)
    ensures Unparsed(xs + ys) == Unparsed(xs) + Unparsed(ys)
  {
    if xs == [] {
      assert xs + ys == ys;
    } else {
      var head := if xs[0].Cidr? then [] else [xs[0]];
      assert (xs + ys)[1..] == xs[1..] + ys;
      UnparsedAppend(xs[1..], ys);
      Assoc(head, Unparsed(xs[1..]), Unparsed(ys));
    }
  }

  lemma {:induction false} NoneUnparsed(routes: seq<Route>)
    requires forall i :: 0 <= i < |routes| ==> routes[i].Cidr?
    ensures Unparsed(routes) == []
  {
    if routes != [] {
      NoneUnparsed(routes[1..]);
    }
  }

  lemma {:induction false} MergedUnparsed(routes: seq<Route>, additional: seq<Route>, hasIpv6Address: bool)
    ensures Unparsed(Merged(routes, additional, hasIpv6Address)) == Unparsed(routes)
    decreases |additional|
  {
    if additional != [] {
      var r := additional[0];
      var next := if Mergeable(r, hasIpv6Address) && r !in routes then routes + [r] else routes;
      UnparsedAppend(routes, [r]);
      MergedUnparsed(next, additional[1..], hasIpv6Address);
    }
  }

  lemma SubtractedUnparsed(route: Route, excluded: Route)
    ensures Unparsed(SubtractCidr(route, excluded)) == Unparsed([route])
  {
    SubtractShape(route, excluded);
    if StrictlyContains(route, excluded) {
      var blocks := SubtractCidr(route, excluded);
      var o, i := ParseCidr(route).value, ParseCidr(excluded).value;
      forall k | 0 <= k < |blocks| ensures blocks[k].Cidr? {
        assert Beside(blocks[k], o.prefix + 1 + k, i);
      }
      NoneUnparsed(blocks);
    }
  }

  lemma {:induction false} SubtractFromUnparsed(routes: seq<Route>, excluded: Route)
    ensures Unparsed(SubtractFrom(routes, excluded)) == Unparsed(routes)
  {
    if routes != [] {
      SubtractedUnparsed(routes[0], excluded);
      SubtractFromUnparsed(routes[1..], excluded);
      UnparsedAppend(SubtractCidr(routes[0], excluded), SubtractFrom(routes[1..], excluded));
      UnparsedAppend([routes[0]], routes[1..]);
      assert [routes[0]] + routes[1..] == routes;
    }
  }

  lemma {:induction false} SubtractAllUnparsed(routes: seq<Route>, excluded: seq<Route>)
    ensures Unparsed(SubtractAll(routes, excluded)) == Unparsed(routes)
    decreases |excluded|
  {
    if excluded != [] {
      SubtractFromUnparsed(routes, excluded[0]);
      SubtractAllUnparsed(SubtractFrom(routes, excluded[0]), excluded[1..]);
    }
  }

  lemma PermittedUnparsed(servers: seq<Route>, allowed: Option<seq<Route>>)
    ensures Unparsed(Permitted(servers, allowed)) == if allowed.None? then Unparsed(servers) else []
  {
    if allowed.Some? {
      IntersectionsListedOnce([], servers, allowed.value);
      NoneUnparsed(Permitted(servers, allowed));
    }
  }

  /**
   Without an allowlist the server's text that does not parse comes through untouched and in order,
   whatever the denylist and the peer are. With one, none does. Additional routes never contribute any.
   */
  lemma FinalUnparsed(config: RouteConfig, reply: ServerReply, peer: Option<Ip>)
    requires FinalRoutes(config, reply, peer).Ok?
    ensures Unparsed(FinalRoutes(config, reply, peer).value)
         == if config.allowed.None? then Unparsed(Listed(config.mode, reply)) else []
  {
    ServerRoutesListed(config.mode, reply);
    var server := Listed(config.mode, reply);
    var merged := Merged(server, AdditionalRoutes(config), reply.hasIpv6Address);
    MergedUnparsed(server, AdditionalRoutes(config), reply.hasIpv6Address);
    PermittedUnparsed(merged, config.allowed);
    if config.disallowed.Some? {
      SubtractAllUnparsed(Permitted(merged, config.allowed), config.disallowed.value);
    }
    if peer.Some? {
      SubtractFromUnparsed(FilteredRoutes(merged, config.allowed, config.disallowed), HostRoute(peer.value));
    }
  }

  // ----- What the configuration says

  /** A line gives `use` the address `a`. */
  ghost predicate LineNames(read: string -> Route, line: string, use: Use, a: Ip) {
    var cut := Cut(Chomp(line));
    cut.Some? && cut.value.0 == KeyOf(use) && In(read(cut.value.1), a)
  }

  ghost predicate LinesName(read: string -> Route, lines: seq<string>, use: Use, a: Ip) {
    exists i :: 0 <= i < |lines| && LineNames(read, lines[i], use, a)
  }

  ghost predicate TextNames(read: string -> Route, text: string, use: Use, a: Ip) {
    LinesName(read, Lines(text), use, a)
  }

  ghost predicate PushNames(read: string -> Route, push: Push, use: Use, a: Ip) {
    match push
    case Entry(key, route) => key == KeyOf(use) && In(route, a)
    case Text(text) => TextNames(read, text, use, a)
  }

  ghost predicate Names(read: string -> Route, buffer: seq<Push>, use: Use, a: Ip) {
    exists i :: 0 <= i < |buffer| && PushNames(read, buffer[i], use, a)
  }

  lemma NamesAppend(read: string -> Route, xs: seq<Push>, ys: seq<Push>, use: Use, a: Ip)
    ensures Names(read, xs + ys, use, a) <==> Names(read, xs, use, a) || Names(read, ys, use, a)
  {
    if Names(read, xs, use, a) {
      var i :| 0 <= i < |xs| && PushNames(read, xs[i], use, a);
      assert PushNames(read, (xs + ys)[i], use, a);
    }
    if Names(read, ys, use, a) {
      var i :| 0 <= i < |ys| && PushNames(read, ys[i], use, a);
      assert PushNames(read, (xs + ys)[|xs| + i], use, a);
    }
    if Names(read, xs + ys, use, a) {
      var i :| 0 <= i < |xs + ys| && PushNames(read, (xs + ys)[i], use, a);
      assert if i < |xs| then PushNames(read, xs[i], use, a) else PushNames(read, ys[i - |xs|], use, a);
    }
  }

  lemma NamesSingle(read: string -> Route, push: Push, use: Use, a: Ip)
    ensures Names(read, [push], use, a) <==> PushNames(read, push, use, a)
  {
    if PushNames(read, push, use, a) {
      assert PushNames(read, [push][0], use, a);
    }
  }

  /** One entry of `routes`, written for `written`, gives `use` the address. */
  ghost predicate Reaches(read: string -> Route, written: Use, routes: seq<Route>, use: Use, a: Ip) {
    exists r :: r in routes && !r.Cidr? && PushNames(read, PushOf(written, r), use, a)
  }

  lemma ReachesSplit(read: string -> Route, written: Use, routes: seq<Route>, use: Use, a: Ip)
    requires routes != []
    ensures Reaches(read, written, routes, use, a) <==>
            || (!routes[0].Cidr? && PushNames(read, PushOf(written, routes[0]), use, a))
            || Reaches(read, written, routes[1..], use, a)
  {
    if Reaches(read, written, routes[1..], use, a) {
      var r :| r in routes[1..] && !r.Cidr? && PushNames(read, PushOf(written, r), use, a);
      assert r in routes;
    }
    if Reaches(read, written, routes, use, a) {
      var r :| r in routes && !r.Cidr? && PushNames(read, PushOf(written, r), use, a);
      assert r == routes[0] || r in routes[1..];
    }
  }

  /** A written list gives its own use the addresses of its entries that parse, and whatever the others reach. */
  lemma {:induction false} PushedMeaning(read: string -> Route, written: Use, routes: seq<Route>, use: Use, a: Ip)
    ensures Names(read, PushAll(written, routes), use, a) <==>
            (written == use && Covered(routes, a)) || Reaches(read, written, routes, use, a)
  {
    if routes != [] {
      var rest := PushAll(written, routes[1..]);
      PushedMeaning(read, written, routes[1..], use, a);
      NamesAppend(read, [PushOf(written, routes[0])], rest, use, a);
      NamesSingle(read, PushOf(written, routes[0]), use, a);
      ReachesSplit(read, written, routes, use, a);
      CoveredSplit(routes, a);
    }
  }

  lemma {:induction false} UnparsedReaches(read: string -> Route, written: Use, routes: seq<Route>, use: Use, a: Ip)
    ensures Reaches(read, written, Unparsed(routes), use, a) <==> Reaches(read, written, routes, use, a)
  {
    if routes != [] {
      UnparsedReaches(read, written, routes[1..], use, a);
      ReachesSplit(read, written, routes, use, a);
      if !routes[0].Cidr? {
        var some := Unparsed(routes);
        assert some[0] == routes[0] && some[1..] == Unparsed(routes[1..]);
        ReachesSplit(read, written, some, use, a);
      } else {
        assert Unparsed(routes) == Unparsed(routes[1..]);
      }
    }
  }

  /** The other fields of the configuration name `a`. */
  ghost predicate FieldsName(read: string -> Route, fields: Fields, use: Use, a: Ip) {
    Names(read, PushFields(PeerFields(fields)) + PushFields(DeviceFields(fields)), use, a)
  }

  /** The list of system routes: the allowed IPs, or none when `auto_setup_routes` is off. */
  function SystemRoutes(allowedIps: seq<Route>, autoSetup: bool): seq<Route> {
    if autoSetup then allowedIps else []
  }

  /** An entry of the server's list that does not parse reaches `a` from one of the two lists. */
  ghost predicate ServerReaches(read: string -> Route, server: seq<Route>, autoSetup: bool, use: Use, a: Ip) {
    Reaches(read, AllowedIp, server, use, a) || (autoSetup && Reaches(read, SystemRoute, server, use, a))
  }

  lemma ConfigurationMeaning(
    read: string -> Route, fields: Fields, allowedIps: seq<Route>, autoSetup: bool, use: Use, a: Ip)
    ensures Names(read, Configuration(fields, allowedIps, SystemRoutes(allowedIps, autoSetup)), use, a) <==>
            || ((use.AllowedIp? || autoSetup) && Covered(allowedIps, a))
            || ServerReaches(read, allowedIps, autoSetup, use, a)
            || FieldsName(read, fields, use, a)
  {
    var peer, device := PushFields(PeerFields(fields)), PushFields(DeviceFields(fields));
    var routes := SystemRoutes(allowedIps, autoSetup);
    var allowed, system := PushAll(AllowedIp, allowedIps), PushAll(SystemRoute, routes);
    NamesAppend(read, peer, allowed, use, a);
    NamesAppend(read, peer + allowed, device, use, a);
    NamesAppend(read, peer + allowed + device, system, use, a);
    NamesAppend(read, peer, device, use, a);
    PushedMeaning(read, AllowedIp, allowedIps, use, a);
    PushedMeaning(read, SystemRoute, routes, use, a);
  }

  /**
   The configuration gives a use exactly the routable addresses, those the server's text that
   does not parse reaches when there is no allowlist, and those the other fields name.
   */
  lemma TunnelMeaning(read: string -> Route, fields: Fields, autoSetup: bool, use: Use,
                      config: RouteConfig, reply: ServerReply, peer: Option<Ip>, a: Ip)
    requires FinalRoutes(config, reply, peer).Ok?
    ensures var list := FinalRoutes(config, reply, peer).value;
            Names(read, Configuration(fields, list, SystemRoutes(list, autoSetup)), use, a) <==>
            || ((use.AllowedIp? || autoSetup) && Routable(config, reply, peer, a))
            || (config.allowed.None? && ServerReaches(read, Listed(config.mode, reply), autoSetup, use, a))
            || FieldsName(read, fields, use, a)
  {
    var list, server := FinalRoutes(config, reply, peer).value, Listed(config.mode, reply);
    ConfigurationMeaning(read, fields, list, autoSetup, use, a);
    PipelineMeaning(config, reply, peer, a);
    FinalUnparsed(config, reply, peer);
    UnparsedReaches(read, AllowedIp, list, use, a);
    UnparsedReaches(read, SystemRoute, list, use, a);
    UnparsedReaches(read, AllowedIp, server, use, a);
    UnparsedReaches(read, SystemRoute, server, use, a);
  }

  /** The peer's address is given to the tunnel exactly when text that does not parse, or another field, does so. */
  lemma PeerIsRoutedIff(read: string -> Route, fields: Fields, autoSetup: bool, use: Use,
                        config: RouteConfig, reply: ServerReply, peer: Ip)
    requires FinalRoutes(config, reply, Some(peer)).Ok?
    ensures var list := FinalRoutes(config, reply, Some(peer)).value;
            Names(read, Configuration(fields, list, SystemRoutes(list, autoSetup)), use, peer) <==>
            || (config.allowed.None? &&
                ServerReaches(read, Listed(config.mode, reply), autoSetup, use, peer))
            || FieldsName(read, fields, use, peer)
  {
    TunnelMeaning(read, fields, autoSetup, use, config, reply, Some(peer), peer);
  }

  // ----- What an entry that does not parse reaches

  /** A line written for `written` that is not broken speaks for `written` alone. */
  lemma LineMeaning(read: string -> Route, key: string, value: string, use: Use, a: Ip)
    requires '=' !in key
    ensures LineNames(read, KeyValue(key, value), use, a) <==> key == KeyOf(use) && In(read(Chomp(value)), a)
  {
    ChompKeyValue(key, value);
    CutKeyValue(key, Chomp(value));
  }

  lemma UnbrokenMeaning(read: string -> Route, key: string, value: string, use: Use, a: Ip)
    requires '=' !in key && '\n' !in key && '\n' !in value
    ensures TextNames(read, KeyValue(key, value), use, a) <==> key == KeyOf(use) && In(read(Chomp(value)), a)
  {
    var line := KeyValue(key, value);
    LinesUnbroken(line);
    LineMeaning(read, key, value, use, a);
    OneLineMore(read, line, [], use, a);
    assert [line] + [] == [line];
  }

  /** A line break starts a line of its own, with a key of its own. */
  lemma BrokenMeaning(read: string -> Route, key: string, first: string, rest: string, use: Use, a: Ip)
    requires '=' !in key && '\n' !in key && '\n' !in first
    ensures TextNames(read, KeyValue(key, first + ("\n" + rest)), use, a) <==>
            (key == KeyOf(use) && In(read(Chomp(first)), a)) || TextNames(read, rest, use, a)
  {
    var line, text := KeyValue(key, first), KeyValue(key, first + ("\n" + rest));
    assert text == line + ("\n" + rest);
    LinesBreak(line, rest);
    LineMeaning(read, key, first, use, a);
    OneLineMore(read, line, Lines(rest), use, a);
  }

  lemma OneElementMore<T>(p: T -> bool, x: T, xs: seq<T>)
    ensures (exists i :: 0 <= i < |[x] + xs| && p(([x] + xs)[i])) <==>
            p(x) || exists i :: 0 <= i < |xs| && p(xs[i])
  {
    var all := [x] + xs;
    assert all[0] == x;
    if i :| 0 <= i < |all| && p(all[i]) {
      assert i > 0 ==> xs[i - 1] == all[i];
    }
    if i :| 0 <= i < |xs| && p(xs[i]) {
      assert all[i + 1] == xs[i];
    }
  }

  lemma OneLineMore(read: string -> Route, line: string, others: seq<string>, use: Use, a: Ip)
    ensures LinesName(read, [line] + others, use, a) <==>
            LineNames(read, line, use, a) || LinesName(read, others, use, a)
  {
    var all := [line] + others;
    var names := l => LineNames(read, l, use, a);
    OneElementMore(names, line, others);
    assert LinesName(read, all, use, a) <==> exists i :: 0 <= i < |all| && names(all[i]);
    assert LinesName(read, others, use, a) <==> exists i :: 0 <= i < |others| && names(others[i]);
  }

  lemma KeyIsPlain(use: Use)
    ensures '=' !in KeyOf(use) && '\n' !in KeyOf(use)
    ensures KeyOf(AllowedIp) != KeyOf(SystemRoute)
  {
    assert |KeyOf(AllowedIp)| != |KeyOf(SystemRoute)|;
  }

  /** A bare address reaches what agrees with it on the prefix it gets. */
  lemma BareMeaning(read: string -> Route, written: Use, ip: Ip, use: Use, a: Ip)
    ensures PushNames(read, PushOf(written, Bare(ip)), use, a) <==>
            written == use && SamePrefix(ip, a, if use.SystemRoute? && ip.family == V6 then 128 else 32)
  {
    KeyIsPlain(use);
  }

  /** So it reaches itself alone, except for an IPv6 allowed IP, which grows to the `/32` around it. */
  lemma BareReachesItself(read: string -> Route, ip: Ip, use: Use, a: Ip)
    requires ip.family == V4 || use.SystemRoute?
    ensures PushNames(read, PushOf(use, Bare(ip)), use, a) <==> a == ip
  {
    BareMeaning(read, use, ip, use, a);
  }

  /** Text without a line break reaches what the tunnel reads in it, with its prefix. */
  lemma OpaqueMeaning(read: string -> Route, written: Use, text: string, use: Use, a: Ip)
    requires '\n' !in text
    ensures PushNames(read, PushOf(written, Opaque(text)), use, a) <==>
            written == use &&
            In(read(Chomp(if '/' in text then text
                          else text + if written.SystemRoute? && ':' in text then "/128" else "/32")), a)
  {
    KeyIsPlain(written);
    KeyIsPlain(use);
    assert text + "" == text;
    UnbrokenMeaning(read, KeyOf(written), text + Suffix(written, text), use, a);
  }

  /** Text without a line break that the tunnel does not read as an address either. */
  ghost predicate Plain(read: string -> Route, text: string) {
    && '\n' !in text
    && if '/' in text then read(Chomp(text)).Opaque?
       else read(Chomp(text + "/32")).Opaque? && read(Chomp(text + "/128")).Opaque?
  }

  /** A bare address of `routes` agrees with `a` on the prefix it gets. */
  ghost predicate BareReaches(routes: seq<Route>, use: Use, a: Ip) {
    exists ip: Ip ::
      Bare(ip) in routes && SamePrefix(ip, a, if use.SystemRoute? && ip.family == V6 then 128 else 32)
  }

  /** When the server's text is plain, its bare addresses are all that reaches anything. */
  lemma OnlyBaresReach(read: string -> Route, written: Use, routes: seq<Route>, use: Use, a: Ip)
    requires forall r :: r in routes && r.Opaque? ==> Plain(read, r.text)
    ensures Reaches(read, written, routes, use, a) <==> written == use && BareReaches(routes, use, a)
  {
    if Reaches(read, written, routes, use, a) {
      var r :| r in routes && !r.Cidr? && PushNames(read, PushOf(written, r), use, a);
      match r
      case Bare(ip) => BareMeaning(read, written, ip, use, a);
      case Opaque(text) => OpaqueMeaning(read, written, text, use, a);
    }
    if written == use && BareReaches(routes, use, a) {
      var ip: Ip :| Bare(ip) in routes && SamePrefix(ip, a, if use.SystemRoute? && ip.family == V6 then 128 else 32);
      BareMeaning(read, written, ip, use, a);
    }
  }

  ghost predicate UnbrokenFields(fields: Fields) {
    && '\n' !in fields.privateKey && '\n' !in fields.publicKey && '\n' !in fields.peerAddress
    && '\n' !in fields.address && '\n' !in fields.address6 && '\n' !in fields.mtu
  }

  /** A pair of one line with a key of its own. */
  ghost predicate Silent(pair: (string, string)) {
    '=' !in pair.0 && '\n' !in pair.0 && '\n' !in pair.1 && pair.0 != ALLOWED_IP && pair.0 != ROUTE
  }

  lemma SilentFields(read: string -> Route, fields: seq<(string, string)>, use: Use, a: Ip)
    requires forall pair :: pair in fields ==> Silent(pair)
    ensures !Names(read, PushFields(fields), use, a)
  {
    var pushes := PushFields(fields);
    forall i | 0 <= i < |pushes| ensures !PushNames(read, pushes[i], use, a) {
      assert fields[i] in fields;
      UnbrokenMeaning(read, fields[i].0, fields[i].1, use, a);
    }
  }

  lemma PeerKeysAreSilent(value: string)
    requires '\n' !in value
    ensures Silent(("private_key", value)) && Silent(("public_key", value)) && Silent(("endpoint", value))
    ensures Silent(("replace_peers", "true")) && Silent(("replace_allowed_ips", "true"))
    ensures Silent(("persistent_keepalive_interval", "10"))
  {
    assert "public_key"[0] != ALLOWED_IP[0];
  }

  lemma DeviceKeysAreSilent(value: string)
    requires '\n' !in value
    ensures Silent(("address", value)) && Silent(("mtu", value)) && Silent(("up", "true"))
  {
  }

  /** Fields without a line break have keys of their own and name nothing. */
  lemma UnbrokenFieldsAreSilent(read: string -> Route, fields: Fields, use: Use, a: Ip)
    requires UnbrokenFields(fields)
    ensures !FieldsName(read, fields, use, a)
  {
    PeerKeysAreSilent(fields.privateKey);
    PeerKeysAreSilent(fields.publicKey);
    PeerKeysAreSilent(fields.peerAddress);
    DeviceKeysAreSilent(fields.address);
    DeviceKeysAreSilent(fields.address6);
    DeviceKeysAreSilent(fields.mtu);
    SilentFields(read, PeerFields(fields), use, a);
    SilentFields(read, DeviceFields(fields), use, a);
    NamesAppend(read, PushFields(PeerFields(fields)), PushFields(DeviceFields(fields)), use, a);
  }

  /** With unbroken fields and plain text the peer is given to the tunnel exactly by a bare address that reaches it. */
  lemma PeerIsRoutedByBares(read: string -> Route, fields: Fields, autoSetup: bool, use: Use,
                            config: RouteConfig, reply: ServerReply, peer: Ip)
    requires FinalRoutes(config, reply, Some(peer)).Ok? && UnbrokenFields(fields)
    requires forall r :: r in Listed(config.mode, reply) && r.Opaque? ==> Plain(read, r.text)
    ensures var list := FinalRoutes(config, reply, Some(peer)).value;
            Names(read, Configuration(fields, list, SystemRoutes(list, autoSetup)), use, peer) <==>
            && (use.AllowedIp? || autoSetup) && config.allowed.None?
            && BareReaches(Listed(config.mode, reply), use, peer)
  {
    var server := Listed(config.mode, reply);
    PeerIsRoutedIff(read, fields, autoSetup, use, config, reply, peer);
    OnlyBaresReach(read, AllowedIp, server, use, peer);
    OnlyBaresReach(read, SystemRoute, server, use, peer);
    UnbrokenFieldsAreSilent(read, fields, use, peer);
  }

  // ----- Runs in which the peer is given to its own tunnel

  /** Split mode, no allowlist, a denylist with the peer in it, and one entry that does not parse. */
  function LoneEntry(entry: Route, peer: Ip): (RouteConfig, ServerReply) {
    (RouteConfig(Split, None, [], None, Some([HostRoute(peer)])), ServerReply([entry], [], [], [], false))
  }

  lemma LoneEntrySurvives(entry: Route, peer: Ip)
    requires !entry.Cidr?
    ensures FinalRoutes(LoneEntry(entry, peer).0, LoneEntry(entry, peer).1, Some(peer)) == Ok([entry])
  {
    var (config, reply) := LoneEntry(entry, peer);
    var host := HostRoute(peer);
    assert SubtractFrom([entry], host) == SubtractCidr(entry, host) + SubtractFrom([], host);
    assert SubtractAll([entry], [host]) == SubtractAll(SubtractFrom([entry], host), []) == [entry];
    assert AdditionalRoutes(config) == [] && ServerRoutes(config.mode, reply) == Ok([entry]);
    assert Merged([entry], [], false) == [entry];
    assert FilteredRoutes([entry], None, Some([host])) == [entry];
  }

  lemma LoneEntryIsRouted(read: string -> Route, fields: Fields, autoSetup: bool, entry: Route, use: Use, a: Ip)
    requires !entry.Cidr? && PushNames(read, PushOf(AllowedIp, entry), use, a)
    ensures Names(read, Configuration(fields, [entry], SystemRoutes([entry], autoSetup)), use, a)
  {
    ConfigurationMeaning(read, fields, [entry], autoSetup, use, a);
    assert entry in [entry];
  }

  /** A server that lists its own bare address: neither the denylist nor the carve-out removes it. */
  lemma BarePeerIsRouted(read: string -> Route, fields: Fields, autoSetup: bool, peer: Ip)
    ensures var (config, reply) := LoneEntry(Bare(peer), peer);
            && FinalRoutes(config, reply, Some(peer)) == Ok([Bare(peer)])
            && Names(read, Configuration(fields, [Bare(peer)], SystemRoutes([Bare(peer)], autoSetup)), AllowedIp, peer)
  {
    LoneEntrySurvives(Bare(peer), peer);
    BareMeaning(read, AllowedIp, peer, AllowedIp, peer);
    LoneEntryIsRouted(read, fields, autoSetup, Bare(peer), AllowedIp, peer);
  }

  /** A bare IPv6 neighbour of the peer takes the peer along as an allowed IP, but not as a system route. */
  lemma BareNeighbourIsWidened(read: string -> Route, fields: Fields, neighbour: Ip, peer: Ip)
    requires neighbour.family == V6 && neighbour != peer && SamePrefix(neighbour, peer, 32) && UnbrokenFields(fields)
    ensures var (config, reply) := LoneEntry(Bare(neighbour), peer);
            var list := [Bare(neighbour)];
            && FinalRoutes(config, reply, Some(peer)) == Ok(list)
            && Names(read, Configuration(fields, list, list), AllowedIp, peer)
            && !Names(read, Configuration(fields, list, list), SystemRoute, peer)
  {
    LoneEntrySurvives(Bare(neighbour), peer);
    BareMeaning(read, AllowedIp, neighbour, AllowedIp, peer);
    LoneEntryIsRouted(read, fields, true, Bare(neighbour), AllowedIp, peer);
    BareNeighbourIsNoRoute(read, fields, neighbour, peer);
  }

  lemma BareNeighbourIsNoRoute(read: string -> Route, fields: Fields, neighbour: Ip, peer: Ip)
    requires neighbour.family == V6 && neighbour != peer && UnbrokenFields(fields)
    ensures !Names(read, Configuration(fields, [Bare(neighbour)], [Bare(neighbour)]), SystemRoute, peer)
  {
    var list := [Bare(neighbour)];
    ConfigurationMeaning(read, fields, list, true, SystemRoute, peer);
    OnlyBaresReach(read, AllowedIp, list, SystemRoute, peer);
    OnlyBaresReach(read, SystemRoute, list, SystemRoute, peer);
    UnbrokenFieldsAreSilent(read, fields, SystemRoute, peer);
    HostPrefixIsEquality(neighbour, peer);
  }

  lemma HostPrefixIsEquality(a: Ip, b: Ip)
    ensures SamePrefix(a, b, HostBits(a.family)) <==> a == b
  {
  }

  /** Text whose second line is an allowed IP of its own: it does not parse, and both lines are written. */
  lemma BrokenEntryIsRouted(
    read: string -> Route, fields: Fields, autoSetup: bool, first: string, value: string, peer: Ip)
    requires '\n' !in first && '\n' !in value && '/' in value && In(read(Chomp(value)), peer)
    ensures var text := first + ("\n" + KeyValue(KeyOf(AllowedIp), value));
            var (config, reply) := LoneEntry(Opaque(text), peer);
            && FinalRoutes(config, reply, Some(peer)) == Ok([Opaque(text)])
            && Names(read, Configuration(fields, [Opaque(text)], SystemRoutes([Opaque(text)], autoSetup)), AllowedIp, peer)
  {
    var second := KeyValue(KeyOf(AllowedIp), value);
    var text := first + ("\n" + second);
    LoneEntrySurvives(Opaque(text), peer);
    KeyIsPlain(AllowedIp);
    assert '/' in text && text + "" == text;
    BrokenMeaning(read, KeyOf(AllowedIp), first, second, AllowedIp, peer);
    UnbrokenMeaning(read, KeyOf(AllowedIp), value, AllowedIp, peer);
    LoneEntryIsRouted(read, fields, autoSetup, Opaque(text), AllowedIp, peer);
  }

  /** The same with an address, for any tunnel that reads `203.0.113.7/32` as that address. */
  lemma BrokenEntryExample(read: string -> Route, fields: Fields, autoSetup: bool, peer: Ip)
    requires read("203.0.113.7/32") == HostRoute(peer)
    ensures var entry := Opaque("10.0.0.0/8" + ("\n" + KeyValue("allowed_ip", "203.0.113.7/32")));
            var (config, reply) := LoneEntry(entry, peer);
            && FinalRoutes(config, reply, Some(peer)) == Ok([entry])
            && Names(read, Configuration(fields, [entry], SystemRoutes([entry], autoSetup)), AllowedIp, peer)
  {
    BrokenEntryIsRouted(read, fields, autoSetup, "10.0.0.0/8", "203.0.113.7/32", peer);
  }
}
