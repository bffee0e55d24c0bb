/**
 Reading the tunnel's configuration back: the pairs its lines give, in order, and the values of each key.
 So every field arrives under its own key, in both kinds of configuration that `src/wg.rs` writes.
 */
module TunnelReadBack {
  import opened Sequences
  import opened Cidr
  import opened TunnelText
  import opened TunnelRoutes

  /** What stands behind a key: a route the program printed, or text. */
  datatype Datum = Printout(route: Route) | Chars(text: string)

  /** The pairs of the lines that have a key. */
  function ReadLines(lines: seq<string>): seq<(string, Datum)> {
    if lines == [] then []
    else
      match Cut(Chomp(lines[0]))
      case None => ReadLines(lines[1..])
      case Some((key, value)) => [(key, Chars(value))] + ReadLines(lines[1..])
  }

  function ReadPush(push: Push): seq<(string, Datum)> {
    match push
    case Entry(key, route) => [(key, Printout(route))]
    case Text(text) => ReadLines(Lines(text))
  }

  function ReadBack(buffer: seq<Push>): seq<(string, Datum)> {
    if buffer == [] then [] else ReadPush(buffer[0]) + ReadBack(buffer[1..])
  }

  /** The values behind `key`, in order. */
  function Given(pairs: seq<(string, Datum)>, key: string): seq<Datum> {
    if pairs == [] then []
    else (if pairs[0].0 == key then [pairs[0].1] else []) + Given(pairs[1..], key)
  }

  lemma {:induction false} ReadBackAppend(xs: seq<Push>, ys: seq<Push>)
    ensures ReadBack(xs + ys) == ReadBack(xs) + ReadBack(ys)
  {
    if xs == [] {
      assert xs + ys == ys;
    } else {
      assert (xs + ys)[1..] == xs[1..] + ys;
      ReadBackAppend(xs[1..], ys);
      Assoc(ReadPush(xs[0]), ReadBack(xs[1..]), ReadBack(ys));
    }
  }

  lemma {:induction false} GivenAppend(xs: seq<(string, Datum)>, ys: seq<(string, Datum)>, key: string)
    ensures Given(xs + ys, key) == Given(xs, key) + Given(ys, key)
  {
    if xs == [] {
      assert xs + ys == ys;
    } else {
      var head := if xs[0].0 == key then [xs[0].1] else [];
      assert (xs + ys)[1..] == xs[1..] + ys;
      GivenAppend(xs[1..], ys, key);
      Assoc(head, Given(xs[1..], key), Given(ys, key));
    }
  }

  lemma ReadLine(key: string, value: string)
    requires '=' !in key && '\n' !in key && '\n' !in value
    ensures ReadPush(Text(KeyValue(key, value))) == [(key, Chars(Chomp(value)))]
  {
    var line := KeyValue(key, value);
    LinesUnbroken(line);
    ChompKeyValue(key, value);
    CutKeyValue(key, Chomp(value));
    assert ReadLines([line]) == [(key, Chars(Chomp(value)))] + ReadLines([line][1..]);
  }

  // ----- The two lists

  /** What one entry of a list should give. */
  function EntryDatum(route: Route, bareV6Prefix: nat, textV6Suffix: string): Datum {
    match route
    case Cidr(_, _, _) => Printout(route)
    case Bare(ip) => Printout(Printed(ip, if ip.family == V6 then bareV6Prefix else 32))
    case Opaque(text) =>
      Chars(Chomp(if '/' in text then text else text + if ':' in text then textV6Suffix else "/32"))
  }

  function Entries(routes: seq<Route>, bareV6Prefix: nat, textV6Suffix: string): seq<Datum> {
    if routes == [] then []
    else [EntryDatum(routes[0], bareV6Prefix, textV6Suffix)] + Entries(routes[1..], bareV6Prefix, textV6Suffix)
  }

  function Keyed(key: string, values: seq<Datum>): seq<(string, Datum)> {
    if values == [] then [] else [(key, values[0])] + Keyed(key, values[1..])
  }

  ghost predicate UnbrokenList(routes: seq<Route>) {
    forall r :: r in routes && r.Opaque? ==> '\n' !in r.text
  }

  lemma ReadEntry(use: Use, route: Route)
    requires route.Opaque? ==> '\n' !in route.text
    ensures ReadPush(PushOf(use, route)) ==
            (match use
             case AllowedIp => [("allowed_ip", EntryDatum(route, 32, "/32"))]
             case SystemRoute => [("route", EntryDatum(route, 128, "/128"))])
  {
    KeyIsPlain(use);
    if route.Opaque? {
      assert route.text + "" == route.text;
      ReadLine(KeyOf(use), route.text + Suffix(use, route.text));
    }
  }

  lemma {:induction false} ReadList(use: Use, routes: seq<Route>)
    requires UnbrokenList(routes)
    ensures ReadBack(PushAll(use, routes)) ==
            (match use
             case AllowedIp => Keyed("allowed_ip", Entries(routes, 32, "/32"))
             case SystemRoute => Keyed("route", Entries(routes, 128, "/128")))
  {
    if routes != [] {
      ReadEntry(use, routes[0]);
      ReadList(use, routes[1..]);
      var rest := PushAll(use, routes[1..]);
      assert PushAll(use, routes) == [PushOf(use, routes[0])] + rest;
      assert ([PushOf(use, routes[0])] + rest)[1..] == rest;
    }
  }

  lemma {:induction false} GivenKeyed(key: string, values: seq<Datum>, wanted: string)
    ensures Given(Keyed(key, values), wanted) == if key == wanted then values else []
  {
    if values != [] {
      GivenKeyed(key, values[1..], wanted);
      assert Keyed(key, values)[1..] == Keyed(key, values[1..]);
      assert [values[0]] + values[1..] == values;
    }
  }

  // ----- The fields

  function PeerReading(fields: Fields): seq<(string, Datum)> {
    [("private_key", Chars(Chomp(fields.privateKey))),
     ("replace_peers", Chars("true")),
     ("public_key", Chars(Chomp(fields.publicKey))),
     ("replace_allowed_ips", Chars("true")),
     ("endpoint", Chars(Chomp(fields.peerAddress))),
     ("persistent_keepalive_interval", Chars("10"))]
  }

  function DeviceReading(fields: Fields): seq<(string, Datum)> {
    [("address", Chars(Chomp(fields.address)))]
    + (if fields.address6 != "" then [("address", Chars(Chomp(fields.address6)))] else [])
    + [("mtu", Chars(Chomp(fields.mtu))), ("up", Chars("true"))]
  }

  function Pairs(fields: seq<(string, string)>): seq<(string, Datum)> {
    if fields == [] then [] else [(fields[0].0, Chars(Chomp(fields[0].1)))] + Pairs(fields[1..])
  }

  lemma PushCons(field: (string, string), rest: seq<(string, string)>)
    ensures PushFields([field] + rest) == [Text(KeyValue(field.0, field.1))] + PushFields(rest)
  {
  }

  lemma ReadBackCons(push: Push, rest: seq<Push>)
    ensures ReadBack([push] + rest) == ReadPush(push) + ReadBack(rest)
  {
    assert ([push] + rest)[1..] == rest;
  }

  /** Pairs of one line are read back one by one. */
  lemma {:induction false} ReadFields(fields: seq<(string, string)>)
    requires forall pair :: pair in fields ==> Silent(pair)
    ensures ReadBack(PushFields(fields)) == Pairs(fields)
  {
    if fields != [] {
      var first, rest := fields[0], fields[1..];
      assert first in fields && fields == [first] + rest;
      ReadLine(first.0, first.1);
      ReadFields(rest);
      PushCons(first, rest);
      ReadBackCons(Text(KeyValue(first.0, first.1)), PushFields(rest));
    }
  }

  lemma FieldsAreSilent(fields: Fields)
    requires UnbrokenFields(fields)
    ensures forall pair :: pair in PeerFields(fields) ==> Silent(pair)
    ensures forall pair :: pair in DeviceFields(fields) ==> Silent(pair)
  {
    PeerKeysAreSilent(fields.privateKey);
    PeerKeysAreSilent(fields.publicKey);
    PeerKeysAreSilent(fields.peerAddress);
    DeviceKeysAreSilent(fields.address);
    DeviceKeysAreSilent(fields.address6);
    DeviceKeysAreSilent(fields.mtu);
  }

  lemma ReadPeer(fields: Fields)
    requires UnbrokenFields(fields)
    ensures ReadBack(PushFields(PeerFields(fields))) == PeerReading(fields)
  {
    FieldsAreSilent(fields);
    ReadFields(PeerFields(fields));
    PairsAreMapped(PeerFields(fields));
    FlagsAreChars();
  }

  lemma FlagsAreChars()
    ensures Chomp("true") == "true" && Chomp("10") == "10"
  {
  }

  lemma {:induction false} PairsAreMapped(fields: seq<(string, string)>)
    ensures |Pairs(fields)| == |fields|
    ensures forall i :: 0 <= i < |fields| ==> Pairs(fields)[i] == (fields[i].0, Chars(Chomp(fields[i].1)))
  {
    if fields != [] {
      PairsAreMapped(fields[1..]);
    }
  }

  lemma ReadDevice(fields: Fields)
    requires UnbrokenFields(fields)
    ensures ReadBack(PushFields(DeviceFields(fields))) == DeviceReading(fields)
  {
    FieldsAreSilent(fields);
    ReadFields(DeviceFields(fields));
    PairsAreMapped(DeviceFields(fields));
    FlagsAreChars();
  }

  // ----- The whole configuration

  /**
   Without line breaks in its values the configuration is read back pair by pair: the keys and the peer
   first, then what the peer may carry, then the device, then the system routes.
   */
  lemma ReadConfiguration(fields: Fields, allowedIps: seq<Route>, routes: seq<Route>)
    requires UnbrokenFields(fields) && UnbrokenList(allowedIps) && UnbrokenList(routes)
    ensures ReadBack(Configuration(fields, allowedIps, routes))
         == PeerReading(fields) + Keyed("allowed_ip", Entries(allowedIps, 32, "/32"))
            + DeviceReading(fields) + Keyed("route", Entries(routes, 128, "/128"))
    ensures ReadBack(PushFields(PeerFields(fields)) + PushAll(AllowedIp, allowedIps))
         == PeerReading(fields) + Keyed("allowed_ip", Entries(allowedIps, 32, "/32"))
  {
    var peer, device := PushFields(PeerFields(fields)), PushFields(DeviceFields(fields));
    var allowed, system := PushAll(AllowedIp, allowedIps), PushAll(SystemRoute, routes);
    ReadPeer(fields);
    ReadDevice(fields);
    ReadList(AllowedIp, allowedIps);
    ReadList(SystemRoute, routes);
    ReadBackAppend(peer, allowed);
    ReadBackAppend(peer + allowed, device);
    ReadBackAppend(peer + allowed + device, system);
  }

  // ----- Key by key

  lemma GivenOne(pair: (string, Datum), rest: seq<(string, Datum)>, key: string)
    ensures Given([pair] + rest, key) == (if pair.0 == key then [pair.1] else []) + Given(rest, key)
  {
    assert ([pair] + rest)[1..] == rest;
  }

  /** What the peer's part should give a key. */
  function PeerValues(fields: Fields, key: string): seq<Datum> {
    if key == "private_key" then [Chars(Chomp(fields.privateKey))]
    else if key == "public_key" then [Chars(Chomp(fields.publicKey))]
    else if key == "endpoint" then [Chars(Chomp(fields.peerAddress))]
    else if key == "replace_peers" || key == "replace_allowed_ips" then [Chars("true")]
    else if key == "persistent_keepalive_interval" then [Chars("10")]
    else []
  }

  /** What the device's part should give a key. */
  function DeviceValues(fields: Fields, key: string): seq<Datum> {
    if key == "address" then
      [Chars(Chomp(fields.address))] + if fields.address6 != "" then [Chars(Chomp(fields.address6))] else []
    else if key == "mtu" then [Chars(Chomp(fields.mtu))]
    else if key == "up" then [Chars("true")]
    else []
  }

  /** The peer's keys differ in length. */
  lemma GivenPeer(fields: Fields, key: string)
    ensures Given(PeerReading(fields), key) == PeerValues(fields, key)
  {
    var all := PeerReading(fields);
    GivenTails(all, key);
    assert |"private_key"| == 11 && |"replace_peers"| == 13 && |"public_key"| == 10;
    assert |"replace_allowed_ips"| == 19 && |"endpoint"| == 8 && |"persistent_keepalive_interval"| == 29;
  }

  function OneIf(pair: (string, Datum), key: string): seq<Datum> {
    if pair.0 == key then [pair.1] else []
  }

  lemma GivenTails(all: seq<(string, Datum)>, key: string)
    requires |all| == 6
    ensures Given(all, key) == OneIf(all[0], key) + (OneIf(all[1], key) + (OneIf(all[2], key)
                               + (OneIf(all[3], key) + (OneIf(all[4], key) + OneIf(all[5], key)))))
  {
    assert all == [all[0]] + ([all[1]] + ([all[2]] + ([all[3]] + ([all[4]] + ([all[5]] + [])))));
    GivenOne(all[5], [], key);
    GivenOne(all[4], [all[5]] + [], key);
    GivenOne(all[3], [all[4]] + ([all[5]] + []), key);
    GivenOne(all[2], [all[3]] + ([all[4]] + ([all[5]] + [])), key);
    GivenOne(all[1], [all[2]] + ([all[3]] + ([all[4]] + ([all[5]] + []))), key);
    GivenOne(all[0], [all[1]] + ([all[2]] + ([all[3]] + ([all[4]] + ([all[5]] + [])))), key);
    assert OneIf(all[5], key) + [] == OneIf(all[5], key);
  }

  lemma GivenDevice(fields: Fields, key: string)
    ensures Given(DeviceReading(fields), key) == DeviceValues(fields, key)
  {
    var first := ("address", Chars(Chomp(fields.address)));
    var second := ("address", Chars(Chomp(fields.address6)));
    var mtu, up := ("mtu", Chars(Chomp(fields.mtu))), ("up", Chars("true"));
    assert |"address"| == 7 && |"mtu"| == 3 && |"up"| == 2;
    GivenOne(up, [], key);
    GivenOne(mtu, [up] + [], key);
    GivenOne(second, [mtu] + ([up] + []), key);
    GivenOne(first, if fields.address6 != "" then [second] + ([mtu] + ([up] + [])) else [mtu] + ([up] + []), key);
    assert DeviceReading(fields)
        == [first] + if fields.address6 != "" then [second] + ([mtu] + ([up] + [])) else [mtu] + ([up] + []);
  }

  /** For every key, the values the two configurations give it. */
  lemma GivenConfiguration(fields: Fields, allowedIps: seq<Route>, routes: seq<Route>, key: string)
    requires UnbrokenFields(fields) && UnbrokenList(allowedIps) && UnbrokenList(routes)
    ensures Given(ReadBack(Configuration(fields, allowedIps, routes)), key)
         == PeerValues(fields, key) + (if key == "allowed_ip" then Entries(allowedIps, 32, "/32") else [])
            + DeviceValues(fields, key) + if key == "route" then Entries(routes, 128, "/128") else []
    ensures Given(ReadBack(PushFields(PeerFields(fields)) + PushAll(AllowedIp, allowedIps)), key)
         == PeerValues(fields, key) + if key == "allowed_ip" then Entries(allowedIps, 32, "/32") else []
  {
    var peer, device := PeerReading(fields), DeviceReading(fields);
    var allowed := Keyed("allowed_ip", Entries(allowedIps, 32, "/32"));
    var system := Keyed("route", Entries(routes, 128, "/128"));
    ReadConfiguration(fields, allowedIps, routes);
    GivenPeer(fields, key);
    GivenDevice(fields, key);
    GivenAppend(peer, allowed, key);
    GivenAppend(peer + allowed, device, key);
    GivenAppend(peer + allowed + device, system, key);
    GivenKeyed("allowed_ip", Entries(allowedIps, 32, "/32"), key);
    GivenKeyed("route", Entries(routes, 128, "/128"), key);
  }

  predicate IsPeerKey(key: string) {
    || key == "private_key" || key == "public_key" || key == "endpoint" || key == "replace_peers"
    || key == "replace_allowed_ips" || key == "persistent_keepalive_interval"
  }

  predicate IsDeviceKey(key: string) {
    key == "address" || key == "mtu" || key == "up"
  }

  lemma KeysApart(key: string)
    ensures IsPeerKey(key) ==> !IsDeviceKey(key) && key != "allowed_ip" && key != "route"
    ensures IsDeviceKey(key) ==> !IsPeerKey(key) && key != "allowed_ip" && key != "route"
    ensures key == "allowed_ip" || key == "route" ==> !IsPeerKey(key) && !IsDeviceKey(key)
    ensures "allowed_ip" != "route"
  {
    assert "allowed_ip"[0] == 'a' && "public_key"[0] == 'p' && |"allowed_ip"| == 10 && |"public_key"| == 10;
    assert |"private_key"| == 11 && |"endpoint"| == 8 && |"replace_peers"| == 13;
    assert |"replace_allowed_ips"| == 19 && |"persistent_keepalive_interval"| == 29;
    assert |"address"| == 7 && |"mtu"| == 3 && |"up"| == 2 && |"route"| == 5;
  }

  lemma OtherKeysAreEmpty(fields: Fields, key: string)
    ensures !IsPeerKey(key) ==> PeerValues(fields, key) == []
    ensures !IsDeviceKey(key) ==> DeviceValues(fields, key) == []
  {
  }

  /** A key gives what its own part of the configuration has for it, and nothing else. */
  lemma OwnPartOnly(fields: Fields, allowedIps: seq<Route>, routes: seq<Route>, key: string)
    requires UnbrokenFields(fields) && UnbrokenList(allowedIps) && UnbrokenList(routes)
    ensures Given(ReadBack(Configuration(fields, allowedIps, routes)), key)
         == if IsPeerKey(key) then PeerValues(fields, key)
            else if IsDeviceKey(key) then DeviceValues(fields, key)
            else if key == "allowed_ip" then Entries(allowedIps, 32, "/32")
            else if key == "route" then Entries(routes, 128, "/128")
            else []
    ensures Given(ReadBack(PushFields(PeerFields(fields)) + PushAll(AllowedIp, allowedIps)), key)
         == if IsPeerKey(key) then PeerValues(fields, key)
            else if key == "allowed_ip" then Entries(allowedIps, 32, "/32")
            else []
  {
    GivenConfiguration(fields, allowedIps, routes, key);
    KeysApart(key);
    OtherKeysAreEmpty(fields, key);
    Alone(PeerValues(fields, key), if key == "allowed_ip" then Entries(allowedIps, 32, "/32") else [],
          DeviceValues(fields, key), if key == "route" then Entries(routes, 128, "/128") else []);
  }

  /** Empty parts do not show. */
  lemma Alone(a: seq<Datum>, b: seq<Datum>, c: seq<Datum>, d: seq<Datum>)
    ensures b == [] && c == [] && d == [] ==> a + b + c + d == a + b == a
    ensures a == [] && c == [] && d == [] ==> a + b + c + d == a + b == b
    ensures a == [] && b == [] && d == [] ==> a + b + c + d == c && a + b == []
    ensures a == [] && b == [] && c == [] ==> a + b + c + d == d && a + b == []
  {
  }

  lemma PeerValuesByKey(fields: Fields)
    ensures PeerValues(fields, "private_key") == [Chars(Chomp(fields.privateKey))]
    ensures PeerValues(fields, "public_key") == [Chars(Chomp(fields.publicKey))]
    ensures PeerValues(fields, "endpoint") == [Chars(Chomp(fields.peerAddress))]
    ensures PeerValues(fields, "replace_peers") == PeerValues(fields, "replace_allowed_ips") == [Chars("true")]
    ensures PeerValues(fields, "persistent_keepalive_interval") == [Chars("10")]
  {
    assert |"private_key"| == 11 && |"public_key"| == 10 && |"endpoint"| == 8 && |"replace_peers"| == 13;
    assert |"replace_allowed_ips"| == 19 && |"persistent_keepalive_interval"| == 29;
  }

  /** Each key of the peer gives its own field, once, in both configurations. */
  lemma PeerKeysReadBack(fields: Fields, allowedIps: seq<Route>, routes: seq<Route>)
    requires UnbrokenFields(fields) && UnbrokenList(allowedIps) && UnbrokenList(routes)
    ensures var pairs := ReadBack(Configuration(fields, allowedIps, routes));
            && Given(pairs, "private_key") == [Chars(Chomp(fields.privateKey))]
            && Given(pairs, "public_key") == [Chars(Chomp(fields.publicKey))]
            && Given(pairs, "endpoint") == [Chars(Chomp(fields.peerAddress))]
    ensures var pairs := ReadBack(PushFields(PeerFields(fields)) + PushAll(AllowedIp, allowedIps));
            && Given(pairs, "private_key") == [Chars(Chomp(fields.privateKey))]
            && Given(pairs, "public_key") == [Chars(Chomp(fields.publicKey))]
            && Given(pairs, "endpoint") == [Chars(Chomp(fields.peerAddress))]
  {
    PeerValuesByKey(fields);
    OwnPartOnly(fields, allowedIps, routes, "private_key");
    OwnPartOnly(fields, allowedIps, routes, "public_key");
    OwnPartOnly(fields, allowedIps, routes, "endpoint");
  }

  lemma FlagsReadBack(fields: Fields, allowedIps: seq<Route>, routes: seq<Route>)
    requires UnbrokenFields(fields) && UnbrokenList(allowedIps) && UnbrokenList(routes)
    ensures var pairs := ReadBack(Configuration(fields, allowedIps, routes));
            && Given(pairs, "replace_peers") == Given(pairs, "replace_allowed_ips") == [Chars("true")]
            && Given(pairs, "persistent_keepalive_interval") == [Chars("10")]
    ensures var pairs := ReadBack(PushFields(PeerFields(fields)) + PushAll(AllowedIp, allowedIps));
            && Given(pairs, "replace_peers") == Given(pairs, "replace_allowed_ips") == [Chars("true")]
            && Given(pairs, "persistent_keepalive_interval") == [Chars("10")]
  {
    PeerValuesByKey(fields);
    OwnPartOnly(fields, allowedIps, routes, "replace_peers");
    OwnPartOnly(fields, allowedIps, routes, "replace_allowed_ips");
    OwnPartOnly(fields, allowedIps, routes, "persistent_keepalive_interval");
  }

  lemma DeviceValuesByKey(fields: Fields)
    ensures DeviceValues(fields, "address")
         == [Chars(Chomp(fields.address))] + if fields.address6 != "" then [Chars(Chomp(fields.address6))] else []
    ensures DeviceValues(fields, "mtu") == [Chars(Chomp(fields.mtu))]
    ensures DeviceValues(fields, "up") == [Chars("true")]
  {
    assert |"address"| == 7 && |"mtu"| == 3 && |"up"| == 2;
  }

  /** Each key of the device gives its own field; the SOCKS5 configuration has none of them, and no route. */
  lemma DeviceKeysReadBack(fields: Fields, allowedIps: seq<Route>, routes: seq<Route>)
    requires UnbrokenFields(fields) && UnbrokenList(allowedIps) && UnbrokenList(routes)
    ensures var pairs := ReadBack(Configuration(fields, allowedIps, routes));
            && Given(pairs, "address") == [Chars(Chomp(fields.address))]
                                          + (if fields.address6 != "" then [Chars(Chomp(fields.address6))] else [])
            && Given(pairs, "mtu") == [Chars(Chomp(fields.mtu))]
            && Given(pairs, "up") == [Chars("true")]
    ensures var pairs := ReadBack(PushFields(PeerFields(fields)) + PushAll(AllowedIp, allowedIps));
            Given(pairs, "address") == Given(pairs, "mtu") == Given(pairs, "up") == Given(pairs, "route") == []
  {
    DeviceValuesByKey(fields);
    DeviceKey(fields, allowedIps, routes, "address");
    DeviceKey(fields, allowedIps, routes, "mtu");
    DeviceKey(fields, allowedIps, routes, "up");
    KeysApart("route");
    OwnPartOnly(fields, allowedIps, routes, "route");
  }

  lemma DeviceKey(fields: Fields, allowedIps: seq<Route>, routes: seq<Route>, key: string)
    requires UnbrokenFields(fields) && UnbrokenList(allowedIps) && UnbrokenList(routes) && IsDeviceKey(key)
    ensures Given(ReadBack(Configuration(fields, allowedIps, routes)), key) == DeviceValues(fields, key)
    ensures Given(ReadBack(PushFields(PeerFields(fields)) + PushAll(AllowedIp, allowedIps)), key) == []
  {
    KeysApart(key);
    OwnPartOnly(fields, allowedIps, routes, key);
  }

  /** The two lists arrive entry by entry and in order, each under its own key. */
  lemma ListsReadBack(fields: Fields, allowedIps: seq<Route>, routes: seq<Route>)
    requires UnbrokenFields(fields) && UnbrokenList(allowedIps) && UnbrokenList(routes)
    ensures Given(ReadBack(Configuration(fields, allowedIps, routes)), "allowed_ip") == Entries(allowedIps, 32, "/32")
    ensures Given(ReadBack(Configuration(fields, allowedIps, routes)), "route") == Entries(routes, 128, "/128")
    ensures Given(ReadBack(PushFields(PeerFields(fields)) + PushAll(AllowedIp, allowedIps)), "allowed_ip")
         == Entries(allowedIps, 32, "/32")
  {
    KeysApart("allowed_ip");
    KeysApart("route");
    OwnPartOnly(fields, allowedIps, routes, "allowed_ip");
    OwnPartOnly(fields, allowedIps, routes, "route");
  }
}
