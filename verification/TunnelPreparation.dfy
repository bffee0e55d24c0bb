/** What `connect_vpn_selected` of `src/client.rs` makes of the server's answer to the connect request. */
module TunnelPreparation {
  import opened Wrappers
  import opened Cidr
  import opened RoutePipeline
  import opened TunnelRoutes

  /** One server-side connection, as the configuration the server grants for it. */
  datatype WgConf = WgConf(id: nat)

  datatype WgInfo = WgInfo(ipMask: string, routes: ServerReply)

  /**
   The server grants nothing (or is not asked), or grants a connection; its answer may still be lost on the
   way or be malformed.
   */
  datatype Answer = Denied | Lost(connection: WgConf) | Granted(connection: WgConf, info: WgInfo)

  /** The client's own part: its route settings, its choice of node, and its keys. */
  datatype ClientSide = ClientSide(routes: RouteConfig, peer: Option<Ip>, hasPrivateKey: bool)

  /** `GrantedThenFailed` is a connection that the server holds and the caller does not know of. */
  datatype Preparation =
    | NotGranted
    | GrantedThenFailed(config: WgConf)
    | Prepared(config: WgConf, allowedIps: seq<Route>)

  const U32_MAX: nat := 0xffff_ffff

  function Digits(text: string): Option<nat> {
    if text == "" then None
    else
      var last := text[|text| - 1];
      if !('0' <= last <= '9') then None
      else
        var digit := last as int - '0' as int;
        if |text| == 1 then Some(digit)
        else
          match Digits(text[..|text| - 1])
          case None => None
          case Some(value) => Some(10 * value + digit)
  }

  /** `parse::<u32>()`: decimal digits after an optional plus sign. */
  function ParseU32(text: string): Option<nat> {
    var value := Digits(if text != "" && text[0] == '+' then text[1..] else text);
    if value.Some? && value.value <= U32_MAX then value else None
  }

  function Prepare(client: ClientSide, answer: Answer): Preparation {
    match answer
    case Denied => NotGranted
    case Lost(connection) => GrantedThenFailed(connection)
    case Granted(connection, info) =>
      if !client.hasPrivateKey || ParseU32(info.ipMask).None? then GrantedThenFailed(connection)
      else
        match FinalRoutes(client.routes, info.routes, client.peer)
        case Err(_) => GrantedThenFailed(connection)
        case Ok(allowedIps) => Prepared(connection, allowedIps)
  }

  method ConnectVpnSelected(client: ClientSide, answer: Answer) returns (preparation: Preparation)
    ensures preparation == Prepare(client, answer)
  {
    match answer {
      case Denied => return NotGranted;
      case Lost(connection) => return GrantedThenFailed(connection);
      case Granted(connection, info) =>
        if !client.hasPrivateKey {
          return GrantedThenFailed(connection);
        }
        var ipMask := ParseU32(info.ipMask);
        if ipMask.None? {
          return GrantedThenFailed(connection);
        }
        var allowedIps := AllowedIps(client.routes, info.routes, client.peer);
        if allowedIps.Err? {
          return GrantedThenFailed(connection);
        }
        return Prepared(connection, allowedIps.value);
    }
  }

  /** The reply or the client's settings make the call fail after the grant. */
  predicate GrantIsWasted(client: ClientSide, answer: Answer) {
    || answer.Lost?
    || (answer.Granted? &&
        (|| !client.hasPrivateKey
         || ParseU32(answer.info.ipMask).None?
         || (&& client.routes.mode.Full? && answer.info.routes.fullV4 == []
             && (answer.info.routes.hasIpv6Address ==> answer.info.routes.fullV6 == []))))
  }

  /**
   A grant is wasted exactly when the answer is lost, a private key is missing, the mask is not a number, or
   full mode has no route of a usable family; filters that leave no route waste nothing.
   */
  lemma FailsAfterGrantIff(client: ClientSide, answer: Answer)
    ensures Prepare(client, answer).GrantedThenFailed? <==> GrantIsWasted(client, answer)
    ensures Prepare(client, answer).NotGranted? <==> answer.Denied?
    ensures !answer.Denied? ==> Prepare(client, answer).config == answer.connection
  {
    if answer.Granted? {
      RefusedOnlyWithoutRoutes(client.routes, answer.info.routes, client.peer);
    }
  }

  lemma {:induction false} DigitsMeaning(text: string)
    ensures Digits(text).Some? <==> text != "" && forall i :: 0 <= i < |text| ==> '0' <= text[i] <= '9'
  {
    if |text| > 1 {
      DigitsMeaning(text[..|text| - 1]);
    }
  }

  // ----- What a prepared connection routes

  /** The list of a prepared connection, for the client's settings, the server's answer and the client's peer. */
  lemma PreparedList(client: ClientSide, answer: Answer, a: Ip)
    requires Prepare(client, answer).Prepared?
    ensures answer.Granted? && Prepare(client, answer).config == answer.connection
    ensures var list := Prepare(client, answer).allowedIps;
            && (Covered(list, a) <==> Routable(client.routes, answer.info.routes, client.peer, a))
            && Unparsed(list)
            == if client.routes.allowed.None? then Unparsed(Listed(client.routes.mode, answer.info.routes)) else []
  {
    PipelineMeaning(client.routes, answer.info.routes, client.peer, a);
    FinalUnparsed(client.routes, answer.info.routes, client.peer);
  }

  /**
   From the server's answer to the tunnel: the configuration written from the list that a connect prepares
   gives a use exactly the routable addresses, those that unparsed text of the server reaches without an
   allowlist, and those that the other fields name.
   */
  lemma PreparedConfiguration(read: string -> Route, fields: Fields, autoSetup: bool, use: Use,
                              client: ClientSide, answer: Answer, a: Ip)
    requires Prepare(client, answer).Prepared?
    ensures var list := Prepare(client, answer).allowedIps;
            Names(read, Configuration(fields, list, SystemRoutes(list, autoSetup)), use, a) <==>
            || ((use.AllowedIp? || autoSetup) && Routable(client.routes, answer.info.routes, client.peer, a))
            || (client.routes.allowed.None? &&
                ServerReaches(read, Listed(client.routes.mode, answer.info.routes), autoSetup, use, a))
            || FieldsName(read, fields, use, a)
  {
    TunnelMeaning(read, fields, autoSetup, use, client.routes, answer.info.routes, client.peer, a);
  }

  /** So a prepared connection gives the tunnel its own peer only through text that does not parse. */
  lemma PreparedPeer(read: string -> Route, fields: Fields, autoSetup: bool, use: Use,
                     client: ClientSide, answer: Answer, peer: Ip)
    requires Prepare(client, answer).Prepared? && client.peer == Some(peer)
    ensures var list := Prepare(client, answer).allowedIps;
            && !Covered(list, peer)
            && (Names(read, Configuration(fields, list, SystemRoutes(list, autoSetup)), use, peer) <==>
                || (client.routes.allowed.None? &&
                    ServerReaches(read, Listed(client.routes.mode, answer.info.routes), autoSetup, use, peer))
                || FieldsName(read, fields, use, peer))
  {
    PreparedList(client, answer, peer);
    PreparedConfiguration(read, fields, autoSetup, use, client, answer, peer);
  }

  // ----- Masks

  /** A number as it is printed. */
  function Decimal(n: nat): (text: string)
    ensures text != ""
  {
    if n < 10 then [('0' as int + n) as char] else Decimal(n / 10) + Decimal(n % 10)
  }

  lemma {:induction false} DigitsOfDecimal(n: nat)
    ensures Digits(Decimal(n)) == Some(n)
    ensures Decimal(n)[0] != '+'
  {
    if n < 10 {
      var c := ('0' as int + n) as char;
      assert Decimal(n) == [c] && c as int - '0' as int == n;
    } else {
      DigitsOfDecimal(n / 10);
      var text, last := Decimal(n), ('0' as int + n % 10) as char;
      assert Decimal(n % 10) == [last] && last as int - '0' as int == n % 10;
      assert text[|text| - 1] == last && text[..|text| - 1] == Decimal(n / 10);
    }
  }

  /** Every number of 32 bits is read back, with or without a plus sign, and no larger one is. */
  lemma MaskRoundTrip(n: nat)
    ensures ParseU32(Decimal(n)) == ParseU32("+" + Decimal(n)) == if n < 0x1_0000_0000 then Some(n) else None
  {
    DigitsOfDecimal(n);
    assert ("+" + Decimal(n))[1..] == Decimal(n);
  }

  /** Besides decimal digits, with or without a plus sign, nothing is a mask. */
  lemma MaskIsDecimal(text: string)
    requires ParseU32(text).Some?
    ensures var digits := if text != "" && text[0] == '+' then text[1..] else text;
            digits != "" && forall i :: 0 <= i < |digits| ==> '0' <= digits[i] <= '9'
  {
    DigitsMeaning(if text != "" && text[0] == '+' then text[1..] else text);
  }
}
