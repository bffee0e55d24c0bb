/**
 Reading the fingerprint's stream: a decoder for the layout that `apps/helper/src/lib.rs` hashes, field by
 field and with big-endian lengths. It gets every specification back, so the layout is as it reads.
 */
module FingerprintReading {
  import opened Sequences
  import opened Bytes
  import opened Wrappers
  import opened HelperIpc
  import opened Fingerprint

  datatype Read<+T> = Fail | Done(value: T, rest: seq<Byte>)

  function ReadNumber(stream: seq<Byte>, width: nat): Read<nat> {
    if |stream| < width then Fail else Done(FromBigEndian(stream[..width]), stream[width..])
  }

  function ReadText(stream: seq<Byte>): Read<Text> {
    match ReadNumber(stream, 8)
    case Fail => Fail
    case Done(length, rest) =>
      if length < U64_RANGE && length <= |rest| then Done(rest[..length], rest[length..]) else Fail
  }

  function ReadOptional(stream: seq<Byte>): Read<Option<Text>> {
    if stream == [] then Fail
    else if stream[0] == 0 then Done(None, stream[1..])
    else
      match ReadText(stream[1..])
      case Fail => Fail
      case Done(text, rest) => Done(Some(text), rest)
  }

  function ReadMode(stream: seq<Byte>): Read<TunnelMode> {
    if stream == [] then Fail
    else if stream[0] == 0 then Done(SystemSplit, stream[1..])
    else
      match ReadText(stream[1..])
      case Fail => Fail
      case Done(listenAddr, s1) =>
        match ReadOptional(s1)
        case Fail => Fail
        case Done(username, s2) =>
          match ReadOptional(s2)
          case Fail => Fail
          case Done(password, s3) => Done(Socks5(listenAddr, username, password), s3)
  }

  function ReadTexts(stream: seq<Byte>, count: nat): Read<seq<Text>> {
    if count == 0 then Done([], stream)
    else
      match ReadText(stream)
      case Fail => Fail
      case Done(text, rest) =>
        match ReadTexts(rest, count - 1)
        case Fail => Fail
        case Done(texts, more) => Done([text] + texts, more)
  }

  function ReadList(stream: seq<Byte>): Read<seq<Text>> {
    match ReadNumber(stream, 8)
    case Fail => Fail
    case Done(count, rest) => ReadTexts(rest, count)
  }

  datatype Interface = Interface(
    nodeName: Text, interfaceName: Text, mode: TunnelMode, address: Text, address6: Text, peerAddress: Text, mtu: nat)

  /** The first seven fields. */
  function ReadInterface(stream: seq<Byte>): Read<Interface> {
    match ReadText(stream)
    case Fail => Fail
    case Done(nodeName, s1) =>
      match ReadText(s1)
      case Fail => Fail
      case Done(interfaceName, s2) =>
        match ReadMode(s2)
        case Fail => Fail
        case Done(mode, s3) =>
          match ReadText(s3)
          case Fail => Fail
          case Done(address, s4) =>
            match ReadText(s4)
            case Fail => Fail
            case Done(address6, s5) =>
              match ReadText(s5)
              case Fail => Fail
              case Done(peerAddress, s6) =>
                match ReadNumber(s6, 4)
                case Fail => Fail
                case Done(mtu, s7) =>
                  Done(Interface(nodeName, interfaceName, mode, address, address6, peerAddress, mtu), s7)
  }

  datatype Peer = Peer(
    publicKey: Text, privateKey: Text, peerKey: Text, allowedIps: seq<Text>, routes: seq<Text>, dns: Text, udp: bool)

  /** The other seven. */
  function ReadPeer(stream: seq<Byte>): Read<Peer> {
    match ReadText(stream)
    case Fail => Fail
    case Done(publicKey, s1) =>
      match ReadText(s1)
      case Fail => Fail
      case Done(privateKey, s2) =>
        match ReadText(s2)
        case Fail => Fail
        case Done(peerKey, s3) =>
          match ReadList(s3)
          case Fail => Fail
          case Done(allowedIps, s4) =>
            match ReadList(s4)
            case Fail => Fail
            case Done(routes, s5) =>
              match ReadText(s5)
              case Fail => Fail
              case Done(dns, s6) =>
                if s6 == [] then Fail
                else Done(Peer(publicKey, privateKey, peerKey, allowedIps, routes, dns, s6[0] == 0), s6[1..])
  }

  // ----- What was written is read

  lemma NumberIsRead(n: nat, width: nat, tail: seq<Byte>)
    requires n < Range(width)
    ensures ReadNumber(BigEndian(n, width) + tail, width) == Done(n, tail)
  {
    BigEndianRoundTrip(n, width);
    var stream := BigEndian(n, width) + tail;
    assert stream[..width] == BigEndian(n, width) && stream[width..] == tail;
  }

  lemma TextIsRead(text: Text, tail: seq<Byte>)
    ensures ReadText(EncodeText(text) + tail) == Done(text, tail)
  {
    RangeOfEight();
    NumberIsRead(|text|, 8, text + tail);
    Assoc(BigEndian(|text|, 8), text, tail);
    assert (text + tail)[..|text|] == text && (text + tail)[|text|..] == tail;
  }

  lemma TagIsRead(tag: Byte, body: seq<Byte>, tail: seq<Byte>)
    ensures var stream := ([tag] + body) + tail;
            stream != [] && stream[0] == tag && stream[1..] == body + tail
  {
    Assoc([tag], body, tail);
  }

  lemma OptionalIsRead(value: Option<Text>, tail: seq<Byte>)
    ensures ReadOptional(EncodeOptional(value) + tail) == Done(value, tail)
  {
    match value
    case None =>
      TagIsRead(0, [], tail);
      assert [0] + [] == EncodeOptional(value) && [] + tail == tail;
    case Some(text) =>
      SomeIsRead(text, tail);
  }

  lemma SomeIsRead(text: Text, tail: seq<Byte>)
    ensures ReadOptional(([1] + EncodeText(text)) + tail) == Done(Some(text), tail)
  {
    TagIsRead(1, EncodeText(text), tail);
    TextIsRead(text, tail);
  }

  lemma ModeIsRead(mode: TunnelMode, tail: seq<Byte>)
    ensures ReadMode(EncodeMode(mode) + tail) == Done(mode, tail)
  {
    match mode
    case SystemSplit =>
      TagIsRead(0, [], tail);
      assert [0] + [] == EncodeMode(mode) && [] + tail == tail;
    case Socks5(listenAddr, username, password) =>
      Socks5IsRead(listenAddr, username, password, tail);
  }

  lemma Socks5IsRead(listenAddr: Text, username: Option<Text>, password: Option<Text>, tail: seq<Byte>)
    ensures ReadMode(EncodeMode(Socks5(listenAddr, username, password)) + tail)
         == Done(Socks5(listenAddr, username, password), tail)
  {
    var a, u, p := EncodeText(listenAddr), EncodeOptional(username), EncodeOptional(password);
    TagIsRead(1, a + (u + p), tail);
    Assoc(a, u + p, tail);
    Assoc(u, p, tail);
    TextIsRead(listenAddr, u + (p + tail));
    OptionalIsRead(username, p + tail);
    OptionalIsRead(password, tail);
  }

  lemma {:induction false} TextsAreRead(texts: seq<Text>, tail: seq<Byte>)
    ensures ReadTexts(ConcatTexts(texts) + tail, |texts|) == Done(texts, tail)
  {
    if texts == [] {
      assert ConcatTexts(texts) + tail == tail;
    } else {
      TextIsRead(texts[0], ConcatTexts(texts[1..]) + tail);
      TextsAreRead(texts[1..], tail);
      Assoc(EncodeText(texts[0]), ConcatTexts(texts[1..]), tail);
      assert [texts[0]] + texts[1..] == texts;
    }
  }

  lemma ListIsRead(texts: TextList, tail: seq<Byte>)
    ensures ReadList(EncodeTexts(texts) + tail) == Done(texts, tail)
  {
    RangeOfEight();
    NumberIsRead(|texts|, 8, ConcatTexts(texts) + tail);
    TextsAreRead(texts, tail);
    Assoc(BigEndian(|texts|, 8), ConcatTexts(texts), tail);
  }

  lemma Assoc7(a: seq<Byte>, b: seq<Byte>, c: seq<Byte>, d: seq<Byte>, e: seq<Byte>, f: seq<Byte>, g: seq<Byte>,
               tail: seq<Byte>)
    ensures (a + b + c + d + e + f + g) + tail == a + (b + (c + (d + (e + (f + (g + tail))))))
  {
    Assoc(a + b + c + d + e + f, g, tail);
    Assoc(a + b + c + d + e, f, g + tail);
    Assoc(a + b + c + d, e, f + (g + tail));
    Assoc(a + b + c, d, e + (f + (g + tail)));
    Assoc(a + b, c, d + (e + (f + (g + tail))));
    Assoc(a, b, c + (d + (e + (f + (g + tail)))));
  }

  lemma MtuIsRead(mtu: U32, tail: seq<Byte>)
    ensures ReadNumber(BigEndian(mtu, 4) + tail, 4) == Done(mtu, tail)
  {
    RangeOfEight();
    NumberIsRead(mtu, 4, tail);
  }

  /** The node, the interface, the mode, the addresses and the MTU come first, in this order. */
  lemma InterfaceIsRead(spec: TunnelSpec, tail: seq<Byte>)
    ensures ReadInterface(EncodeInterface(spec) + tail)
         == Done(Interface(spec.nodeName, spec.interfaceName, spec.mode, spec.address, spec.address6,
                           spec.peerAddress, spec.mtu), tail)
  {
    var b, c, d := EncodeText(spec.interfaceName), EncodeMode(spec.mode), EncodeText(spec.address);
    var e, f, g := EncodeText(spec.address6), EncodeText(spec.peerAddress), BigEndian(spec.mtu, 4);
    Assoc7(EncodeText(spec.nodeName), b, c, d, e, f, g, tail);
    TextIsRead(spec.nodeName, b + (c + (d + (e + (f + (g + tail))))));
    TextIsRead(spec.interfaceName, c + (d + (e + (f + (g + tail)))));
    ModeIsRead(spec.mode, d + (e + (f + (g + tail))));
    TextIsRead(spec.address, e + (f + (g + tail)));
    TextIsRead(spec.address6, f + (g + tail));
    TextIsRead(spec.peerAddress, g + tail);
    MtuIsRead(spec.mtu, tail);
  }

  /** The fields behind the interface's. */
  function EncodePeer(spec: TunnelSpec): seq<Byte> {
    EncodeText(spec.publicKey)
    + EncodeText(spec.privateKey)
    + EncodeText(spec.peerKey)
    + EncodeTexts(spec.allowedIps)
    + EncodeTexts(spec.routes)
    + EncodeText(spec.dns)
    + [if spec.protocol == Udp then 0 else 1]
  }

  lemma EncodeInTwo(spec: TunnelSpec)
    ensures Encode(spec) == EncodeInterface(spec) + EncodePeer(spec)
  {
    var a, b, c, d := EncodeInterface(spec), EncodeText(spec.publicKey), EncodeText(spec.privateKey),
      EncodeText(spec.peerKey);
    var e, f, g := EncodeTexts(spec.allowedIps), EncodeTexts(spec.routes), EncodeText(spec.dns);
    var h := [if spec.protocol == Udp then 0 else 1];
    Assoc7(a, b, c, d, e, f, g, h);
    Assoc7(b, c, d, e, f, g, h, []);
    assert (b + c + d + e + f + g + h) + [] == b + c + d + e + f + g + h;
    assert h + [] == h;
  }

  /** The keys, the lists, the DNS server and the protocol come behind them, in this order. */
  lemma PeerIsRead(spec: TunnelSpec, tail: seq<Byte>)
    ensures ReadPeer(EncodePeer(spec) + tail)
         == Done(Peer(spec.publicKey, spec.privateKey, spec.peerKey, spec.allowedIps, spec.routes, spec.dns,
                      spec.protocol == Udp), tail)
  {
    var b, c, d := EncodeText(spec.privateKey), EncodeText(spec.peerKey), EncodeTexts(spec.allowedIps);
    var e, f := EncodeTexts(spec.routes), EncodeText(spec.dns);
    var g := [if spec.protocol == Udp then 0 else 1];
    Assoc7(EncodeText(spec.publicKey), b, c, d, e, f, g, tail);
    TextIsRead(spec.publicKey, b + (c + (d + (e + (f + (g + tail))))));
    TextIsRead(spec.privateKey, c + (d + (e + (f + (g + tail)))));
    TextIsRead(spec.peerKey, d + (e + (f + (g + tail))));
    ListIsRead(spec.allowedIps, e + (f + (g + tail)));
    ListIsRead(spec.routes, f + (g + tail));
    TextIsRead(spec.dns, g + tail);
    assert (g + tail)[1..] == tail;
  }

  /** The whole stream is read back, whatever follows it. */
  lemma StreamIsRead(spec: TunnelSpec, tail: seq<Byte>)
    ensures var first := ReadInterface(Encode(spec) + tail);
            && first.Done?
            && first.value == Interface(spec.nodeName, spec.interfaceName, spec.mode, spec.address, spec.address6,
                                        spec.peerAddress, spec.mtu)
            && ReadPeer(first.rest)
            == Done(Peer(spec.publicKey, spec.privateKey, spec.peerKey, spec.allowedIps, spec.routes, spec.dns,
                         spec.protocol == Udp), tail)
  {
    EncodeInTwo(spec);
    Assoc(EncodeInterface(spec), EncodePeer(spec), tail);
    InterfaceIsRead(spec, EncodePeer(spec) + tail);
    PeerIsRead(spec, tail);
  }
}
