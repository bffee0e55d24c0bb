/**
 The fingerprint of `apps/helper/src/lib.rs`: the bytes a tunnel specification feeds to the hash.
 The hash itself is a parameter.
 */
module Fingerprint {
  import opened Wrappers
  import opened Bytes
  import opened HelperIpc

  type Digest = seq<Byte>

  function EncodeText(value: Text): seq<Byte> {
    BigEndian(|value|, 8) + value
  }

  function EncodeOptional(value: Option<Text>): seq<Byte> {
    match value
    case Some(text) => [1] + EncodeText(text)
    case None => [0]
  }

  function ConcatTexts(values: seq<Text>): seq<Byte> {
    if values == [] then [] else EncodeText(values[0]) + ConcatTexts(values[1..])
  }

  function EncodeTexts(values: TextList): seq<Byte> {
    BigEndian(|values|, 8) + ConcatTexts(values)
  }

  function EncodeMode(mode: TunnelMode): seq<Byte> {
    match mode
    case SystemSplit => [0]
    case Socks5(listenAddr, username, password) =>
      [1] + (EncodeText(listenAddr) + (EncodeOptional(username) + EncodeOptional(password)))
  }

  /** The fields up to the MTU. */
  function EncodeInterface(spec: TunnelSpec): seq<Byte> {
    EncodeText(spec.nodeName)
    + EncodeText(spec.interfaceName)
    + EncodeMode(spec.mode)
    + EncodeText(spec.address)
    + EncodeText(spec.address6)
    + EncodeText(spec.peerAddress)
    + BigEndian(spec.mtu, 4)
  }

  /** The whole stream. */
  function Encode(spec: TunnelSpec): seq<Byte> {
    EncodeInterface(spec)
    + EncodeText(spec.publicKey)
    + EncodeText(spec.privateKey)
    + EncodeText(spec.peerKey)
    + EncodeTexts(spec.allowedIps)
    + EncodeTexts(spec.routes)
    + EncodeText(spec.dns)
    + [if spec.protocol == Udp then 0 else 1]
  }

  lemma StartOfList(before: seq<Byte>, values: TextList)
    ensures (before + BigEndian(|values|, 8)) + ConcatTexts(values[0..]) == before + EncodeTexts(values)
  {
    assert values[0..] == values;
  }

  lemma ConcatStep(before: seq<Byte>, values: seq<Text>, i: nat)
    requires i < |values|
    ensures before + ConcatTexts(values[i..]) == (before + EncodeText(values[i])) + ConcatTexts(values[i + 1..])
  {
    assert values[i..][1..] == values[i + 1..];
  }

  /** The bytes a hasher has been given so far. */
  class Hasher {
    var stream: seq<Byte>

    constructor ()
      ensures stream == []
    {
      stream := [];
    }

    method Update(bytes: seq<Byte>)
      modifies this
      ensures stream == old(stream) + bytes
    {
      stream := stream + bytes;
    }

    method HashString(value: Text)
      modifies this
      ensures stream == old(stream) + EncodeText(value)
    {
      Update(BigEndian(|value|, 8));
      Update(value);
    }

    method HashStrings(values: TextList)
      modifies this
      ensures stream == old(stream) + EncodeTexts(values)
    {
      StartOfList(stream, values);
      Update(BigEndian(|values|, 8));
      for i := 0 to |values|
        invariant stream + ConcatTexts(values[i..]) == old(stream) + EncodeTexts(values)
      {
        ConcatStep(stream, values, i);
        HashString(values[i]);
      }
    }

    method HashOptionalString(value: Option<Text>)
      modifies this
      ensures stream == old(stream) + EncodeOptional(value)
    {
      match value
      case Some(text) =>
        Update([1]);
        HashString(text);
      case None =>
        Update([0]);
    }

    method HashMode(mode: TunnelMode)
      modifies this
      ensures stream == old(stream) + EncodeMode(mode)
    {
      match mode
      case SystemSplit =>
        Update([0]);
      case Socks5(listenAddr, username, password) =>
        Update([1]);
        HashString(listenAddr);
        HashOptionalString(username);
        HashOptionalString(password);
    }
  }

  method TunnelFingerprint(spec: TunnelSpec, sha256: seq<Byte> -> Digest) returns (digest: Digest)
    ensures digest == sha256(Encode(spec))
  {
    var hasher := new Hasher();
    hasher.HashString(spec.nodeName);
    hasher.HashString(spec.interfaceName);
    hasher.HashMode(spec.mode);
    hasher.HashString(spec.address);
    hasher.HashString(spec.address6);
    hasher.HashString(spec.peerAddress);
    hasher.Update(BigEndian(spec.mtu, 4));
    hasher.HashString(spec.publicKey);
    hasher.HashString(spec.privateKey);
    hasher.HashString(spec.peerKey);
    hasher.HashStrings(spec.allowedIps);
    hasher.HashStrings(spec.routes);
    hasher.HashString(spec.dns);
    hasher.Update([if spec.protocol == Udp then 0 else 1]);
    assert [] + EncodeText(spec.nodeName) == EncodeText(spec.nodeName);
    return sha256(hasher.stream);
  }

  // ----- The stream determines the specification

  /** Neither `p` nor `q` is a proper prefix of the other: in a longer stream they are told apart. */
  ghost predicate Separable(p: seq<Byte>, q: seq<Byte>) {
    forall x, y :: p + x == q + y ==> p == q
  }

  lemma SameLengthSeparable(p: seq<Byte>, q: seq<Byte>)
    requires |p| == |q|
    ensures Separable(p, q)
  {
    forall x, y | p + x == q + y ensures p == q {
      assert p == (p + x)[..|p|] && q == (q + y)[..|q|];
    }
  }

  lemma TagsSeparable(p: seq<Byte>, q: seq<Byte>)
    requires p != [] && q != [] && p[0] != q[0]
    ensures Separable(p, q)
  {
    forall x, y ensures p + x != q + y {
      assert (p + x)[0] == p[0] && (q + y)[0] == q[0];
    }
  }

  /** Separable heads and separable tails make separable wholes. */
  lemma AppendSeparable(p: seq<Byte>, q: seq<Byte>, r: seq<Byte>, s: seq<Byte>)
    requires Separable(p, q)
    requires p == q ==> Separable(r, s)
    ensures Separable(p + r, q + s)
    ensures p + r == q + s ==> p == q && r == s
  {
    forall x, y | (p + r) + x == (q + s) + y ensures p == q && r == s {
      assert (p + r) + x == p + (r + x) && (q + s) + y == q + (s + y);
      assert r + x == (p + (r + x))[|p|..] && s + y == (q + (s + y))[|q|..];
    }
    if p + r == q + s {
      assert (p + r) + [] == (q + s) + [];
    }
  }

  lemma TextSeparable(a: Text, b: Text)
    ensures Separable(EncodeText(a), EncodeText(b))
    ensures EncodeText(a) == EncodeText(b) ==> a == b
  {
    var p, q := BigEndian(|a|, 8), BigEndian(|b|, 8);
    SameLengthSeparable(p, q);
    if p == q {
      RangeOfEight();
      BigEndianRoundTrip(|a|, 8);
      BigEndianRoundTrip(|b|, 8);
      SameLengthSeparable(a, b);
    }
    AppendSeparable(p, q, a, b);
  }

  lemma OptionalSeparable(a: Option<Text>, b: Option<Text>)
    ensures Separable(EncodeOptional(a), EncodeOptional(b))
    ensures EncodeOptional(a) == EncodeOptional(b) ==> a == b
  {
    SameLengthSeparable([1], [1]);
    SameLengthSeparable([0], [0]);
    match (a, b)
    case (Some(x), Some(y)) =>
      TextSeparable(x, y);
      AppendSeparable([1], [1], EncodeText(x), EncodeText(y));
    case (None, None) =>
    case _ =>
      TagsSeparable(EncodeOptional(a), EncodeOptional(b));
  }

  lemma {:induction false} ConcatSeparable(a: seq<Text>, b: seq<Text>)
    requires |a| == |b|
    ensures Separable(ConcatTexts(a), ConcatTexts(b))
    ensures ConcatTexts(a) == ConcatTexts(b) ==> a == b
  {
    if a == [] {
      SameLengthSeparable([], []);
    } else {
      TextSeparable(a[0], b[0]);
      ConcatSeparable(a[1..], b[1..]);
      AppendSeparable(EncodeText(a[0]), EncodeText(b[0]), ConcatTexts(a[1..]), ConcatTexts(b[1..]));
      assert a == [a[0]] + a[1..] && b == [b[0]] + b[1..];
    }
  }

  lemma TextsSeparable(a: TextList, b: TextList)
    ensures Separable(EncodeTexts(a), EncodeTexts(b))
    ensures EncodeTexts(a) == EncodeTexts(b) ==> a == b
  {
    var p, q := BigEndian(|a|, 8), BigEndian(|b|, 8);
    SameLengthSeparable(p, q);
    if p == q {
      RangeOfEight();
      BigEndianRoundTrip(|a|, 8);
      BigEndianRoundTrip(|b|, 8);
      ConcatSeparable(a, b);
    }
    AppendSeparable(p, q, ConcatTexts(a), ConcatTexts(b));
  }

  lemma ModeSeparable(a: TunnelMode, b: TunnelMode)
    ensures Separable(EncodeMode(a), EncodeMode(b))
    ensures EncodeMode(a) == EncodeMode(b) ==> a == b
  {
    match (a, b)
    case (Socks5(l, u, p), Socks5(l', u', p')) =>
      TextSeparable(l, l');
      OptionalSeparable(u, u');
      OptionalSeparable(p, p');
      AppendSeparable(EncodeOptional(u), EncodeOptional(u'), EncodeOptional(p), EncodeOptional(p'));
      AppendSeparable(EncodeText(l), EncodeText(l'),
                      EncodeOptional(u) + EncodeOptional(p), EncodeOptional(u') + EncodeOptional(p'));
      SameLengthSeparable([1], [1]);
      AppendSeparable([1], [1], EncodeText(l) + (EncodeOptional(u) + EncodeOptional(p)),
                      EncodeText(l') + (EncodeOptional(u') + EncodeOptional(p')));
    case (SystemSplit, SystemSplit) =>
      SameLengthSeparable([0], [0]);
    case _ =>
      TagsSeparable(EncodeMode(a), EncodeMode(b));
  }

  lemma InterfaceSeparable(a: TunnelSpec, b: TunnelSpec)
    ensures Separable(EncodeInterface(a), EncodeInterface(b))
    ensures EncodeInterface(a) == EncodeInterface(b) ==>
            && a.nodeName == b.nodeName && a.interfaceName == b.interfaceName && a.mode == b.mode
            && a.address == b.address && a.address6 == b.address6
            && a.peerAddress == b.peerAddress && a.mtu == b.mtu
  {
    var p, q := EncodeText(a.nodeName), EncodeText(b.nodeName);
    TextSeparable(a.nodeName, b.nodeName);
    p, q := AppendText(p, q, a.interfaceName, b.interfaceName);
    ModeSeparable(a.mode, b.mode);
    AppendSeparable(p, q, EncodeMode(a.mode), EncodeMode(b.mode));
    p, q := p + EncodeMode(a.mode), q + EncodeMode(b.mode);
    p, q := AppendText(p, q, a.address, b.address);
    p, q := AppendText(p, q, a.address6, b.address6);
    p, q := AppendText(p, q, a.peerAddress, b.peerAddress);
    SameLengthSeparable(BigEndian(a.mtu, 4), BigEndian(b.mtu, 4));
    AppendSeparable(p, q, BigEndian(a.mtu, 4), BigEndian(b.mtu, 4));
    if BigEndian(a.mtu, 4) == BigEndian(b.mtu, 4) {
      RangeOfEight();
      BigEndianRoundTrip(a.mtu, 4);
      BigEndianRoundTrip(b.mtu, 4);
    }
  }

  lemma AppendText(p: seq<Byte>, q: seq<Byte>, a: Text, b: Text) returns (p': seq<Byte>, q': seq<Byte>)
    requires Separable(p, q)
    ensures p' == p + EncodeText(a) && q' == q + EncodeText(b)
    ensures Separable(p', q')
    ensures p' == q' ==> p == q && a == b
  {
    TextSeparable(a, b);
    AppendSeparable(p, q, EncodeText(a), EncodeText(b));
    p', q' := p + EncodeText(a), q + EncodeText(b);
  }

  lemma AppendTexts(p: seq<Byte>, q: seq<Byte>, a: TextList, b: TextList) returns (p': seq<Byte>, q': seq<Byte>)
    requires Separable(p, q)
    ensures p' == p + EncodeTexts(a) && q' == q + EncodeTexts(b)
    ensures Separable(p', q')
    ensures p' == q' ==> p == q && a == b
  {
    TextsSeparable(a, b);
    AppendSeparable(p, q, EncodeTexts(a), EncodeTexts(b));
    p', q' := p + EncodeTexts(a), q + EncodeTexts(b);
  }

  lemma EncodingSeparable(a: TunnelSpec, b: TunnelSpec)
    ensures Separable(Encode(a), Encode(b))
    ensures Encode(a) == Encode(b) ==> a == b
  {
    var p, q := EncodeInterface(a), EncodeInterface(b);
    InterfaceSeparable(a, b);
    p, q := AppendText(p, q, a.publicKey, b.publicKey);
    p, q := AppendText(p, q, a.privateKey, b.privateKey);
    p, q := AppendText(p, q, a.peerKey, b.peerKey);
    p, q := AppendTexts(p, q, a.allowedIps, b.allowedIps);
    p, q := AppendTexts(p, q, a.routes, b.routes);
    p, q := AppendText(p, q, a.dns, b.dns);
    var u: seq<Byte>, v: seq<Byte> := [if a.protocol == Udp then 0 else 1], [if b.protocol == Udp then 0 else 1];
    SameLengthSeparable(u, v);
    AppendSeparable(p, q, u, v);
    assert u == v ==> u[0] == v[0];
  }

  /** The byte stream is prefix-decodable: followed by anything, it still determines the specification. */
  lemma EncodingIsPrefixFree(a: TunnelSpec, b: TunnelSpec, x: seq<Byte>, y: seq<Byte>)
    ensures Encode(a) + x == Encode(b) + y <==> a == b && x == y
  {
    EncodingSeparable(a, b);
    if Encode(a) + x == Encode(b) + y {
      assert x == (Encode(a) + x)[|Encode(a)|..] && y == (Encode(b) + y)[|Encode(b)|..];
    }
  }

  /** With a hash that does not collide on these two streams, equal fingerprints mean equal specifications. */
  lemma SameFingerprintSameTunnel(a: TunnelSpec, b: TunnelSpec, sha256: seq<Byte> -> Digest)
    requires sha256(Encode(a)) == sha256(Encode(b)) ==> Encode(a) == Encode(b)
    ensures sha256(Encode(a)) == sha256(Encode(b)) <==> a == b
  {
    EncodingSeparable(a, b);
  }
}
