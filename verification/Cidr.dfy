/**
 CIDR blocks: parsing, intersection and subtraction, as in `src/utils.rs`.

 A route is the text the program keeps in its lists. Text of the form `ip/number` is a `Cidr`, with
 the address and the number read off; `spelling` tells apart texts that read the same (`10.0.0.0/08`
 and `10.0.0.0/8`), and is empty for text the program printed itself. An address without a slash is
 `Bare`: parsing rejects it, the tunnel does not. Everything else is `Opaque`.
 */
module Cidr {
  import opened Wrappers
  import opened Bits

  datatype Family = V4 | V6

  function HostBits(family: Family): nat {
    match family
    case V4 => 32
    case V6 => 128
  }

  datatype Word = Word(family: Family, bits: nat)

  type Ip = a: Word | a.bits < Pow2(HostBits(a.family)) witness Word(V4, 0)

  datatype Route =
    | Cidr(ip: Ip, prefix: nat, spelling: string)
    | Bare(ip: Ip)
    | Opaque(text: string)

  datatype Block = Block(base: Ip, prefix: nat)

  /** `format!("{base}/{prefix}")` */
  function Printed(base: Ip, prefix: nat): Route {
    Cidr(base, prefix, "")
  }

  function Mask(width: nat, prefix: nat): nat
    requires prefix <= width
  {
    if prefix == 0 then 0 else ShiftLeft(Pow2(width) - 1, width - prefix, width)
  }

  function Canonicalize(ip: Ip, prefix: nat): (c: Ip)
    requires prefix <= HostBits(ip.family)
    ensures c.family == ip.family
    ensures c.bits == Scale(High(ip.bits, HostBits(ip.family) - prefix), HostBits(ip.family) - prefix)
    ensures High(c.bits, HostBits(ip.family) - prefix) == High(ip.bits, HostBits(ip.family) - prefix)
  {
    var width := HostBits(ip.family);
    MaskClearsHostBits(ip, prefix);
    Word(ip.family, And(ip.bits, Mask(width, prefix)))
  }

  function ParseCidr(route: Route): Option<Block> {
    match route
    case Cidr(ip, prefix, _) =>
      if prefix > HostBits(ip.family) then None else Some(Block(Canonicalize(ip, prefix), prefix))
    case Bare(_) | Opaque(_) => None
  }

  predicate IsValidCidr(route: Route) {
    ParseCidr(route).Some?
  }

  predicate ContainsIp(base: Ip, prefix: nat, ip: Ip)
    requires prefix <= HostBits(base.family)
  {
    base.family == ip.family &&
    var m := Mask(HostBits(base.family), prefix);
    And(base.bits, m) == And(ip.bits, m)
  }

  function SplitHalf(base: Ip, prefix: nat): (halves: (Ip, Ip))
    requires prefix < HostBits(base.family)
    requires Aligned(base, prefix)
    ensures halves.0.family == halves.1.family == base.family
    ensures Aligned(halves.0, prefix + 1) && Aligned(halves.1, prefix + 1)
    ensures High(halves.0.bits, HostBits(base.family) - prefix - 1)
         == 2 * High(base.bits, HostBits(base.family) - prefix)
    ensures High(halves.1.bits, HostBits(base.family) - prefix - 1)
         == 2 * High(base.bits, HostBits(base.family) - prefix) + 1
  {
    SplitArithmetic(base, prefix);
    var bit := ShiftLeft(1, HostBits(base.family) - 1 - prefix, HostBits(base.family));
    (base, Word(base.family, Or(base.bits, bit)))
  }

  function IntersectCidr(first: Route, second: Route): Option<Route> {
    match (ParseCidr(first), ParseCidr(second))
    case (Some(a), Some(b)) =>
      if a.base.family != b.base.family then None
      else if a.prefix >= b.prefix && ContainsIp(b.base, b.prefix, a.base) then Some(Printed(a.base, a.prefix))
      else if b.prefix >= a.prefix && ContainsIp(a.base, a.prefix, b.base) then Some(Printed(b.base, b.prefix))
      else None
    case _ => None
  }

  /** The half of `outer` that holds `inner`, and its sibling. */
  function Halves(outer: Block, inner: Block): (halves: (Ip, Ip))
    requires Within(inner, outer) && outer.prefix < inner.prefix
    ensures halves.1.family == outer.base.family
    ensures Within(inner, Block(halves.0, outer.prefix + 1))
    ensures Aligned(halves.1, outer.prefix + 1) && SamePrefix(halves.1, inner.base, outer.prefix)
  {
    var (lower, upper) := SplitHalf(outer.base, outer.prefix);
    HalvesPartition(outer, lower, upper, inner.base);
    if ContainsIp(lower, outer.prefix + 1, inner.base) then (lower, upper) else (upper, lower)
  }

  /** The blocks left of `outer` when `inner` is cut out, by bisection. */
  function CarveRecursive(outer: Block, hostBits: nat, inner: Block): seq<Route>
    requires hostBits == HostBits(outer.base.family)
    requires Within(inner, outer)
    decreases inner.prefix - outer.prefix
  {
    if outer.prefix == inner.prefix then []
    else
      assert outer.prefix < inner.prefix && outer.prefix < hostBits;
      var prefix := outer.prefix + 1;
      var (containing, sibling) := Halves(outer, inner);
      [Printed(sibling, prefix)] + CarveRecursive(Block(containing, prefix), hostBits, inner)
  }

  function SubtractCidr(outer: Route, inner: Route): seq<Route> {
    match (ParseCidr(outer), ParseCidr(inner))
    case (Some(o), Some(i)) =>
      if o.base.family != i.base.family then [outer]
      else if i.prefix <= o.prefix && ContainsIp(i.base, i.prefix, o.base) then []
      else if !ContainsIp(o.base, o.prefix, i.base) then [outer]
      else
        (StrictContainment(o, i);
         CarveRecursive(o, HostBits(o.base.family), i))
    case _ => [outer]
  }

  // ----- What a route denotes

  /** `a` and `b` agree on their first `prefix` bits. */
  ghost predicate SamePrefix(a: Ip, b: Ip, prefix: nat)
    requires prefix <= HostBits(a.family)
  {
    a.family == b.family &&
    High(a.bits, HostBits(a.family) - prefix) == High(b.bits, HostBits(a.family) - prefix)
  }

  /** The address `a` belongs to `route`, as this file reads it. A route that does not parse has no addresses. */
  ghost predicate In(route: Route, a: Ip) {
    route.Cidr? && route.prefix <= HostBits(route.ip.family) && SamePrefix(route.ip, a, route.prefix)
  }

  ghost predicate Covered(routes: seq<Route>, a: Ip) {
    exists i :: 0 <= i < |routes| && In(routes[i], a)
  }

  ghost predicate Disjoint(r: Route, s: Route) {
    forall a: Ip :: !(In(r, a) && In(s, a))
  }

  ghost predicate PairwiseDisjoint(routes: seq<Route>) {
    forall i, j :: 0 <= i < j < |routes| ==> Disjoint(routes[i], routes[j])
  }

  /** No bit of `base` is set below the prefix. */
  ghost predicate Aligned(base: Ip, prefix: nat)
    requires prefix <= HostBits(base.family)
  {
    var h := HostBits(base.family) - prefix;
    base.bits == Scale(High(base.bits, h), h)
  }

  /** What the program prints for a block: aligned base, legal prefix, own spelling. */
  ghost predicate Canonical(r: Route) {
    r.Cidr? && r.prefix <= HostBits(r.ip.family) && Aligned(r.ip, r.prefix) && r.spelling == ""
  }

  /** `inner` lies inside `outer`, and both are aligned. */
  ghost predicate Within(inner: Block, outer: Block) {
    && outer.prefix <= inner.prefix <= HostBits(outer.base.family)
    && SamePrefix(outer.base, inner.base, outer.prefix)
    && Aligned(outer.base, outer.prefix)
    && Aligned(inner.base, inner.prefix)
  }

  // ----- Masks are prefixes

  lemma MaskValue(width: nat, prefix: nat)
    requires prefix <= width
    ensures Pow2(width - prefix) <= Pow2(width)
    ensures Mask(width, prefix) == Pow2(width) - Pow2(width - prefix)
  {
    ShiftedOnes(width, width - prefix);
  }

  lemma MaskClearsHostBits(ip: Ip, prefix: nat)
    requires prefix <= HostBits(ip.family)
    ensures var h := HostBits(ip.family) - prefix;
            var masked := And(ip.bits, Mask(HostBits(ip.family), prefix));
            masked == Scale(High(ip.bits, h), h) <= ip.bits && High(masked, h) == High(ip.bits, h)
  {
    var width := HostBits(ip.family);
    var h := width - prefix;
    MaskValue(width, prefix);
    AndMask(ip.bits, width, h);
    HighIsInterval(ip.bits, h, High(ip.bits, h));
    HighIsInterval(Scale(High(ip.bits, h), h), h, High(ip.bits, h));
  }

  /** Equality under the mask is agreement on the prefix. */
  lemma ContainsIsSamePrefix(base: Ip, prefix: nat, ip: Ip)
    requires prefix <= HostBits(base.family)
    ensures ContainsIp(base, prefix, ip) <==> SamePrefix(base, ip, prefix)
  {
    if base.family == ip.family {
      MaskClearsHostBits(base, prefix);
      MaskClearsHostBits(ip, prefix);
    }
  }

  /** An aligned block is the interval of `2^(width - prefix)` addresses that starts at its base. */
  lemma BlockIsInterval(r: Route, a: Ip)
    requires Canonical(r)
    ensures In(r, a) <==>
            a.family == r.ip.family &&
            r.ip.bits <= a.bits < r.ip.bits + Pow2(HostBits(r.ip.family) - r.prefix)
  {
    var h := HostBits(r.ip.family) - r.prefix;
    var k := High(r.ip.bits, h);
    HighIsInterval(a.bits, h, k);
    assert r.ip.bits == Scale(k, h);
    assert In(r, a) <==> a.family == r.ip.family && High(a.bits, h) == k;
  }

  /** A parsed route denotes the same addresses as its canonical print. */
  lemma ParseMeaning(route: Route)
    ensures ParseCidr(route).None? ==> forall a: Ip :: !In(route, a)
    ensures ParseCidr(route).Some? ==>
            var b := ParseCidr(route).value;
            Canonical(Printed(b.base, b.prefix)) &&
            forall a: Ip :: In(route, a) <==> In(Printed(b.base, b.prefix), a)
  {
  }

  /** Any two routes are disjoint, or one contains the other: the one with the longer prefix is inside. */
  lemma Laminar(r: Route, s: Route, a: Ip, x: Ip)
    requires In(r, a) && In(s, a)
    requires s.prefix <= r.prefix
    requires In(r, x)
    ensures In(s, x)
  {
    var width := HostBits(a.family);
    HighCoarser(r.ip.bits, a.bits, width - r.prefix, width - s.prefix);
    HighCoarser(r.ip.bits, x.bits, width - r.prefix, width - s.prefix);
  }

  // ----- Bisection

  lemma SplitArithmetic(base: Ip, prefix: nat)
    requires prefix < HostBits(base.family)
    requires Aligned(base, prefix)
    ensures var h := HostBits(base.family) - prefix;
            var k := High(base.bits, h);
            var upper := Or(base.bits, ShiftLeft(1, h - 1, HostBits(base.family)));
            && upper < Pow2(HostBits(base.family))
            && High(base.bits, h - 1) == 2 * k && base.bits == Scale(2 * k, h - 1)
            && High(upper, h - 1) == 2 * k + 1 && upper == Scale(2 * k + 1, h - 1)
  {
    var h := HostBits(base.family) - prefix;
    SplitWord(High(base.bits, h), h, HostBits(base.family));
  }

  lemma SplitWord(k: nat, h: nat, width: nat)
    requires 0 < h <= width
    requires Scale(k, h) < Pow2(width)
    ensures var upper := Or(Scale(k, h), ShiftLeft(1, h - 1, width));
            && upper < Pow2(width)
            && Scale(k, h) == Scale(2 * k, h - 1) && High(Scale(k, h), h - 1) == 2 * k
            && upper == Scale(2 * k + 1, h - 1) && High(upper, h - 1) == 2 * k + 1
  {
    ShiftedBit(h - 1, width);
    OrBit(k, h - 1);
    HalvesOfWord(k, h - 1);
    HighOfScale(2 * k, h - 1);
    HighOfScale(2 * k + 1, h - 1);
    AlignedFits(k, h, width);
  }

  lemma HalvesOfWord(k: nat, h: nat)
    ensures Scale(k, h + 1) == Scale(2 * k, h)
    ensures Scale(2 * k + 1, h) == Scale(k, h + 1) + Pow2(h)
  {
    ScaleOfDouble(k, h);
    ScaleSum(2 * k, 1, h);
  }

  lemma {:induction false} ScaleOfDouble(k: nat, h: nat)
    ensures Scale(2 * k, h) == 2 * Scale(k, h)
  {
    if h > 0 {
      ScaleOfDouble(k, h - 1);
    }
  }

  /** An aligned word below `2^width` leaves room for a whole block. */
  lemma {:induction false} AlignedFits(k: nat, h: nat, width: nat)
    requires h <= width
    requires Scale(k, h) < Pow2(width)
    ensures Scale(k, h) + Pow2(h) <= Pow2(width)
  {
    if h > 0 {
      AlignedFits(k, h - 1, width - 1);
    }
  }

  /** A prefix goes on with a 0 or with a 1. */
  lemma NextBit(x: nat, k: nat, h: nat)
    requires h > 0
    ensures k == High(x, h) <==> 2 * k == High(x, h - 1) || 2 * k + 1 == High(x, h - 1)
  {
    assert High(x, h) == High(x, h - 1) / 2;
  }

  lemma OneOfTwo(base: Ip, lower: Ip, upper: Ip, prefix: nat, a: Ip)
    requires prefix < HostBits(base.family) && lower.family == upper.family == base.family
    requires High(lower.bits, HostBits(base.family) - prefix - 1)
          == 2 * High(base.bits, HostBits(base.family) - prefix)
    requires High(upper.bits, HostBits(base.family) - prefix - 1)
          == 2 * High(base.bits, HostBits(base.family) - prefix) + 1
    ensures SamePrefix(base, a, prefix) <==> SamePrefix(lower, a, prefix + 1) || SamePrefix(upper, a, prefix + 1)
    ensures !(SamePrefix(lower, a, prefix + 1) && SamePrefix(upper, a, prefix + 1))
  {
    var h := HostBits(base.family) - prefix;
    NextBit(a.bits, High(base.bits, h), h);
  }

  /** An address of a block is in exactly one of its halves. */
  lemma HalvesPartition(outer: Block, lower: Ip, upper: Ip, a: Ip)
    requires outer.prefix < HostBits(outer.base.family) && Aligned(outer.base, outer.prefix)
    requires (lower, upper) == SplitHalf(outer.base, outer.prefix)
    ensures ContainsIp(lower, outer.prefix + 1, a) <==> SamePrefix(lower, a, outer.prefix + 1)
    ensures SamePrefix(outer.base, a, outer.prefix) <==>
            SamePrefix(lower, a, outer.prefix + 1) || SamePrefix(upper, a, outer.prefix + 1)
    ensures !(SamePrefix(lower, a, outer.prefix + 1) && SamePrefix(upper, a, outer.prefix + 1))
  {
    ContainsIsSamePrefix(lower, outer.prefix + 1, a);
    OneOfTwo(outer.base, lower, upper, outer.prefix, a);
  }

  lemma StrictContainment(o: Block, i: Block)
    requires o.base.family == i.base.family
    requires o.prefix <= HostBits(o.base.family) && i.prefix <= HostBits(i.base.family)
    requires Aligned(o.base, o.prefix) && Aligned(i.base, i.prefix)
    requires !(i.prefix <= o.prefix && ContainsIp(i.base, i.prefix, o.base))
    requires ContainsIp(o.base, o.prefix, i.base)
    ensures Within(i, o) && o.prefix < i.prefix
  {
    ContainsIsSamePrefix(o.base, o.prefix, i.base);
    ContainsIsSamePrefix(i.base, i.prefix, o.base);
    if i.prefix <= o.prefix {
      var width := HostBits(o.base.family);
      HighCoarser(o.base.bits, i.base.bits, width - o.prefix, width - i.prefix);
    }
  }
}
