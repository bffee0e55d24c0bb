/** What intersection and subtraction of CIDR text mean as operations on sets of addresses. */
module CidrAlgebra {
  import opened Bits
  import opened Cidr

  // ----- Intersection

  /** The result is exactly the set intersection, printed canonically; there is none iff the sets are disjoint. */
  lemma IntersectMeaning(first: Route, second: Route)
    ensures IntersectCidr(first, second).None? <==> Disjoint(first, second)
    ensures IntersectCidr(first, second).Some? ==>
            var r := IntersectCidr(first, second).value;
            Canonical(r) && forall a: Ip :: In(r, a) <==> In(first, a) && In(second, a)
  {
    ParseMeaning(first);
    ParseMeaning(second);
    if ParseCidr(first).Some? && ParseCidr(second).Some? {
      var a, b := ParseCidr(first).value, ParseCidr(second).value;
      IntersectBlocks(Printed(a.base, a.prefix), Printed(b.base, b.prefix));
      ContainsIsSamePrefix(b.base, b.prefix, a.base);
      ContainsIsSamePrefix(a.base, a.prefix, b.base);
    }
  }

  /** Canonical blocks nest or are disjoint, and the base of the narrower one decides which. */
  lemma IntersectBlocks(r: Route, s: Route)
    requires Canonical(r) && Canonical(s)
    ensures In(r, r.ip) && In(s, s.ip)
    ensures r.prefix >= s.prefix && In(s, r.ip) ==> forall a: Ip :: In(r, a) ==> In(s, a)
    ensures s.prefix >= r.prefix && In(r, s.ip) ==> forall a: Ip :: In(s, a) ==> In(r, a)
    ensures Disjoint(r, s) <==>
            !(r.prefix >= s.prefix && In(s, r.ip)) && !(s.prefix >= r.prefix && In(r, s.ip))
  {
    forall a: Ip, x: Ip | In(r, a) && In(s, a)
      ensures r.prefix >= s.prefix && In(r, x) ==> In(s, x)
      ensures s.prefix >= r.prefix && In(s, x) ==> In(r, x)
    {
      if r.prefix >= s.prefix && In(r, x) {
        Laminar(r, s, a, x);
      }
      if s.prefix >= r.prefix && In(s, x) {
        Laminar(s, r, a, x);
      }
    }
  }

  /** Any two routes are disjoint or nested. */
  lemma DisjointOrNested(first: Route, second: Route)
    ensures || Disjoint(first, second)
            || (forall a: Ip :: In(first, a) ==> In(second, a))
            || (forall a: Ip :: In(second, a) ==> In(first, a))
  {
    IntersectMeaning(first, second);
    ParseMeaning(first);
    ParseMeaning(second);
  }

  lemma IntersectCommutes(first: Route, second: Route)
    ensures IntersectCidr(first, second) == IntersectCidr(second, first)
  {
    if ParseCidr(first).Some? && ParseCidr(second).Some? {
      var a, b := ParseCidr(first).value, ParseCidr(second).value;
      ContainsIsSamePrefix(b.base, b.prefix, a.base);
      ContainsIsSamePrefix(a.base, a.prefix, b.base);
    }
  }

  // ----- Subtraction

  lemma CoveredCons(r: Route, rest: seq<Route>, a: Ip)
    ensures Covered([r] + rest, a) <==> In(r, a) || Covered(rest, a)
  {
    var all := [r] + rest;
    if In(r, a) {
      assert In(all[0], a);
    }
    if Covered(rest, a) {
      var i :| 0 <= i < |rest| && In(rest[i], a);
      assert In(all[i + 1], a);
    }
    if Covered(all, a) {
      var i :| 0 <= i < |all| && In(all[i], a);
      assert i > 0 ==> In(rest[i - 1], a);
    }
  }

  lemma CoveredAppend(xs: seq<Route>, ys: seq<Route>, a: Ip)
    ensures Covered(xs + ys, a) <==> Covered(xs, a) || Covered(ys, a)
  {
    if Covered(xs, a) {
      var i :| 0 <= i < |xs| && In(xs[i], a);
      assert In((xs + ys)[i], a);
    }
    if Covered(ys, a) {
      var i :| 0 <= i < |ys| && In(ys[i], a);
      assert In((xs + ys)[|xs| + i], a);
    }
    if Covered(xs + ys, a) {
      var i :| 0 <= i < |xs + ys| && In((xs + ys)[i], a);
      assert if i < |xs| then In(xs[i], a) else In(ys[i - |xs|], a);
    }
  }

  lemma CoveredSingle(r: Route, a: Ip)
    ensures Covered([r], a) <==> In(r, a)
  {
    assert In(r, a) ==> In([r][0], a);
  }

  lemma HalvesDivide(outer: Block, inner: Block, a: Ip)
    requires Within(inner, outer) && outer.prefix < inner.prefix
    ensures var (kept, aside) := Halves(outer, inner);
            && (SamePrefix(outer.base, a, outer.prefix) <==>
                SamePrefix(kept, a, outer.prefix + 1) || SamePrefix(aside, a, outer.prefix + 1))
            && !(SamePrefix(kept, a, outer.prefix + 1) && SamePrefix(aside, a, outer.prefix + 1))
  {
    var (lower, upper) := SplitHalf(outer.base, outer.prefix);
    HalvesPartition(outer, lower, upper, a);
  }

  lemma PrintedHolds(base: Ip, prefix: nat, a: Ip)
    requires prefix <= HostBits(base.family)
    ensures In(Printed(base, prefix), a) <==> SamePrefix(base, a, prefix)
  {
  }

  lemma {:induction false} CarveMeaning(outer: Block, inner: Block, a: Ip)
    requires Within(inner, outer)
    ensures Covered(CarveRecursive(outer, HostBits(outer.base.family), inner), a) <==>
            SamePrefix(outer.base, a, outer.prefix) && !SamePrefix(inner.base, a, inner.prefix)
    decreases inner.prefix - outer.prefix
  {
    if outer.prefix < inner.prefix {
      var (kept, aside) := Halves(outer, inner);
      var next := Block(kept, outer.prefix + 1);
      var rest := CarveRecursive(next, HostBits(outer.base.family), inner);
      HalvesDivide(outer, inner, a);
      CarveMeaning(next, inner, a);
      CoveredCons(Printed(aside, outer.prefix + 1), rest, a);
      PrintedHolds(aside, outer.prefix + 1, a);
      InnerIsInside(inner, next, a);
    } else {
      InnerIsInside(inner, outer, a);
    }
  }

  lemma InnerIsInside(inner: Block, outer: Block, a: Ip)
    requires Within(inner, outer)
    ensures SamePrefix(inner.base, a, inner.prefix) ==> SamePrefix(outer.base, a, outer.prefix)
  {
    if SamePrefix(inner.base, a, inner.prefix) {
      var width := HostBits(a.family);
      HighCoarser(inner.base.bits, a.bits, width - inner.prefix, width - outer.prefix);
    }
  }

  /** A canonical block of the given prefix length, next to the path that leads to `inner`. */
  ghost predicate Beside(r: Route, prefix: nat, inner: Block) {
    && Canonical(r) && r.prefix == prefix
    && 0 < prefix && SamePrefix(r.ip, inner.base, prefix - 1)
  }

  /** One block per prefix length from just below `outer` down to `inner`. */
  ghost predicate OneBlockPerLevel(blocks: seq<Route>, outer: Block, inner: Block) {
    && |blocks| == inner.prefix - outer.prefix
    && forall k :: 0 <= k < |blocks| ==> Beside(blocks[k], outer.prefix + 1 + k, inner)
  }

  lemma LevelsCons(head: Route, tail: seq<Route>, outer: Block, next: Block, inner: Block)
    requires next.prefix == outer.prefix + 1 && Beside(head, next.prefix, inner)
    requires OneBlockPerLevel(tail, next, inner)
    ensures OneBlockPerLevel([head] + tail, outer, inner)
  {
    var blocks := [head] + tail;
    forall k | 0 <= k < |blocks| ensures Beside(blocks[k], outer.prefix + 1 + k, inner) {
      if k > 0 {
        assert Beside(tail[k - 1], next.prefix + 1 + (k - 1), inner);
      }
    }
  }

  lemma {:induction false} CarveShape(outer: Block, inner: Block)
    requires Within(inner, outer)
    ensures OneBlockPerLevel(CarveRecursive(outer, HostBits(outer.base.family), inner), outer, inner)
    decreases inner.prefix - outer.prefix
  {
    if outer.prefix < inner.prefix {
      var (kept, aside) := Halves(outer, inner);
      var next := Block(kept, outer.prefix + 1);
      CarveShape(next, inner);
      LevelsCons(Printed(aside, outer.prefix + 1), CarveRecursive(next, HostBits(outer.base.family), inner),
                 outer, next, inner);
    }
  }

  lemma {:induction false} CarveDisjoint(outer: Block, inner: Block)
    requires Within(inner, outer)
    ensures PairwiseDisjoint(CarveRecursive(outer, HostBits(outer.base.family), inner))
    decreases inner.prefix - outer.prefix
  {
    if outer.prefix < inner.prefix {
      var (kept, aside) := Halves(outer, inner);
      var next := Block(kept, outer.prefix + 1);
      var tail := CarveRecursive(next, HostBits(outer.base.family), inner);
      CarveDisjoint(next, inner);
      forall j, a: Ip | 0 <= j < |tail| && In(tail[j], a)
        ensures !In(Printed(aside, outer.prefix + 1), a)
      {
        assert Covered(tail, a);
        CarveMeaning(next, inner, a);
        HalvesDivide(outer, inner, a);
        PrintedHolds(aside, outer.prefix + 1, a);
      }
      DisjointCons(Printed(aside, outer.prefix + 1), tail);
    }
  }

  lemma DisjointCons(r: Route, rest: seq<Route>)
    requires PairwiseDisjoint(rest)
    requires forall j :: 0 <= j < |rest| ==> Disjoint(r, rest[j])
    ensures PairwiseDisjoint([r] + rest)
  {
  }

  /** `SubtractCidr` is set difference, for every pair of routes. */
  lemma SubtractMeaning(outer: Route, inner: Route, a: Ip)
    ensures Covered(SubtractCidr(outer, inner), a) <==> In(outer, a) && !In(inner, a)
  {
    ParseMeaning(outer);
    ParseMeaning(inner);
    CoveredSingle(outer, a);
    if ParseCidr(outer).Some? && ParseCidr(inner).Some? {
      var o, i := ParseCidr(outer).value, ParseCidr(inner).value;
      var or, ir := Printed(o.base, o.prefix), Printed(i.base, i.prefix);
      IntersectBlocks(or, ir);
      if o.base.family == i.base.family {
        ContainsIsSamePrefix(i.base, i.prefix, o.base);
        ContainsIsSamePrefix(o.base, o.prefix, i.base);
        if ContainsIp(o.base, o.prefix, i.base) && !(i.prefix <= o.prefix && ContainsIp(i.base, i.prefix, o.base)) {
          StrictContainment(o, i);
          CarveMeaning(o, i, a);
        }
      }
    }
  }

  /** `outer` parses, `inner` parses, and `inner` is a proper part of `outer`. */
  ghost predicate StrictlyContains(outer: Route, inner: Route) {
    && ParseCidr(outer).Some? && ParseCidr(inner).Some?
    && outer.prefix < inner.prefix
    && SamePrefix(outer.ip, inner.ip, outer.prefix)
  }

  /** Canonical or not, a route has one prefix. */
  lemma BaseKeepsPrefix(route: Route)
    requires ParseCidr(route).Some?
    ensures var b := ParseCidr(route).value;
            b.prefix == route.prefix && SamePrefix(b.base, route.ip, route.prefix)
  {
  }

  lemma ShorterPrefix(a: Ip, b: Ip, long: nat, short: nat)
    requires short <= long <= HostBits(a.family) && SamePrefix(a, b, long)
    ensures SamePrefix(a, b, short)
  {
    HighCoarser(a.bits, b.bits, HostBits(a.family) - long, HostBits(a.family) - short);
  }

  lemma CoverTest(outer: Route, inner: Route)
    requires ParseCidr(outer).Some? && ParseCidr(inner).Some?
    requires outer.ip.family == inner.ip.family && inner.prefix <= outer.prefix
    ensures var o, i := ParseCidr(outer).value, ParseCidr(inner).value;
            && (ContainsIp(i.base, i.prefix, o.base) <==> In(inner, outer.ip))
            && (ContainsIp(o.base, o.prefix, i.base) ==> In(inner, outer.ip))
  {
    var o, i := ParseCidr(outer).value, ParseCidr(inner).value;
    BaseKeepsPrefix(outer);
    BaseKeepsPrefix(inner);
    ContainsIsSamePrefix(i.base, i.prefix, o.base);
    ContainsIsSamePrefix(o.base, o.prefix, i.base);
    ShorterPrefix(o.base, outer.ip, o.prefix, i.prefix);
    if SamePrefix(o.base, i.base, o.prefix) {
      ShorterPrefix(o.base, i.base, o.prefix, i.prefix);
    }
  }

  lemma ContainTest(outer: Route, inner: Route)
    requires ParseCidr(outer).Some? && ParseCidr(inner).Some?
    requires outer.ip.family == inner.ip.family && outer.prefix < inner.prefix
    ensures var o, i := ParseCidr(outer).value, ParseCidr(inner).value;
            && (ContainsIp(o.base, o.prefix, i.base) <==> StrictlyContains(outer, inner))
            && (In(inner, outer.ip) ==> StrictlyContains(outer, inner))
  {
    var o, i := ParseCidr(outer).value, ParseCidr(inner).value;
    BaseKeepsPrefix(outer);
    BaseKeepsPrefix(inner);
    ContainsIsSamePrefix(o.base, o.prefix, i.base);
    ShorterPrefix(i.base, inner.ip, i.prefix, o.prefix);
    if In(inner, outer.ip) {
      ShorterPrefix(inner.ip, outer.ip, i.prefix, o.prefix);
    }
  }

  lemma SubtractCases(outer: Route, inner: Route)
    requires ParseCidr(outer).Some? && ParseCidr(inner).Some?
    ensures StrictlyContains(outer, inner) ==>
            var o, i := ParseCidr(outer).value, ParseCidr(inner).value;
            Within(i, o) && SubtractCidr(outer, inner) == CarveRecursive(o, HostBits(o.base.family), i)
    ensures !StrictlyContains(outer, inner) ==>
            SubtractCidr(outer, inner) == if In(inner, outer.ip) then [] else [outer]
    ensures !StrictlyContains(outer, inner) && In(inner, outer.ip) ==> inner.prefix <= outer.prefix
  {
    if outer.ip.family == inner.ip.family {
      if inner.prefix <= outer.prefix {
        CoverTest(outer, inner);
      } else {
        ContainTest(outer, inner);
        if StrictlyContains(outer, inner) {
          StrictContainment(ParseCidr(outer).value, ParseCidr(inner).value);
        }
      }
    }
  }

  /** The text is left alone, dropped, or replaced by disjoint canonical blocks, one per level. */
  lemma SubtractShape(outer: Route, inner: Route)
    ensures PairwiseDisjoint(SubtractCidr(outer, inner))
    ensures StrictlyContains(outer, inner) ==>
            var o, i := ParseCidr(outer).value, ParseCidr(inner).value;
            Within(i, o) && OneBlockPerLevel(SubtractCidr(outer, inner), o, i)
    ensures !StrictlyContains(outer, inner) ==>
            SubtractCidr(outer, inner) ==
            if ParseCidr(outer).Some? && (forall a: Ip :: In(outer, a) ==> In(inner, a)) then [] else [outer]
  {
    if ParseCidr(outer).Some? && ParseCidr(inner).Some? {
      SubtractCases(outer, inner);
      if StrictlyContains(outer, inner) {
        var o, i := ParseCidr(outer).value, ParseCidr(inner).value;
        CarveShape(o, i);
        CarveDisjoint(o, i);
      } else {
        assert In(outer, outer.ip);
        if In(inner, outer.ip) {
          forall a: Ip | In(outer, a) ensures In(inner, a) { Laminar(outer, inner, outer.ip, a); }
        }
      }
    } else {
      ParseMeaning(outer);
      ParseMeaning(inner);
      if ParseCidr(outer).Some? {
        assert In(outer, outer.ip);
      }
    }
  }
}
