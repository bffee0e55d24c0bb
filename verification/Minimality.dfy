/**
 No list of CIDR text covers `outer` without `inner` with fewer entries than `SubtractCidr` returns.

 Every carved block holds an address, and one entry of a rival list cannot hold the addresses of two
 carved blocks: it would have to contain the parent of the wider one, hence `inner` itself.
 */
module Minimality {
  import opened Bits
  import opened Counting
  import opened Cidr
  import opened CidrAlgebra

  ghost predicate CoversDifference(routes: seq<Route>, outer: Route, inner: Route) {
    forall a: Ip :: Covered(routes, a) <==> In(outer, a) && !In(inner, a)
  }

  /** A block that holds an address of `wide` and one outside it holds everything beside `wide`. */
  lemma ReachesBeside(r: Route, wide: Route, outside: Ip, x: Ip)
    requires Canonical(wide) && 0 < wide.prefix
    requires In(r, wide.ip) && In(r, outside) && !In(wide, outside)
    requires SamePrefix(wide.ip, x, wide.prefix - 1)
    ensures In(r, x)
  {
    if wide.prefix <= r.prefix {
      Laminar(r, wide, wide.ip, outside);
    }
    var width := HostBits(wide.ip.family);
    HighCoarser(wide.ip.bits, x.bits, width - (wide.prefix - 1), width - r.prefix);
  }

  /** An entry that holds the bases of two carved blocks also holds the base of `inner`. */
  lemma TwoBlocksReachInner(outer: Block, inner: Block, blocks: seq<Route>, j: nat, k: nat, r: Route)
    requires Within(inner, outer)
    requires OneBlockPerLevel(blocks, outer, inner) && PairwiseDisjoint(blocks)
    requires j < k < |blocks| && blocks[j].Cidr? && blocks[k].Cidr?
    requires In(r, blocks[j].ip) && In(r, blocks[k].ip)
    ensures In(r, inner.base)
  {
    assert Disjoint(blocks[j], blocks[k]);
    assert Beside(blocks[j], outer.prefix + 1 + j, inner) && Beside(blocks[k], outer.prefix + 1 + k, inner);
    assert In(blocks[k], blocks[k].ip);
    ReachesBeside(r, blocks[j], blocks[k].ip, inner.base);
  }

  ghost function IndexOf(routes: seq<Route>, a: Ip): (i: nat)
    requires Covered(routes, a)
    ensures i < |routes| && In(routes[i], a)
  {
    var i :| 0 <= i < |routes| && In(routes[i], a);
    i
  }

  lemma CarveIsMinimal(outer: Block, inner: Block, rival: seq<Route>)
    requires Within(inner, outer)
    requires CoversDifference(rival, Printed(outer.base, outer.prefix), Printed(inner.base, inner.prefix))
    ensures |CarveRecursive(outer, HostBits(outer.base.family), inner)| <= |rival|
  {
    var blocks := CarveRecursive(outer, HostBits(outer.base.family), inner);
    CarveShape(outer, inner);
    CarveDisjoint(outer, inner);
    forall k | 0 <= k < |blocks|
      ensures blocks[k].Cidr? && Covered(rival, blocks[k].ip)
    {
      CarvedBase(outer, inner, rival, k);
    }
    var f := seq(|blocks|, k requires 0 <= k < |blocks| => IndexOf(rival, blocks[k].ip));
    assert !Covered(rival, inner.base);
    forall j, k | 0 <= j < k < |blocks|
      ensures f[j] != f[k]
    {
      var r := rival[f[j]];
      assert In(r, blocks[j].ip) && !In(r, inner.base);
      if In(r, blocks[k].ip) {
        TwoBlocksReachInner(outer, inner, blocks, j, k, r);
      }
    }
    Pigeonhole(f, |rival|);
  }

  lemma CarvedBase(outer: Block, inner: Block, rival: seq<Route>, k: nat)
    requires Within(inner, outer)
    requires CoversDifference(rival, Printed(outer.base, outer.prefix), Printed(inner.base, inner.prefix))
    requires k < |CarveRecursive(outer, HostBits(outer.base.family), inner)|
    ensures var block := CarveRecursive(outer, HostBits(outer.base.family), inner)[k];
            block.Cidr? && Covered(rival, block.ip)
  {
    var blocks := CarveRecursive(outer, HostBits(outer.base.family), inner);
    CarveShape(outer, inner);
    assert Beside(blocks[k], outer.prefix + 1 + k, inner);
    assert In(blocks[k], blocks[k].ip);
    assert Covered(blocks, blocks[k].ip);
    CarveMeaning(outer, inner, blocks[k].ip);
  }

  ghost predicate Minimal(outer: Route, inner: Route) {
    forall rival :: CoversDifference(rival, outer, inner) ==> |SubtractCidr(outer, inner)| <= |rival|
  }

  /** The list is a shortest one exactly when `outer` parses; text that does not parse is kept though it holds nothing. */
  lemma SubtractIsMinimal(outer: Route, inner: Route)
    ensures Minimal(outer, inner) <==> IsValidCidr(outer)
  {
    ParseMeaning(outer);
    ParseMeaning(inner);
    if !IsValidCidr(outer) {
      assert CoversDifference([], outer, inner);
    } else {
      forall rival | CoversDifference(rival, outer, inner)
        ensures |SubtractCidr(outer, inner)| <= |rival|
      {
        if StrictlyContains(outer, inner) {
          SubtractCases(outer, inner);
          CarveIsMinimal(ParseCidr(outer).value, ParseCidr(inner).value, rival);
        } else if rival == [] {
          SubtractShape(outer, inner);
          assert forall a: Ip :: !Covered(rival, a);
        } else if IsValidCidr(inner) {
          SubtractCases(outer, inner);
        }
      }
    }
  }
}
