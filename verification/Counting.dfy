/** Distinct numbers below a bound. */
module Counting {

  ghost predicate Distinct<T>(f: seq<T>) {
    forall i, j :: 0 <= i < j < |f| ==> f[i] != f[j]
  }

  lemma {:induction false} Pigeonhole(f: seq<nat>, m: nat)
    requires forall i :: 0 <= i < |f| ==> f[i] < m
    requires Distinct(f)
    ensures |f| <= m
    decreases m
  {
    assert |f| > 0 ==> f[0] < m;
    if i :| 0 <= i < |f| && f[i] == m - 1 {
      Pigeonhole(f[..i] + f[i + 1..], m - 1);
    } else if m > 0 {
      Pigeonhole(f, m - 1);
    }
  }

  /** `order` lists every index below `n` once. */
  ghost predicate IsOrder(order: seq<nat>, n: nat) {
    |order| == n && Distinct(order) && forall i :: 0 <= i < n ==> order[i] < n
  }

  lemma OrderHasAll(order: seq<nat>, n: nat, x: nat)
    requires IsOrder(order, n)
    requires x < n
    ensures x in order
  {
    if x !in order {
      Pigeonhole(order + [x], n);
    }
  }
}
