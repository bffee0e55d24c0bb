module Sequences {
  /** Concatenation is associative; calling this spares the verifier the search for it. */
  lemma Assoc<T>(a: seq<T>, b: seq<T>, c: seq<T>)
    ensures (a + b) + c == a + (b + c)
  {
  }

  /** `found`, and then the elements of `xs` in their order, each unless it is already there. */
  function AddNew<T(==)>(found: seq<T>, xs: seq<T>): seq<T> {
    if xs == [] then found
    else
      var before, last := AddNew(found, xs[..|xs| - 1]), xs[|xs| - 1];
      if last in before then before else before + [last]
  }

  lemma {:induction false} AddNewOne<T>(found: seq<T>, x: T, xs: seq<T>)
    ensures AddNew(found, [x] + xs) == AddNew(if x in found then found else found + [x], xs)
    decreases |xs|
  {
    var all := [x] + xs;
    if xs == [] {
      assert all[..|all| - 1] == [];
    } else {
      assert all[..|all| - 1] == [x] + xs[..|xs| - 1] && all[|all| - 1] == xs[|xs| - 1];
      AddNewOne(found, x, xs[..|xs| - 1]);
    }
  }

  lemma {:induction false} AddNewAppend<T>(found: seq<T>, xs: seq<T>, ys: seq<T>)
    ensures AddNew(found, xs + ys) == AddNew(AddNew(found, xs), ys)
    decreases |ys|
  {
    if ys == [] {
      assert xs + ys == xs;
    } else {
      assert (xs + ys)[..|xs + ys| - 1] == xs + ys[..|ys| - 1];
      AddNewAppend(found, xs, ys[..|ys| - 1]);
    }
  }

  lemma SplitTail<T>(s: seq<T>, from: nat, to: nat)
    requires from <= to <= |s|
    ensures s[from..] == s[from..to] + s[to..]
  {
  }
}
