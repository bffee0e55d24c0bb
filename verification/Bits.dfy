/**
 Unsigned machine words as natural numbers.

 `And`, `Or` and `ShiftLeft` are the bitwise operators of the program, written bit by bit.
 `High(x, h)` is what is left of `x` when its low `h` bits are dropped; it is the only notion the
 meaning of a CIDR block needs. The lemmas turn masks and single-bit unions into it.
 */
module Bits {

  /** `x` with `k` zero bits appended. */
  function Scale(x: nat, k: nat): (r: nat)
    ensures x > 0 ==> r > 0
  {
    if k == 0 then x else 2 * Scale(x, k - 1)
  }

  function Pow2(n: nat): (r: nat)
    ensures r > 0
  {
    Scale(1, n)
  }

  function And(a: nat, b: nat): nat {
    if a == 0 || b == 0 then 0
    else (if a % 2 == 1 && b % 2 == 1 then 1 else 0) + 2 * And(a / 2, b / 2)
  }

  function Or(a: nat, b: nat): nat {
    if a == 0 then b
    else if b == 0 then a
    else (if a % 2 == 1 || b % 2 == 1 then 1 else 0) + 2 * Or(a / 2, b / 2)
  }

  /** `x` without its low `h` bits. */
  function High(x: nat, h: nat): nat {
    if h == 0 then x else High(x, h - 1) / 2
  }

  /** The low `width` bits of `x`: what a word of that width keeps. */
  function Low(x: nat, width: nat): nat {
    HighIsInterval(x, width, High(x, width));
    x - Scale(High(x, width), width)
  }

  /** `x << k` in a word of `width` bits: every step loses the bit that is pushed out at the top. */
  function ShiftLeft(x: nat, k: nat, width: nat): nat {
    if k == 0 then Low(x, width) else Low(2 * ShiftLeft(x, k - 1, width), width)
  }

  lemma {:induction false} HighOfHalf(x: nat, h: nat)
    ensures High(x / 2, h) == High(x, h + 1)
  {
    if h > 0 {
      HighOfHalf(x, h - 1);
    }
  }

  /** `High(x, h) == k` says that `x` lies in the `k`-th aligned interval of length `2^h`. */
  lemma {:induction false} HighIsInterval(x: nat, h: nat, k: nat)
    ensures High(x, h) == k <==> Scale(k, h) <= x < Scale(k, h) + Pow2(h)
  {
    if h > 0 {
      HighOfHalf(x, h - 1);
      HighIsInterval(x / 2, h - 1, k);
    }
  }

  lemma HighOfScale(k: nat, h: nat)
    ensures High(Scale(k, h), h) == k
  {
    HighIsInterval(Scale(k, h), h, k);
  }

  /** Words that agree above bit `h` agree above every higher bit. */
  lemma {:induction false} HighCoarser(x: nat, y: nat, h: nat, k: nat)
    requires High(x, h) == High(y, h)
    requires h <= k
    ensures High(x, k) == High(y, k)
  {
    if h < k {
      HighCoarser(x, y, h, k - 1);
    }
  }

  lemma {:induction false} ScaleSum(a: nat, b: nat, h: nat)
    ensures Scale(a + b, h) == Scale(a, h) + Scale(b, h)
  {
    if h > 0 {
      ScaleSum(a, b, h - 1);
    }
  }

  lemma {:induction false} Pow2Monotone(a: nat, b: nat)
    requires a <= b
    ensures Pow2(a) <= Pow2(b)
  {
    if a < b {
      Pow2Monotone(a, b - 1);
    }
  }

  lemma {:induction false} ScaleIsProduct(x: nat, h: nat)
    ensures Scale(x, h) == Pow2(h) * x
  {
    if h > 0 {
      ScaleIsProduct(x, h - 1);
    }
  }

  lemma LowOfSmall(x: nat, width: nat)
    requires x < Pow2(width)
    ensures Low(x, width) == x
  {
    ScaleOfZero(width);
    HighIsInterval(x, width, 0);
  }

  lemma {:induction false} ScaleOfZero(h: nat)
    ensures Scale(0, h) == 0
  {
    if h > 0 {
      ScaleOfZero(h - 1);
    }
  }

  /** A word that overflows by one bit loses that bit. */
  lemma LowOfOverflow(x: nat, width: nat)
    requires Pow2(width) <= x < 2 * Pow2(width)
    ensures Low(x, width) == x - Pow2(width)
  {
    HighIsInterval(x, width, 1);
  }

  /** A word of ones shifted left by `h` has ones exactly above bit `h`. */
  lemma {:induction false} ShiftedOnes(width: nat, h: nat)
    requires h <= width
    ensures Pow2(h) <= Pow2(width)
    ensures ShiftLeft(Pow2(width) - 1, h, width) == Pow2(width) - Pow2(h)
  {
    Pow2Monotone(h, width);
    if h == 0 {
      LowOfSmall(Pow2(width) - 1, width);
    } else {
      ShiftedOnes(width, h - 1);
      LowOfOverflow(2 * (Pow2(width) - Pow2(h - 1)), width);
    }
  }

  /** A single bit that stays inside the word is not lost. */
  lemma {:induction false} ShiftedBit(k: nat, width: nat)
    requires k < width
    ensures ShiftLeft(1, k, width) == Pow2(k) < Pow2(width)
  {
    Pow2Monotone(k + 1, width);
    if k > 0 {
      ShiftedBit(k - 1, width);
    }
    LowOfSmall(Pow2(k), width);
  }

  lemma {:induction false} AndOnes(x: nat, width: nat)
    requires x < Pow2(width)
    ensures And(x, Pow2(width) - 1) == x
  {
    if width > 0 && x > 0 {
      assert (Pow2(width) - 1) / 2 == Pow2(width - 1) - 1;
      AndOnes(x / 2, width - 1);
    }
  }

  lemma AndOdd(x: nat, m: nat)
    ensures And(x, 2 * m + 1) == x % 2 + 2 * And(x / 2, m)
  {
    assert (2 * m + 1) / 2 == m && (2 * m + 1) % 2 == 1;
  }

  lemma AndDouble(x: nat, m: nat)
    ensures And(x, 2 * m) == 2 * And(x / 2, m)
  {
    assert (2 * m) / 2 == m && (2 * m) % 2 == 0;
  }

  /** Masking with ones above bit `h` clears the low `h` bits. */
  lemma {:induction false} AndMask(x: nat, width: nat, h: nat)
    requires x < Pow2(width)
    requires h <= width
    ensures Pow2(h) <= Pow2(width)
    ensures And(x, Pow2(width) - Pow2(h)) == Scale(High(x, h), h)
  {
    Pow2Monotone(h, width);
    if h == 0 {
      AndOnes(x, width);
    } else {
      Pow2Monotone(h - 1, width - 1);
      AndMask(x / 2, width - 1, h - 1);
      HighOfHalf(x, h - 1);
      var m := Pow2(width - 1) - Pow2(h - 1);
      AndDouble(x, m);
      assert And(x, 2 * m) == 2 * And(x / 2, m);
    }
  }

  /** Setting a clear bit of an aligned word adds that bit. */
  lemma {:induction false} OrBit(k: nat, h: nat)
    ensures Or(Scale(k, h + 1), Pow2(h)) == Scale(k, h + 1) + Pow2(h)
  {
    if h > 0 {
      OrBit(k, h - 1);
    }
  }
}
