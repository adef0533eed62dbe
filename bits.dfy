/** Powers of two, their exponents and single-bit tests on natural numbers. */
module Bits {

  /** `(int) Math.pow(2, n)`, exact. */
  function Pow2(n: nat): (p: nat)
    ensures p >= 1
  {
    if n == 0 then 1 else 2 * Pow2(n - 1)
  }

  /** The exponent of the largest power of two not above m (0 for m <= 1). */
  function Log2(m: nat): nat {
    if m <= 1 then 0 else 1 + Log2(m / 2)
  }

  /** `(row & (int) Math.pow(2, b)) != 0`: bit b of x is set. */
  predicate TestBit(x: nat, b: nat) {
    if b == 0 then x % 2 == 1 else TestBit(x / 2, b - 1)
  }

  /** Taking the exponent undoes raising to a power: for the matrix heights 2, 4
      and 8 this is the rounded quotient of logarithms the engine computes. */
  lemma {:induction false} Log2Pow2(n: nat)
    ensures Log2(Pow2(n)) == n
  {
    if n > 0 {
      Log2Pow2(n - 1);
      assert Pow2(n) / 2 == Pow2(n - 1);
    }
  }

  lemma {:induction false} Pow2Add(a: nat, b: nat)
    ensures Pow2(a + b) == Pow2(a) * Pow2(b)
    decreases b
  {
    if b > 0 {
      Pow2Add(a, b - 1);
    }
  }

  lemma {:induction false} Pow2Monotone(a: nat, b: nat)
    requires a <= b
    ensures Pow2(a) <= Pow2(b)
    decreases b
  {
    if a < b {
      Pow2Monotone(a, b - 1);
    }
  }

  /** Appending bit v below x: the new lowest bit is v, the bits of x move up one. */
  lemma AppendedBit(x: nat, v: nat, b: nat)
    requires v <= 1
    ensures TestBit(v + 2 * x, 0) <==> v == 1
    ensures TestBit(v + 2 * x, b + 1) <==> TestBit(x, b)
  {
    assert (v + 2 * x) / 2 == x;
  }

  /** Every bit at or above position n of a number below 2^n is clear. */
  lemma {:induction false} HighBitsClear(x: nat, n: nat, b: nat)
    requires x < Pow2(n) && n <= b
    ensures !TestBit(x, b)
    decreases b
  {
    if b == 0 {
      assert x == 0;
    } else if n == 0 {
      assert x == 0;
      HighBitsClear(0, 0, b - 1);
    } else {
      HighBitsClear(x / 2, n - 1, b - 1);
    }
  }
}
