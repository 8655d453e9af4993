/** Bit operations on unsigned words, as functions on natural numbers.

    A left shift by k is a multiplication by 2^k, a right shift a division, and
    a mask with 2^k - 1 a remainder; `|` and `^` are defined bit by bit. */
module Bits {

  const U64: nat := 0x1_0000_0000_0000_0000

  function Pow2(k: nat): (r: nat)
    ensures r > 0
  {
    if k == 0 then 1 else 2 * Pow2(k - 1)
  }

  function Or(a: nat, b: nat): nat {
    if a == 0 && b == 0 then 0
    else (if a % 2 == 1 || b % 2 == 1 then 1 else 0) + 2 * Or(a / 2, b / 2)
  }

  function Xor(a: nat, b: nat): nat {
    if a == 0 && b == 0 then 0
    else (if a % 2 != b % 2 then 1 else 0) + 2 * Xor(a / 2, b / 2)
  }

  lemma {:induction false} OrZero(b: nat)
    ensures Or(0, b) == b
  {
    if b > 0 { OrZero(b / 2); }
  }

  lemma {:induction false} OrSwap(a: nat, b: nat)
    ensures Or(a, b) == Or(b, a)
    decreases a + b
  {
    if a > 0 || b > 0 { OrSwap(a / 2, b / 2); }
  }

  lemma {:induction false} Pow2Add(j: nat, k: nat)
    ensures Pow2(j + k) == Pow2(j) * Pow2(k)
  {
    if j > 0 { Pow2Add(j - 1, k); }
  }

  lemma {:induction false} OrStep(lo: nat, u: nat, v: nat)
    ensures Or(lo + 2 * u, 2 * v) == lo % 2 + 2 * Or(lo / 2 + u, v)
  {
    assert (lo + 2 * u) / 2 == lo / 2 + u && (2 * v) / 2 == v;
  }

  lemma {:induction false} PowStep(k: nat)
    ensures Pow2(k + 1) == 2 * Pow2(k)
    ensures Pow2(k + 4) == 16 * Pow2(k)
  {
    assert Pow2(k + 4) == 2 * Pow2(k + 3) == 4 * Pow2(k + 2) == 8 * Pow2(k + 1);
  }

  lemma {:induction false} PowZero()
    ensures Pow2(0) == 1
  {
  }

  lemma {:induction false} WordSizes()
    ensures Pow2(7) == 128 && Pow2(8) == 256 && Pow2(63) * 2 == U64 && Pow2(64) == U64 && U64 <= Pow2(70)
  {
    hide Pow2;
    PowZero();
    PowStep(0); PowStep(4); PowStep(8); PowStep(12); PowStep(16); PowStep(20); PowStep(24); PowStep(28);
    PowStep(32); PowStep(36); PowStep(40); PowStep(44); PowStep(48); PowStep(52); PowStep(56); PowStep(60);
    PowStep(3 + 4); PowStep(63); PowStep(64); PowStep(68); PowStep(69); PowStep(3); PowStep(2); PowStep(1);
  }

  /** `a << k`, before any truncation to a word. */
  function Shl(a: nat, k: nat): nat {
    if k == 0 then a else 2 * Shl(a, k - 1)
  }

  lemma {:induction false} ShlIsTimes(a: nat, k: nat)
    ensures Shl(a, k) == a * Pow2(k)
  {
    if k > 0 {
      ShlIsTimes(a, k - 1);
      assert a * (2 * Pow2(k - 1)) == 2 * (a * Pow2(k - 1));
    }
  }

  /** Low bits below position k are untouched by an `|` with bits above it. */
  lemma {:induction false} OrAbove(lo: nat, a: nat, b: nat, k: nat)
    requires lo < Pow2(k)
    ensures Or(lo + Shl(a, k), Shl(b, k)) == lo + Shl(Or(a, b), k)
  {
    if k > 0 {
      OrAbove(lo / 2, a, b, k - 1);
      OrStep(lo, Shl(a, k - 1), Shl(b, k - 1));
    }
  }

  /** An `|` of words without a common bit is a sum. */
  lemma {:induction false} OrDisjoint(lo: nat, b: nat, k: nat)
    requires lo < Pow2(k)
    ensures Or(lo, b * Pow2(k)) == lo + b * Pow2(k)
  {
    OrAbove(lo, 0, b, k);
    OrZero(b);
    ShlIsTimes(0, k);
    ShlIsTimes(b, k);
  }

  /** Setting bit 7 of a byte. */
  lemma {:induction false} OrHighBit(x: nat)
    requires x < 256
    ensures Or(x, 128) == x % 128 + 128
  {
    hide Or, Shl, Pow2;
    WordSizes();
    OrAbove(x % 128, x / 128, 1, 7);
    ShlIsTimes(1, 7);
    ShlIsTimes(x / 128, 7);
    OneOr(x / 128);
  }

  lemma {:induction false} OneOr(a: nat)
    requires a < 2
    ensures Or(a, 1) == 1
  {
    assert Or(0, 0) == 0;
  }

  lemma {:induction false} XorBound(a: nat, b: nat, k: nat)
    requires a < Pow2(k) && b < Pow2(k)
    ensures Xor(a, b) < Pow2(k)
  {
    if k > 0 { XorBound(a / 2, b / 2, k - 1); }
  }

  lemma {:induction false} XorTwice(a: nat, b: nat)
    ensures Xor(Xor(a, b), b) == a
    decreases a + b
  {
    if a > 0 || b > 0 {
      XorTwice(a / 2, b / 2);
      var x := Xor(a, b);
      assert x / 2 == Xor(a / 2, b / 2) && x % 2 == (if a % 2 != b % 2 then 1 else 0);
      assert Xor(x, b) == (if x % 2 != b % 2 then 1 else 0) + 2 * Xor(x / 2, b / 2);
    }
  }

  /** Binary digit number `k`. */
  function Bit(n: nat, k: nat): bool { if k == 0 then n % 2 == 1 else Bit(n / 2, k - 1) }

  /** `|` and `^` digit by digit. */
  lemma {:induction false} OrXorBit(a: nat, b: nat, k: nat)
    ensures Bit(Or(a, b), k) <==> Bit(a, k) || Bit(b, k)
    ensures Bit(Xor(a, b), k) <==> Bit(a, k) != Bit(b, k)
  {
    if a == 0 && b == 0 {
      NoBit(k);
    } else {
      assert Or(a, b) / 2 == Or(a / 2, b / 2) && Xor(a, b) / 2 == Xor(a / 2, b / 2);
      if k > 0 { OrXorBit(a / 2, b / 2, k - 1); }
    }
  }

  lemma {:induction false} NoBit(k: nat)
    ensures !Bit(0, k)
  {
    if k > 0 { NoBit(k - 1); }
  }
}
