/** Bits of non-negative integers, defined by halving, with the facts about
    shifting and adding powers of two that the bit-level code relies on. */
module Bits {

  /** An unsigned 8-bit value. */
  type Byte = x: int | 0 <= x < 256

  /** Bit `b` of the non-negative integer `x` (`x >> b & 1`). */
  predicate Bit(x: nat, b: nat)
  {
    if b == 0 then x % 2 == 1 else Bit(x / 2, b - 1)
  }

  lemma {:induction false} BitBound(x: nat, b: nat)
    requires Bit(x, b)
    ensures x >= Pow2(b)
  {
    if b > 0 {
      BitBound(x / 2, b - 1);
    }
  }

  function Pow2(n: nat): (r: nat)
    ensures r >= 1
  {
    if n == 0 then 1 else 2 * Pow2(n - 1)
  }

  /** Shifting left by i places moves every bit i places up. */
  lemma {:induction false} ShiftUp(x: nat, i: nat, b: nat)
    ensures Bit(x * Pow2(i), b + i) == Bit(x, b)
  {
    if i > 0 {
      var y := x * Pow2(i - 1);
      assert x * Pow2(i) == 2 * y;
      assert (2 * y) / 2 == y;
      ShiftUp(x, i - 1, b);
    }
  }

  /** Adding a multiple of 2^n leaves the bits below n alone. */
  lemma {:induction false} HighAddKeepsLow(x: nat, c: nat, n: nat, b: nat)
    requires b < n
    ensures Bit(x + c * Pow2(n), b) == Bit(x, b)
  {
    var p := Pow2(n - 1);
    assert c * Pow2(n) == 2 * (c * p);
    if b > 0 {
      assert (x + 2 * (c * p)) / 2 == x / 2 + c * p;
      HighAddKeepsLow(x / 2, c, n - 1, b - 1);
    }
  }

  /** Adding 2^n flips bit n. */
  lemma {:induction false} FlipBit(x: nat, n: nat)
    ensures Bit(x + Pow2(n), n) == !Bit(x, n)
  {
    if n > 0 {
      var p := Pow2(n - 1);
      assert (x + 2 * p) / 2 == x / 2 + p;
      FlipBit(x / 2, n - 1);
    }
  }

  /** After `i` one-place left shifts of a byte held in an 8-bit variable, its
      top bit is bit `7 - i` of the original: the shifts test the bits MSB first. */
  lemma {:induction false} ShiftedByteBit(x: Byte, i: nat)
    requires i < 8
    ensures Bit((x * Pow2(i)) % 256, 7) == Bit(x, 7 - i)
  {
    var y := x * Pow2(i);
    assert Pow2(8) == 256;
    assert y == y % 256 + (y / 256) * Pow2(8);
    HighAddKeepsLow(y % 256, y / 256, 8, 7);
    ShiftUp(x, i, 7 - i);
  }

  /** Zero has no bit set. */
  lemma {:induction false} ZeroHasNoBits(b: nat)
    ensures !Bit(0, b)
  {
    if b > 0 {
      ZeroHasNoBits(b - 1);
    }
  }
}
