/** Fixed-width integer helpers: the C types the driver computes in, and the
    bit fields its setters slice out of a 64-bit value. */
module Arith {

  type U64 = x: int | 0 <= x < 0x1_0000_0000_0000_0000

  /** Values of a `uint32_t`. */
  type Word32 = x: int | 0 <= x < 0x1_0000_0000

  const Two16: int := 0x1_0000
  const Two32: int := 0x1_0000_0000

  /** Truncation to `uint16_t`. */
  function U16(x: int): (r: int)
    ensures 0 <= r < Two16
    ensures 0 <= x < Two16 ==> r == x
  {
    x % Two16
  }

  /** Wrap-around of `uint32_t` arithmetic. */
  function U32(x: int): (r: int)
    ensures 0 <= r < Two32
    ensures 0 <= x < Two32 ==> r == x
  {
    x % Two32
  }

  function Min(a: int, b: int): int { if a <= b then a else b }

  function Max(a: int, b: int): int { if a >= b then a else b }

  /** A 32-bit value is the sum of its four bytes at their weights. */
  lemma FourBytes(v: nat)
    ensures v % Two32 == Bits(v, 1, 0x100) + 0x100 * Bits(v, 0x100, 0x100)
                         + 0x1_0000 * Bits(v, 0x1_0000, 0x100) + 0x100_0000 * Bits(v, 0x100_0000, 0x100)
  {
    Split(v, 0x100, 0x100_0000);
    Split(v / 0x100, 0x100, 0x1_0000);
    Split(v, 0x100, 0x100);
    Split(v / 0x1_0000, 0x100, 0x100);
    Split(v, 0x1_0000, 0x100);
  }

  /** A 24-bit value is the sum of its three bytes at their weights. */
  lemma ThreeBytes(v: nat)
    ensures v % 0x100_0000 == Bits(v, 1, 0x100) + 0x100 * Bits(v, 0x100, 0x100)
                              + 0x1_0000 * Bits(v, 0x1_0000, 0x100)
  {
    Split(v, 0x100, 0x1_0000);
    Split(v / 0x100, 0x100, 0x100);
    Split(v, 0x100, 0x100);
  }

  /** A 32-bit value is the sum of its two 16-bit halves at their weights. */
  lemma TwoHalves(v: nat)
    ensures v % Two32 == Bits(v, 1, 0x1_0000) + 0x1_0000 * Bits(v, 0x1_0000, 0x1_0000)
  {
    Split(v, 0x1_0000, 0x1_0000);
  }

  /** The field of `size` values that starts at the bit position whose
      weight is `unit`: `(v >> k) & (size - 1)` for `unit == 2^k`. */
  function Bits(v: nat, unit: nat, size: nat): (r: nat)
    requires unit > 0 && size > 0
    ensures r < size
  {
    (v / unit) % size
  }

  /** Quotient and remainder are determined by the division equation. */
  lemma DivModUnique(v: int, d: int, q: int, r: int)
    requires d > 0 && v == q * d + r && 0 <= r < d
    ensures q == v / d && r == v % d
  {
    var q0, r0 := v / d, v % d;
    assert v == q0 * d + r0;
    assert (q - q0) * d == r0 - r;
    MulAwayFromZero(q - q0, d);
  }

  /** The quotient times the divisor does not exceed the dividend. */
  lemma QuotientBelow(v: nat, d: nat)
    requires d > 0
    ensures (v / d) * d <= v
  {
    assert v == (v / d) * d + v % d;
  }

  lemma MulAwayFromZero(x: int, d: int)
    requires d > 0
    ensures x >= 1 ==> x * d >= d
    ensures x <= -1 ==> x * d <= -d
  {
    if x >= 1 {
      assert x * d == (x - 1) * d + d;
      assert (x - 1) * d >= 0;
    } else if x <= -1 {
      assert x * d == (x + 1) * d - d;
      assert (x + 1) * d <= 0;
    }
  }

  /** Splitting a value at a digit boundary of a mixed radix `a`, `b`. */
  lemma Split(v: nat, a: nat, b: nat)
    requires a > 0 && b > 0
    ensures v % (a * b) == v % a + a * ((v / a) % b)
    ensures v / (a * b) == (v / a) / b
  {
    var q, r := v / a, v % a;
    var q2, r2 := q / b, q % b;
    assert a * r2 <= a * (b - 1);
    assert v == q2 * (a * b) + (a * r2 + r) by {
      assert v == q * a + r;
      assert q == q2 * b + r2;
      calc {
        q * a;
        (q2 * b + r2) * a;
        q2 * (a * b) + a * r2;
      }
    }
    DivModUnique(v, a * b, q2, a * r2 + r);
  }
}
