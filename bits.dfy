/** Bit tests on bytes, as the header and tile decoders use them. */
module Bits {
  import opened Common

  function Pow2(n: nat): (p: nat)
    ensures p >= 1
  {
    if n == 0 then 1 else 2 * Pow2(n - 1)
  }

  /** `(b >> i) & 1 == 1`: bit i of a byte. */
  predicate Bit(b: byte, i: nat)
    requires i < 8
  {
    (b / Pow2(i)) % 2 == 1
  }

  /** Bits 0 to 3 by division with a constant. */
  lemma LowBits(x: byte)
    ensures (Bit(x, 0) <==> x % 2 == 1) && (Bit(x, 1) <==> (x / 2) % 2 == 1)
    ensures (Bit(x, 2) <==> (x / 4) % 2 == 1) && (Bit(x, 3) <==> (x / 8) % 2 == 1)
  {
    assert Pow2(0) == 1 && Pow2(1) == 2 && Pow2(2) == 4 && Pow2(3) == 8;
  }

  /** Division by a power of two up to 16 with a known quotient and
      remainder. */
  lemma DivModBy(x: nat, q: nat, r: nat, d: nat)
    requires d in {1, 2, 4, 8, 16}
    requires r < d && x == q * d + r
    ensures x / d == q && x % d == r
  {
    if d == 1 {
      assert x == q * 1 + r;
    } else if d == 2 {
      assert x == q * 2 + r;
    } else if d == 4 {
      assert x == q * 4 + r;
    } else if d == 8 {
      assert x == q * 8 + r;
    } else {
      assert x == q * 16 + r;
    }
  }

  /** The byte with high nibble `hi` and bits 3 to 0 equal to `b3`..`b0`
      has exactly those bits. */
  lemma NibbleBits(hi: nat, b3: nat, b2: nat, b1: nat, b0: nat)
    requires hi < 16 && b3 < 2 && b2 < 2 && b1 < 2 && b0 < 2
    ensures var x := hi * 16 + 8 * b3 + 4 * b2 + 2 * b1 + b0;
      && x < 256
      && x / 16 == hi
      && (Bit(x, 3) <==> b3 == 1)
      && (Bit(x, 2) <==> b2 == 1)
      && (Bit(x, 1) <==> b1 == 1)
      && (Bit(x, 0) <==> b0 == 1)
  {
    var x := hi * 16 + 8 * b3 + 4 * b2 + 2 * b1 + b0;
    LowBits(x);
    DivModBy(x, hi, 8 * b3 + 4 * b2 + 2 * b1 + b0, 16);
    QuotientBit(x, 8, b3, 4 * b2 + 2 * b1 + b0, hi);
    QuotientBit(x, 4, b2, 2 * b1 + b0, 2 * hi + b3);
    QuotientBit(x, 2, b1, b0, 4 * hi + 2 * b3 + b2);
    QuotientBit(x, 1, b0, 0, 8 * hi + 4 * b3 + 2 * b2 + b1);
  }

  /** A number made of a remainder below `d`, one bit worth `d` and an even
      multiple of `d` has that bit as the parity of its quotient by `d`. */
  lemma QuotientBit(x: nat, d: nat, bit: nat, r: nat, k: nat)
    requires d in {1, 2, 4, 8}
    requires r < d && bit < 2 && x == r + d * bit + 2 * d * k
    ensures (x / d) % 2 == bit
  {
    DivModBy(x, bit + 2 * k, r, d);
    DivModBy(bit + 2 * k, k, bit, 2);
  }
}
