/**
 * Bytes, 16-bit little-endian fields and bit arithmetic, as the driver sees
 * them through `Uint8Array` and `DataView`.
 */
module Bytes {

  /** One element of a `Uint8Array`. */
  type Byte = b: int | 0 <= b < 0x100

  /** One UTF-16 code unit of a JavaScript string (what `charCodeAt` returns). */
  type CodeUnit = u: int | 0 <= u < 0x1_0000

  /** A JavaScript string: a sequence of UTF-16 code units. */
  type JsString = seq<CodeUnit>

  function Pow2(n: nat): (r: nat)
    ensures r >= 1
  {
    if n == 0 then 1 else 2 * Pow2(n - 1)
  }

  /** Bit `k` of `x`, what JavaScript's `(x >> k) & 1` gives while `x` and `k` stay inside 32 bits. */
  function Bit(x: int, k: nat): (r: nat)
    ensures r < 2
    decreases k
  {
    if k == 0 then x % 2 else Bit(x / 2, k - 1)
  }

  /** `DataView.getUint16(offset, true)` on the bytes `lo`, `hi`. */
  function U16(lo: Byte, hi: Byte): (r: nat)
    ensures r < 0x1_0000
    ensures r % 0x100 == lo && r / 0x100 == hi
  {
    lo + 0x100 * hi
  }

  /** `DataView.getInt16(offset, true)`: the two's-complement reading of the same bytes. */
  function I16(lo: Byte, hi: Byte): (r: int)
    ensures -0x8000 <= r < 0x8000
    ensures r % 0x1_0000 == U16(lo, hi)
    ensures r < 0 <==> hi >= 0x80
  {
    var u := U16(lo, hi);
    if u >= 0x8000 then u - 0x1_0000 else u
  }

  /** ECMAScript ToInt16: the integer in [-2^15, 2^15) congruent to `v` modulo 2^16. */
  function ToInt16(v: int): (r: int)
    ensures -0x8000 <= r < 0x8000
    ensures (r - v) % 0x1_0000 == 0
    ensures -0x8000 <= v < 0x8000 ==> r == v
  {
    var m := v % 0x1_0000;
    if m >= 0x8000 then m - 0x1_0000 else m
  }

  /** Byte 0 left by `DataView.setInt16(0, v, true)` (and by `setUint16`). */
  function LowByte(v: int): Byte
  {
    (v % 0x1_0000) % 0x100
  }

  /** Byte 1 left by `DataView.setInt16(0, v, true)` (and by `setUint16`). */
  function HighByte(v: int): Byte
  {
    (v % 0x1_0000) / 0x100
  }

  /** Writing `v` as an int16 and reading it back yields ToInt16(v): `v` itself when it is in range. */
  lemma I16RoundTrip(v: int)
    ensures I16(LowByte(v), HighByte(v)) == ToInt16(v)
    ensures -0x8000 <= v < 0x8000 ==> I16(LowByte(v), HighByte(v)) == v
  {
    var m := v % 0x1_0000;
    assert U16(LowByte(v), HighByte(v)) == m;
  }

  /** Writing a 16-bit unsigned value and reading it back as uint16 is the identity. */
  lemma U16RoundTrip(v: int)
    requires 0 <= v < 0x1_0000
    ensures U16(LowByte(v), HighByte(v)) == v
  {
  }

  /** The bytes of a decoded uint16 re-encode to the same bytes. */
  lemma U16Bytes(lo: Byte, hi: Byte)
    ensures LowByte(U16(lo, hi)) == lo && HighByte(U16(lo, hi)) == hi
  {
  }

  /** The bytes of a decoded int16 re-encode to the same bytes. */
  lemma I16Bytes(lo: Byte, hi: Byte)
    ensures LowByte(I16(lo, hi)) == lo && HighByte(I16(lo, hi)) == hi
  {
    var u := U16(lo, hi);
    assert I16(lo, hi) % 0x1_0000 == u;
  }

  /** The four lowest bits, as repeated halving. */
  lemma LowBits(x: int)
    ensures Bit(x, 0) == x % 2 && Bit(x, 1) == (x / 2) % 2
    ensures Bit(x, 2) == (x / 2 / 2) % 2 && Bit(x, 3) == (x / 2 / 2 / 2) % 2
  {
    assert Bit(x, 2) == Bit(x / 2 / 2, 0);
    assert Bit(x, 3) == Bit(x / 2 / 2 / 2, 0);
  }

  /** The four lowest bits of a number written as `8q` plus three bits. */
  lemma Assemble(x: int, q: int, b2: int, b1: int, b0: int)
    requires 0 <= b2 < 2 && 0 <= b1 < 2 && 0 <= b0 < 2
    requires x == 8 * q + 4 * b2 + 2 * b1 + b0
    ensures Bit(x, 0) == b0 && Bit(x, 1) == b1 && Bit(x, 2) == b2 && Bit(x, 3) == q % 2
  {
    DivUnique(x, 2, 4 * q + 2 * b2 + b1, b0);
    DivUnique(x / 2, 2, 2 * q + b2, b1);
    DivUnique(x / 2 / 2, 2, q, b2);
    LowBits(x);
  }

  // ---------------------------------------------------------------------
  // Division facts used by the bit-level proofs.

  lemma MulPos(a: int, b: int)
    requires a >= 0 && b >= 0
    ensures a * b >= 0
  {
  }

  lemma MulAtLeast(d: int, k: int)
    requires d > 0
    ensures k >= 1 ==> d * k >= d
  {
    if k >= 1 {
      MulPos(d, k - 1);
      assert d * k == d + d * (k - 1);
    }
  }

  /** A multiple of `d` strictly between `-d` and `d` is zero. */
  lemma SmallMultiple(d: int, k: int)
    requires d > 0 && -d < d * k < d
    ensures k == 0
  {
    MulAtLeast(d, k);
    MulAtLeast(d, -k);
    assert d * (-k) == -(d * k);
  }

  /** A natural number divided by a positive one is natural. */
  lemma DivNat(x: nat, d: int)
    requires d > 0
    ensures x / d >= 0
  {
    var q := x / d;
    MulAtLeast(d, -q);
    assert d * (-q) == -(d * q);
  }

  lemma DivUnique(x: int, d: int, q: int, r: int)
    requires d > 0 && x == d * q + r && 0 <= r < d
    ensures x / d == q && x % d == r
  {
    var q0, r0 := x / d, x % d;
    assert x == d * q0 + r0;
    assert d * (q0 - q) == r - r0 by {
      assert d * (q0 - q) == d * q0 - d * q;
    }
    SmallMultiple(d, q0 - q);
  }

  lemma DivDiv(x: nat, a: nat, b: nat)
    requires a > 0 && b > 0
    ensures x / (a * b) == (x / a) / b
  {
    var q, r := x / a, x % a;
    var q2, r2 := q / b, q % b;
    assert x == a * q + r;
    assert q == b * q2 + r2;
    assert a * q == (a * b) * q2 + a * r2 by {
      assert a * q == a * (b * q2 + r2);
      assert a * (b * q2 + r2) == a * (b * q2) + a * r2;
      assert a * (b * q2) == (a * b) * q2;
    }
    MulPos(a, b - 1 - r2);
    assert a * r2 + a * (b - 1 - r2) == a * b - a by {
      assert a * (b - 1 - r2) == a * b - a - a * r2;
    }
    MulPos(a, r2);
    DivUnique(x, a * b, q2, a * r2 + r);
  }

  lemma {:induction false} BitOfZero(k: nat)
    ensures Bit(0, k) == 0
    decreases k
  {
    if k > 0 {
      BitOfZero(k - 1);
    }
  }

  /** Bits at or above `n` of a number below 2^n are zero. */
  lemma {:induction false} BitAbove(x: nat, n: nat, k: nat)
    requires x < Pow2(n) && n <= k
    ensures Bit(x, k) == 0
    decreases n
  {
    if n == 0 {
      BitOfZero(k);
    } else {
      BitAbove(x / 2, n - 1, k - 1);
    }
  }

  /** `(y % 2^n) >> 1` is `(y >> 1) % 2^(n-1)`. */
  lemma ModHalf(y: nat, n: nat)
    requires n >= 1
    ensures (y % Pow2(n)) / 2 == (y / 2) % Pow2(n - 1)
  {
    var p := Pow2(n - 1);
    var q, m := y / Pow2(n), y % Pow2(n);
    assert y == (2 * p) * q + m;
    assert y == 2 * (p * q + m / 2) + m % 2;
    DivUnique(y, 2, p * q + m / 2, m % 2);
    DivUnique(y / 2, p, q, m / 2);
  }

  /** `(y % 2^n) % 2` is `y % 2` for `n >= 1`. */
  lemma ModParity(y: nat, n: nat)
    requires n >= 1
    ensures (y % Pow2(n)) % 2 == y % 2
  {
    var p := Pow2(n - 1);
    var q, m := y / Pow2(n), y % Pow2(n);
    assert y == 2 * (p * q + m / 2) + m % 2;
    DivUnique(y, 2, p * q + m / 2, m % 2);
  }

  /** Masking with `2^n - 1` keeps the bits below `n`. */
  lemma {:induction false} BitOfLow(y: nat, n: nat, j: nat)
    requires j < n
    ensures Bit(y % Pow2(n), j) == Bit(y, j)
    decreases j
  {
    if j == 0 {
      ModParity(y, n);
    } else {
      ModHalf(y, n);
      BitOfLow(y / 2, n - 1, j - 1);
    }
  }

  /** Masking with 0x1F keeps bits 0..4. */
  lemma BitOfLow5(y: nat, j: nat)
    requires j < 5
    ensures Bit(y % 32, j) == Bit(y, j)
  {
    assert Pow2(5) == 32 by {
      assert Pow2(1) == 2;
      assert Pow2(2) == 4;
      assert Pow2(3) == 8;
      assert Pow2(4) == 16;
    }
    BitOfLow(y, 5, j);
  }

  /** Bit `j` of `x >> a` is bit `a + j` of `x`. */
  lemma {:induction false} BitOfShift(x: nat, a: nat, j: nat)
    ensures Bit(x / Pow2(a), j) == Bit(x, a + j)
    decreases a
  {
    if a > 0 {
      BitOfShift(x / 2, a - 1, j);
      DivDiv(x, 2, Pow2(a - 1));
    }
  }

  /** The arithmetic reading of a bit: `floor(x / 2^k) mod 2`. */
  lemma BitDiv(x: nat, k: nat)
    ensures Bit(x, k) == (x / Pow2(k)) % 2
  {
    BitOfShift(x, k, 0);
  }

  /** Bit `j` of `(x >> a) & 0x1F` is bit `a + j` of `x`, for `j < 5`. */
  lemma BitOfField5(x: nat, a: nat, j: nat)
    requires j < 5
    ensures Bit((x / Pow2(a)) % 32, j) == Bit(x, a + j)
  {
    DivNat(x, Pow2(a));
    var y := x / Pow2(a);
    BitOfLow5(y, j);
    BitOfShift(x, a, j);
    assert Bit(y % 32, j) == Bit(y, j) == Bit(x, a + j);
  }
}
