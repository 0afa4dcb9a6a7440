/**
 * IEEE 754 bit patterns. A MicroPython build with double-precision floats
 * keeps every `float` as a binary64; a CBOR single-precision float item is
 * widened to it (`mp_obj_new_float_from_f`, the C conversion from `float`
 * to `double`). Widening is exact, so it is pure bit manipulation.
 */
module Floats {

  function Pow2(n: nat): (r: nat)
    ensures r >= 1
  {
    if n == 0 then 1 else 2 * Pow2(n - 1)
  }

  lemma {:induction false} Pow2Add(a: nat, b: nat)
    ensures Pow2(a + b) == Pow2(a) * Pow2(b)
    decreases a
  {
    if a > 0 {
      Pow2Add(a - 1, b);
    }
  }

  lemma {:induction false} Pow2Monotone(a: nat, b: nat)
    requires a <= b
    ensures Pow2(a) <= Pow2(b)
    decreases b
  {
    if a < b {
      Pow2Monotone(a, b - 1);
    }
  }

  lemma Pow2Constants()
    ensures Pow2(23) == 0x80_0000 && Pow2(29) == 0x2000_0000 && Pow2(52) == 0x10_0000_0000_0000
  {
    assert Pow2(8) == 256;
    Pow2Add(8, 8);
    assert Pow2(7) == 128;
    Pow2Add(16, 7);
    assert Pow2(13) == 0x2000;
    Pow2Add(16, 13);
    Pow2Add(23, 29);
  }

  /** The number of binary digits of a positive number. */
  function BitLength(x: nat): (k: nat)
    requires x >= 1
    ensures 1 <= k && Pow2(k - 1) <= x < Pow2(k)
  {
    if x == 1 then 1 else 1 + BitLength(x / 2)
  }

  const SingleSignBit: nat := 0x8000_0000
  const DoubleSignBit: nat := 0x8000_0000_0000_0000

  // Fields of a binary32 pattern: sign, 8-bit biased exponent, 23-bit fraction.
  function SingleSign(b: nat): nat { b / SingleSignBit }
  function SingleExponent(b: nat): nat { (b / 0x80_0000) % 0x100 }
  function SingleFraction(b: nat): nat { b % 0x80_0000 }

  // Fields of a binary64 pattern: sign, 11-bit biased exponent, 52-bit fraction.
  function DoubleSign(d: nat): nat { d / DoubleSignBit }
  function DoubleExponent(d: nat): nat { (d / 0x10_0000_0000_0000) % 0x800 }
  function DoubleFraction(d: nat): nat { d % 0x10_0000_0000_0000 }

  predicate SingleIsNaN(b: nat) { SingleExponent(b) == 0xff && SingleFraction(b) != 0 }
  predicate DoubleIsNaN(d: nat) { DoubleExponent(d) == 0x7ff && DoubleFraction(d) != 0 }

  /** The binary64 pattern with the given fields. */
  function DoubleOf(sign: nat, exponent: nat, fraction: nat): (d: nat)
    requires sign < 2 && exponent < 0x800 && fraction < 0x10_0000_0000_0000
    ensures d < 0x1_0000_0000_0000_0000
  {
    sign * DoubleSignBit + exponent * 0x10_0000_0000_0000 + fraction
  }

  /** The fields of DoubleOf's pattern are the ones it was built from. */
  lemma DoubleOfFields(sign: nat, exponent: nat, fraction: nat)
    requires sign < 2 && exponent < 0x800 && fraction < 0x10_0000_0000_0000
    ensures DoubleSign(DoubleOf(sign, exponent, fraction)) == sign
    ensures DoubleExponent(DoubleOf(sign, exponent, fraction)) == exponent
    ensures DoubleFraction(DoubleOf(sign, exponent, fraction)) == fraction
  {
    var d := DoubleOf(sign, exponent, fraction);
    var high := sign * 0x800 + exponent;
    assert d == high * 0x10_0000_0000_0000 + fraction;
    assert d / 0x10_0000_0000_0000 == high;
    assert high % 0x800 == exponent;
  }

  lemma SingleFieldBounds(b: nat)
    requires b < 0x1_0000_0000
    ensures SingleSign(b) < 2 && SingleExponent(b) < 0x100 && SingleFraction(b) < 0x80_0000
  {
  }

  /**
   * A subnormal binary32 number, fraction * 2^-149, is a normal binary64:
   * the leading one of the fraction becomes the implicit bit, and the
   * exponent is lowered by the length of the shift.
   */
  function SubnormalExponent(fraction: nat): (e: nat)
    requires 1 <= fraction < 0x80_0000
    ensures 874 <= e <= 896
  {
    SubnormalShift(fraction, BitLength(fraction));
    BitLength(fraction) + 873
  }

  /** The binary64 fraction field of a widened subnormal binary32 number. */
  function SubnormalFraction(fraction: nat): (f: nat)
    requires 1 <= fraction < 0x80_0000
    ensures f < 0x10_0000_0000_0000
  {
    SubnormalShift(fraction, BitLength(fraction));
    ShiftLeft(fraction - Pow2(BitLength(fraction) - 1), 53 - BitLength(fraction))
  }

  /** `x` shifted left by `n` bits. */
  function ShiftLeft(x: nat, n: nat): nat {
    x * Pow2(n)
  }

  /** The shift that makes a binary32 fraction's leading one the implicit bit of a binary64. */
  lemma SubnormalShift(fraction: nat, k: nat)
    requires 1 <= fraction < 0x80_0000 && k == BitLength(fraction)
    ensures 1 <= k <= 23
    ensures fraction - Pow2(k - 1) >= 0
    ensures ShiftLeft(fraction - Pow2(k - 1), 53 - k) < 0x10_0000_0000_0000
  {
    BitLengthBelow(fraction, k);
    TopBitRemoved(fraction, k - 1);
    ShiftBelow(fraction - Pow2(k - 1), k - 1, 53 - k);
    Pow2Constants();
  }

  /** A binary32 fraction has at most 23 binary digits. */
  lemma BitLengthBelow(x: nat, k: nat)
    requires 1 <= x < 0x80_0000 && k == BitLength(x)
    ensures 1 <= k <= 23 && Pow2(k - 1) <= x < Pow2(k)
  {
    Pow2Constants();
    if k > 23 {
      Pow2Monotone(23, k - 1);
    }
  }

  /** Removing the leading one of a number of n + 1 binary digits leaves one below 2^n. */
  lemma TopBitRemoved(x: nat, n: nat)
    requires Pow2(n) <= x < Pow2(n + 1)
    ensures 0 <= x - Pow2(n) < Pow2(n)
  {
  }

  /** A number below 2^m shifted left by n bits is below 2^(m+n). */
  lemma ShiftBelow(x: nat, m: nat, n: nat)
    requires x < Pow2(m)
    ensures ShiftLeft(x, n) < Pow2(m + n)
  {
    Pow2Add(m, n);
    MultiplyBelow(x, Pow2(m), Pow2(n));
  }

  lemma MultiplyBelow(a: nat, b: nat, c: nat)
    requires a < b && c >= 1
    ensures a * c < b * c
  {
  }

  /**
   * The binary64 pattern of the same number as the binary32 pattern `b`.
   * A normal number gets its exponent rebiased (127 to 1023) and its
   * fraction shifted up by 29 bits; a subnormal one is renormalised; a NaN
   * keeps its payload and becomes quiet, as the conversion instructions of
   * x86 and ARM make it.
   */
  function WidenSingle(b: nat): (d: nat)
    requires b < 0x1_0000_0000
    ensures d < 0x1_0000_0000_0000_0000
  {
    SingleFieldBounds(b);
    WidenFields(SingleSign(b), SingleExponent(b), SingleFraction(b))
  }

  /** WidenSingle on the three fields of the binary32 pattern. */
  function WidenFields(sign: nat, exponent: nat, fraction: nat): (d: nat)
    requires sign < 2 && exponent < 0x100 && fraction < 0x80_0000
    ensures d < 0x1_0000_0000_0000_0000
  {
    if exponent == 0xff then
      if fraction == 0 then DoubleOf(sign, 0x7ff, 0)
      else
        var quiet := if fraction >= 0x40_0000 then fraction else fraction + 0x40_0000;
        DoubleOf(sign, 0x7ff, quiet * 0x2000_0000)
    else if exponent != 0 then DoubleOf(sign, exponent + 896, fraction * 0x2000_0000)
    else if fraction == 0 then DoubleOf(sign, 0, 0)
    else DoubleOf(sign, SubnormalExponent(fraction), SubnormalFraction(fraction))
  }

  /** Widening keeps the sign, and maps NaNs, infinities and zeros to their own kind. */
  lemma WidenSingleKinds(b: nat)
    requires b < 0x1_0000_0000
    ensures DoubleSign(WidenSingle(b)) == SingleSign(b)
    ensures DoubleIsNaN(WidenSingle(b)) <==> SingleIsNaN(b)
    ensures DoubleExponent(WidenSingle(b)) == 0x7ff <==> SingleExponent(b) == 0xff
    ensures DoubleExponent(WidenSingle(b)) == 0 <==> SingleExponent(b) == 0 && SingleFraction(b) == 0
  {
    SingleFieldBounds(b);
    var sign, exponent, fraction := SingleSign(b), SingleExponent(b), SingleFraction(b);
    var e, f := WidenedFields(sign, exponent, fraction);
    assert WidenSingle(b) == DoubleOf(sign, e, f);
    DoubleOfFields(sign, e, f);
  }

  /**
   * The exponent and fraction fields WidenSingle gives to the binary32
   * fields, and their kinds.
   */
  lemma WidenedFields(sign: nat, exponent: nat, fraction: nat) returns (e: nat, f: nat)
    requires sign < 2 && exponent < 0x100 && fraction < 0x80_0000
    ensures e < 0x800 && f < 0x10_0000_0000_0000
    ensures WidenFields(sign, exponent, fraction) == DoubleOf(sign, e, f)
    ensures e == 0x7ff <==> exponent == 0xff
    ensures e == 0x7ff ==> (f != 0 <==> fraction != 0)
    ensures e == 0 <==> exponent == 0 && fraction == 0
  {
    if exponent == 0xff {
      var quiet := if fraction >= 0x40_0000 then fraction else fraction + 0x40_0000;
      e, f := 0x7ff, if fraction == 0 then 0 else quiet * 0x2000_0000;
    } else if exponent != 0 {
      e, f := exponent + 896, fraction * 0x2000_0000;
    } else if fraction == 0 {
      e, f := 0, 0;
    } else {
      e, f := SubnormalExponent(fraction), SubnormalFraction(fraction);
    }
  }
}
