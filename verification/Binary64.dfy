/**
 The two forms in `languages/cxx/t/higher_bit.cpp` that let the floating-point unit find the highest bit. A double
 is the pair of its two 32-bit words, encoded as in section 3.4 of IEEE 754-2019. The machine's subtraction and
 its conversion from an unsigned integer are parameters: all that is asked of them is correct rounding.
 */
module Binary64 {
  import opened Bits
  import opened BitLength

  /** The two words of the union: `asInt[0]` and `asInt[1]` on a little-endian machine. */
  datatype Words = Words(lo: uint32, hi: uint32)

  predicate Negative(d: Words) {
    d.hi >= 0x8000_0000
  }

  /** The upper word without its part of the fraction: `asInt[1] >> 20`. */
  function HighPart(d: Words): nat {
    d.hi / 0x10_0000
  }

  function Exponent(d: Words): nat {
    HighPart(d) % 0x800
  }

  function Fraction(d: Words): nat {
    d.hi % 0x10_0000 * 0x1_0000_0000 + d.lo
  }

  predicate Finite(d: Words) {
    Exponent(d) < 0x7FF
  }

  const HIDDEN: nat := 0x10_0000_0000_0000  // the bit above the fraction

  /** The absolute value of a finite double in units of two to the power -1074, the smallest positive one. */
  function Magnitude(d: Words): nat {
    MagnitudeOf(Exponent(d), Fraction(d))
  }

  function MagnitudeOf(exponent: nat, fraction: nat): nat {
    if exponent == 0 then fraction else (HIDDEN + fraction) * Pow2(exponent - 1)
  }

  function Scaled(d: Words): int {
    var m: int := Magnitude(d);
    if Negative(d) then -m else m
  }

  ghost function UnitExponent(): nat {
    var k: nat :| k == 1074; k
  }

  /** The integer `n` in those units. */
  ghost function OfInteger(n: nat): nat {
    n * Pow2(UnitExponent())
  }

  function Distance(x: int, y: int): nat {
    if x < y then y - x else x - y
  }

  /** `d` is a correctly rounded result: no finite double is closer to the exact one. */
  ghost predicate Nearest(exact: int, d: Words) {
    && Finite(d)
    && forall e: Words :: Finite(e) ==> Distance(Scaled(d), exact) <= Distance(Scaled(e), exact)
  }

  ghost predicate InRange(exact: int) {
    exists e: Words :: Finite(e) && Distance(exact, 0) <= Magnitude(e)
  }

  ghost predicate SubtractsAt(sub: (Words, Words) -> Words, a: Words, b: Words) {
    Finite(a) && Finite(b) && InRange(Scaled(a) - Scaled(b)) ==> Nearest(Scaled(a) - Scaled(b), sub(a, b))
  }

  /** Subtraction is correctly rounded wherever the exact difference is in the range of the format. */
  ghost predicate Subtracts(sub: (Words, Words) -> Words) {
    forall a: Words, b: Words :: SubtractsAt(sub, a, b)
  }

  /** Zero converts to the positive one. */
  ghost predicate Converts(convert: uint32 -> Words) {
    forall n: uint32 :: Nearest(OfInteger(n), convert(n)) && !Negative(convert(n))
  }

  /** Some finite double is nearest. */
  lemma NearestExists(exact: int, start: Words) returns (d: Words)
    requires Finite(start)
    ensures Nearest(exact, d)
    decreases Distance(Scaled(start), exact)
  {
    d := start;
    if !Nearest(exact, d) {
      var e: Words :| Finite(e) && Distance(Scaled(e), exact) < Distance(Scaled(d), exact);
      d := NearestExists(exact, e);
    }
  }

  ghost function Rounded(exact: int): (d: Words)
    ensures Nearest(exact, d)
  {
    assert exists d: Words :: Nearest(exact, d) by {
      var d := NearestExists(exact, Words(0, 0));
    }
    var d: Words :| Nearest(exact, d); d
  }

  ghost function RoundedDifference(a: Words, b: Words): Words {
    Rounded(Scaled(a) - Scaled(b))
  }

  /** There is such a subtraction. */
  lemma SubtractionExists()
    ensures exists sub: (Words, Words) -> Words :: Subtracts(sub)
  {
    forall a: Words, b: Words ensures SubtractsAt(RoundedDifference, a, b) {
      assert Nearest(Scaled(a) - Scaled(b), RoundedDifference(a, b));
    }
    assert Subtracts(RoundedDifference);
  }

  // ---- integers as doubles ----

  lemma Hidden()
    ensures Pow2(52) == HIDDEN && Pow2(53) == 2 * HIDDEN
  {
    Pow2Sum(20, 32);
    Powers();
  }

  /** The bits of `n` moved up until its highest one is the hidden one. */
  function Aligned(n: uint32): (r: nat)
    requires n > 0
    ensures HIDDEN <= r < 2 * HIDDEN
  {
    AlignedLength(n);
    n * Pow2(53 - Len(n))
  }

  lemma AlignedLength(n: uint32)
    requires n > 0
    ensures Len(n) <= 32 && HIDDEN <= n * Pow2(53 - Len(n)) < 2 * HIDDEN
  {
    LenIsAtMost32(n);
    LenShl(n, 53 - Len(n));
    LenBound(n * Pow2(53 - Len(n)), 53);
    LenBound(n * Pow2(53 - Len(n)), 52);
    Hidden();
  }

  /** The double that equals `n`. */
  function Encoded(n: uint32): Words
    requires n > 0
  {
    LenIsAtMost32(n);
    var fraction := Aligned(n) - HIDDEN;
    Words(fraction % 0x1_0000_0000, (1022 + Len(n)) * 0x10_0000 + fraction / 0x1_0000_0000)
  }

  lemma EncodedFields(n: uint32)
    requires n > 0
    ensures Len(n) <= 32
    ensures !Negative(Encoded(n)) && Exponent(Encoded(n)) == 1022 + Len(n)
    ensures HIDDEN + Fraction(Encoded(n)) == Aligned(n)
  {
    LenIsAtMost32(n);
    var fraction := Aligned(n) - HIDDEN;
    DivModUnique(Encoded(n).hi, 0x10_0000, 1022 + Len(n), fraction / 0x1_0000_0000);
  }

  lemma EncodedValue(n: uint32)
    requires n > 0
    ensures Finite(Encoded(n)) && Scaled(Encoded(n)) == OfInteger(n)
  {
    EncodedFields(n);
    Regrouped(n, 53 - Len(n), 1021 + Len(n), UnitExponent());
  }

  lemma Regrouped(n: nat, j: nat, k: nat, sum: nat)
    requires sum == j + k
    ensures n * Pow2(j) * Pow2(k) == n * Pow2(sum)
  {
    Pow2Sum(j, k);
    Associates(n, Pow2(j), Pow2(k));
  }

  lemma Associates(a: nat, b: nat, c: nat)
    ensures a * b * c == a * (b * c)
  {
  }

  function ExactConversion(n: uint32): Words {
    if n == 0 then Words(0, 0) else Encoded(n)
  }

  lemma ExactConversionNearest(n: uint32)
    ensures Nearest(OfInteger(n), ExactConversion(n)) && !Negative(ExactConversion(n))
  {
    if n > 0 {
      EncodedFields(n);
      EncodedValue(n);
      ExactIsNearest(OfInteger(n), Encoded(n));
    } else {
      ZeroNearest(Words(0, 0));
    }
  }

  lemma ExactIsNearest(exact: int, d: Words)
    requires Finite(d) && Scaled(d) == exact
    ensures Nearest(exact, d)
  {
  }

  lemma ZeroNearest(d: Words)
    requires d.lo == 0 && d.hi == 0
    ensures Nearest(OfInteger(0), d) && !Negative(d)
  {
    ZeroScaled(d);
    NoUnits();
    ExactIsNearest(0, d);
  }

  lemma ZeroScaled(d: Words)
    requires d.lo == 0 && d.hi == 0
    ensures Finite(d) && !Negative(d) && Scaled(d) == 0
  {
    ZeroFields(d);
    SmallestMagnitude(Exponent(d), Fraction(d));
  }

  lemma SmallestMagnitude(exponent: nat, fraction: nat)
    requires exponent == 0
    ensures MagnitudeOf(exponent, fraction) == fraction
  {
  }

  lemma ZeroFields(d: Words)
    requires d.lo == 0 && d.hi == 0
    ensures !Negative(d) && Exponent(d) == 0 && Fraction(d) == 0
  {
  }

  lemma NoUnits()
    ensures OfInteger(0) == 0
  {
  }

  /** There is such a conversion. */
  lemma ConversionExists()
    ensures exists convert: uint32 -> Words :: Converts(convert)
  {
    forall n: uint32 ensures Nearest(OfInteger(n), ExactConversion(n)) && !Negative(ExactConversion(n)) {
      ExactConversionNearest(n);
    }
    assert Converts(ExactConversion);
  }

  /** The biased exponent of a double that equals a positive integer is 1022 more than the integer's length. */
  lemma ExponentIsLength(d: Words, n: uint32)
    requires n > 0 && Finite(d) && Scaled(d) == OfInteger(n)
    ensures !Negative(d) && Exponent(d) == 1022 + Len(n)
  {
    var unit := UnitExponent();
    LenShl(n, unit);
    assert Len(OfInteger(n)) == Len(n) + unit;
    assert Magnitude(d) == OfInteger(n);
    MagnitudeLength(d);
  }

  lemma MagnitudeLength(d: Words)
    ensures Exponent(d) == 0 ==> Len(Magnitude(d)) <= 52
    ensures Exponent(d) != 0 ==> Len(Magnitude(d)) == 52 + Exponent(d)
  {
    var f, e := Fraction(d), Exponent(d);
    Hidden();
    if e == 0 {
      LenBound(f, 52);
    } else {
      LenBound(HIDDEN + f, 53);
      LenBound(HIDDEN + f, 52);
      LenShl(HIDDEN + f, e - 1);
    }
  }

  /** Rounding correctly gives the exact result where that is a double. */
  lemma ExactIfRepresentable(exact: int, d: Words, e: Words)
    requires Nearest(exact, d) && Finite(e) && Scaled(e) == exact
    ensures Scaled(d) == exact
  {
  }

  /** What the upper word of a double nearest to a positive integer has above its fraction. */
  lemma HighField(d: Words, n: uint32)
    requires n > 0 && Nearest(OfInteger(n), d)
    ensures Len(n) <= 32 && HighPart(d) == 1022 + Len(n)
  {
    EncodedValue(n);
    LenIsAtMost32(n);
    ExactIfRepresentable(OfInteger(n), d, Encoded(n));
    ExponentIsLength(d, n);
    NonNegativeField(d);
  }

  lemma NonNegativeField(d: Words)
    requires !Negative(d)
    ensures HighPart(d) == Exponent(d)
  {
  }

  // ---- the two forms ----

  /** Subtracting 2^52 from 2^52 + num, put together from its two words, leaves the double num. */
  method Bits1(num: uint32, sub: (Words, Words) -> Words) returns (r: uint32)
    requires Subtracts(sub)
    ensures r == Len(num)
  {
    if num == 0 {
      return 0;
    }
    var t := Words(num, 0x43300000);
    Subtracted(num, sub, t, Words(0, 0x43300000));
    t := sub(t, Words(0, 0x43300000));
    r := U32(HighPart(t) - 0x3FF + 1);
  }

  lemma Subtracted(num: uint32, sub: (Words, Words) -> Words, a: Words, b: Words)
    requires num > 0 && Subtracts(sub) && a == Words(num, 0x43300000) && b == Words(0, 0x43300000)
    ensures Len(num) <= 32 && HighPart(sub(a, b)) == 1022 + Len(num)
  {
    SubtractionIsExact(num, a, b);
    assert SubtractsAt(sub, a, b);
    HighField(sub(a, b), num);
  }

  lemma SubtractionIsExact(num: uint32, a: Words, b: Words)
    requires num > 0 && a == Words(num, 0x43300000) && b == Words(0, 0x43300000)
    ensures Finite(a) && Finite(b) && Scaled(a) - Scaled(b) == OfInteger(num)
    ensures Finite(Encoded(num)) && Scaled(Encoded(num)) == OfInteger(num)
    ensures InRange(OfInteger(num))
  {
    EncodedValue(num);
    ScaledDifference(a, b, num, 0);
    RepresentableInRange(OfInteger(num), Encoded(num));
  }

  lemma ScaledDifference(a: Words, b: Words, m: uint32, n: uint32)
    requires n <= m && a == Words(m, 0x43300000) && b == Words(n, 0x43300000)
    ensures Finite(a) && Finite(b) && Scaled(a) - Scaled(b) == OfInteger(m - n)
  {
    TwoTo52Plus(a, m);
    TwoTo52Plus(b, n);
    DifferenceOfSums(HIDDEN, m, n, Pow2(UnitExponent()));
  }

  lemma DifferenceOfSums(h: nat, m: nat, n: nat, unit: nat)
    ensures (h + m) * unit - (h + n) * unit == (m - n) * unit
  {
  }

  lemma RepresentableInRange(exact: int, e: Words)
    requires Finite(e) && Scaled(e) == exact
    ensures InRange(exact)
  {
    assert Distance(exact, 0) <= Magnitude(e);
  }

  lemma TwoTo52Plus(d: Words, n: uint32)
    requires d == Words(n, 0x43300000)
    ensures Finite(d) && !Negative(d) && Magnitude(d) == (HIDDEN + n) * Pow2(UnitExponent())
  {
    assert Exponent(d) == 1075 && Fraction(d) == n;
  }

  method Bits5(num: uint32, convert: uint32 -> Words) returns (r: uint32)
    requires Converts(convert)
    ensures num > 0 ==> r == Len(num)
    ensures num == 0 ==> r == 0xFFFF_FC02
  {
    var t := convert(num);
    ConvertedField(num, convert);
    r := U32(HighPart(t) - 0x400 + 2);
  }

  lemma ZeroHighPart(d: Words)
    requires d.hi == 0
    ensures HighPart(d) == 0
  {
  }

  lemma ConvertedField(num: uint32, convert: uint32 -> Words)
    requires Converts(convert)
    ensures num > 0 ==> Len(num) <= 32
    ensures HighPart(convert(num)) == if num > 0 then 1022 + Len(num) else 0
  {
    if num > 0 {
      HighField(convert(num), num);
    } else {
      ZeroIsZero(convert(num));
      ZeroHighPart(convert(num));
    }
  }

  lemma ZeroIsZero(d: Words)
    requires Nearest(OfInteger(0), d) && !Negative(d)
    ensures d.lo == 0 && d.hi == 0
  {
    var zero := Words(0, 0);
    ZeroScaled(zero);
    NoUnits();
    ExactIfRepresentable(0, d, zero);
    OnlyZeroMagnitude(Exponent(d), Fraction(d));
    OnlyZeroFields(d);
  }

  lemma OnlyZeroMagnitude(exponent: nat, fraction: nat)
    requires MagnitudeOf(exponent, fraction) == 0
    ensures exponent == 0 && fraction == 0
  {
    if exponent != 0 {
      Positive(HIDDEN + fraction, Pow2(exponent - 1));
    }
  }

  lemma OnlyZeroFields(d: Words)
    requires !Negative(d) && Exponent(d) == 0 && Fraction(d) == 0
    ensures d.lo == 0 && d.hi == 0
  {
  }

  lemma Positive(a: nat, b: nat)
    requires a > 0 && b > 0
    ensures a * b > 0
  {
  }
}
