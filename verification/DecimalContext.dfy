/**
 Arithmetic in Python's default decimal context: every result is rounded half-even to 28
 significant digits. Amounts are compared by value; an exact operand may carry more digits.
 */
module DecimalContext {
  import opened Common
  import opened Decimals
  import opened Amounts

  const PRECISION: nat := 28

  function Fix(a: Amount): Amount {
    Rounded(a, PRECISION, HalfEven)
  }

  function Aligned(a: Amount, exponent: int): nat
    requires exponent <= a.exponent
  {
    a.coefficient * Pow10(a.exponent - exponent)
  }

  function ExactSum(a: Amount, b: Amount): Amount {
    var e := Min(a.exponent, b.exponent);
    Amount(Aligned(a, e) + Aligned(b, e), e)
  }

  predicate AtMost(a: Amount, b: Amount) {
    var e := Min(a.exponent, b.exponent);
    Aligned(a, e) <= Aligned(b, e)
  }

  /** `a - b`, used only where `b` is at most `a`. */
  function ExactDifference(a: Amount, b: Amount): Amount {
    var e := Min(a.exponent, b.exponent);
    Amount(if AtMost(b, a) then Aligned(a, e) - Aligned(b, e) else 0, e)
  }

  function ExactTimes(a: Amount, n: nat): Amount {
    Amount(a.coefficient * n, a.exponent)
  }

  function Plus(a: Amount, b: Amount): Amount {
    Fix(ExactSum(a, b))
  }

  function Minus(a: Amount, b: Amount): Amount {
    Fix(ExactDifference(a, b))
  }

  function Times(a: Amount, n: nat): Amount {
    Fix(ExactTimes(a, n))
  }

  /** Zeros dropped from an exact quotient until its ideal exponent is reached. */
  function WithoutZeros(a: Amount, ideal: int): Amount
    decreases ideal - a.exponent
  {
    if a.exponent < ideal && a.coefficient % 10 == 0
    then WithoutZeros(Amount(a.coefficient / 10, a.exponent + 1), ideal)
    else a
  }

  /** Division by an integer: one digit more than the precision, with a sticky last digit if inexact. */
  function DividedBy(a: Amount, n: nat): Amount
    requires n > 0
  {
    if a.coefficient == 0 then a
    else
      var shift := DigitCount(n) - DigitCount(a.coefficient) + PRECISION + 1;
      var num := if shift >= 0 then a.coefficient * Pow10(shift) else a.coefficient;
      var den := if shift >= 0 then n else n * Pow10(-shift);
      assert den > 0 by { if shift < 0 { ProductPositive(n, Pow10(-shift)); } }
      Fix(Quotient(num, den, a.exponent - shift, a.exponent))
  }

  function Quotient(num: nat, den: nat, exponent: int, ideal: int): Amount
    requires den > 0
  {
    var q: nat, r: nat := num / den, num % den;
    if r == 0 then WithoutZeros(Amount(q, exponent), ideal) else Amount(if q % 5 == 0 then q + 1 else q, exponent)
  }

  // ---------------------------------------------------------------- values

  /** The worth of one unit of a coefficient. */
  function Unit(e: int): (u: real)
    ensures u > 0.0
  {
    if e >= 0 then Pow10(e) as real else 1.0 / Pow10(-e) as real
  }

  lemma ValueUnits(a: Amount)
    ensures Value(a) == a.coefficient as real * Unit(a.exponent)
  {
    var c, e := a.coefficient, a.exponent;
    if e >= 0 {
      assert Den(a) == 1;
      WholeUnits(c, Pow10(e));
    } else {
      assert Pow10(Max(e, 0)) == 1 && Num(a) == c;
      PartUnits(c, Pow10(-e));
    }
  }

  lemma WholeUnits(c: nat, p: nat)
    ensures (c * p) as real / 1.0 == c as real * p as real
  {
    assert (c * p) as real == c as real * p as real;
  }

  lemma PartUnits(c: nat, p: nat)
    requires p > 0
    ensures c as real / p as real == c as real * (1.0 / p as real)
  {
  }

  lemma UnitShift(e: int, k: nat)
    ensures Unit(e + k) == Unit(e) * Pow10(k) as real
  {
    hide Pow10, Unit;
    if e >= 0 {
      UnitShiftUp(e, k);
    } else if e + k < 0 {
      UnitShiftBelow(e, k);
    } else {
      UnitShiftAcross(e, k);
    }
  }

  lemma UnitShiftUp(e: int, k: nat)
    requires e >= 0
    ensures Unit(e + k) == Unit(e) * Pow10(k) as real
  {
    hide Pow10, Unit;
    UnitForms(e);
    UnitForms(e + k);
    PowerProduct(e, k);
  }

  lemma UnitShiftBelow(e: int, k: nat)
    requires e + k < 0
    ensures Unit(e + k) == Unit(e) * Pow10(k) as real
  {
    hide Pow10, Unit;
    UnitForms(e);
    UnitForms(e + k);
    PowerProduct(-e - k, k);
    SmallerUnit(Pow10(-e) as real, Pow10(-e - k) as real, Pow10(k) as real);
  }

  lemma UnitShiftAcross(e: int, k: nat)
    requires e < 0 <= e + k
    ensures Unit(e + k) == Unit(e) * Pow10(k) as real
  {
    hide Pow10, Unit;
    UnitForms(e);
    UnitForms(e + k);
    PowerProduct(e + k, -e);
    LargerUnit(Pow10(k) as real, Pow10(e + k) as real, Pow10(-e) as real);
  }

  lemma UnitForms(e: int)
    ensures e >= 0 ==> Unit(e) == Pow10(e) as real
    ensures e < 0 ==> Unit(e) == 1.0 / Pow10(-e) as real
  {
  }

  lemma SmallerUnit(p: real, x: real, y: real)
    requires x > 0.0 && y > 0.0 && p == x * y
    ensures 1.0 / x == 1.0 / p * y
  {
    assert 1.0 / p * y * x == 1.0;
  }

  lemma LargerUnit(p: real, x: real, y: real)
    requires x > 0.0 && y > 0.0 && p == x * y
    ensures x == 1.0 / y * p
  {
  }

  lemma PowerProduct(a: nat, b: nat)
    ensures Pow10(a + b) as real == Pow10(a) as real * Pow10(b) as real
  {
    Pow10Sum(a, b);
  }

  lemma Regroup(c: real, u: real, p: real)
    ensures c * (u * p) == (c * p) * u
  {
  }

  /** Moving zeros between coefficient and exponent keeps the value. */
  lemma AlignedValue(a: Amount, e: int)
    requires e <= a.exponent
    ensures Value(Amount(Aligned(a, e), e)) == Value(a)
  {
    hide Value, Num, Den, Unit, Pow10;
    var k := a.exponent - e;
    ValueUnits(a);
    ValueUnits(Amount(Aligned(a, e), e));
    UnitShift(e, k);
    assert Aligned(a, e) as real == a.coefficient as real * Pow10(k) as real;
    Regroup(a.coefficient as real, Unit(e), Pow10(k) as real);
  }

  lemma CompareUnits(x: nat, y: nat, u: real)
    requires u > 0.0
    ensures x <= y <==> x as real * u <= y as real * u
    ensures x as real * u + y as real * u == (x + y) as real * u
    ensures x <= y ==> y as real * u - x as real * u == (y - x) as real * u
  {
    ScaleOrder(x as real, y as real, u);
  }

  lemma SumValue(a: Amount, b: Amount)
    ensures Value(ExactSum(a, b)) == Value(a) + Value(b)
  {
    hide Value, Num, Den, Unit, Pow10, Aligned, DigitCount;
    var e := Min(a.exponent, b.exponent);
    AlignedValue(a, e);
    AlignedValue(b, e);
    ValueUnits(Amount(Aligned(a, e), e));
    ValueUnits(Amount(Aligned(b, e), e));
    ValueUnits(ExactSum(a, b));
    CompareUnits(Aligned(a, e), Aligned(b, e), Unit(e));
  }

  lemma OrderValue(a: Amount, b: Amount)
    ensures AtMost(a, b) <==> Value(a) <= Value(b)
  {
    hide Value, Num, Den, Unit, Pow10, Aligned, DigitCount;
    var e := Min(a.exponent, b.exponent);
    AlignedValue(a, e);
    AlignedValue(b, e);
    ValueUnits(Amount(Aligned(a, e), e));
    ValueUnits(Amount(Aligned(b, e), e));
    CompareUnits(Aligned(a, e), Aligned(b, e), Unit(e));
  }

  lemma DifferenceValue(a: Amount, b: Amount)
    requires Value(b) <= Value(a)
    ensures Value(ExactDifference(a, b)) == Value(a) - Value(b)
  {
    hide Value, Num, Den, Unit, Pow10, Aligned, DigitCount;
    var e := Min(a.exponent, b.exponent);
    OrderValue(b, a);
    AlignedValue(a, e);
    AlignedValue(b, e);
    ValueUnits(Amount(Aligned(a, e), e));
    ValueUnits(Amount(Aligned(b, e), e));
    ValueUnits(ExactDifference(a, b));
    CompareUnits(Aligned(b, e), Aligned(a, e), Unit(e));
  }

  lemma TimesUnits(c: nat, n: nat, u: real)
    ensures (c * n) as real * u == n as real * (c as real * u)
  {
    assert (c * n) as real == c as real * n as real;
  }

  lemma TimesValue(a: Amount, n: nat)
    ensures Value(ExactTimes(a, n)) == n as real * Value(a)
  {
    hide Value, Num, Den, Unit, Pow10;
    ValueUnits(a);
    ValueUnits(ExactTimes(a, n));
    TimesUnits(a.coefficient, n, Unit(a.exponent));
  }

  lemma ValueNonNegative(a: Amount)
    ensures Value(a) >= 0.0
    ensures Value(a) == 0.0 <==> a.coefficient == 0
  {
    hide Value, Num, Den, Unit, Pow10;
    ValueUnits(a);
    CompareUnits(0, a.coefficient, Unit(a.exponent));
    CompareUnits(a.coefficient, 0, Unit(a.exponent));
  }

  // ---------------------------------------------------------------- what needs no rounding

  /** A number of at most 28 significant digits. */
  ghost predicate Representable(x: real) {
    exists a: Amount :: a.coefficient < Pow10(PRECISION) && Value(a) == x
  }

  /** The same, read off any spelling of the number. */
  predicate FewSignificant(a: Amount) {
    var n := DigitCount(a.coefficient);
    n <= PRECISION || a.coefficient % Pow10(n - PRECISION) == 0
  }

  lemma NoSmallMultiple(k: int, p: nat, r: nat)
    requires p > 0 && k * p == r && r < p
    ensures k == 0
  {
    MultipleSize(k, p);
  }

  lemma MultipleSize(k: int, p: nat)
    ensures k >= 1 ==> k * p >= p
    ensures k <= -1 ==> k * p + p <= 0
  {
    if k >= 1 { assert (k - 1) * p >= 0; }
    if k <= -1 { assert (-k - 1) * p >= 0; }
  }

  lemma Multiple(c: nat, q: nat, p: nat)
    requires p > 0 && c == q * p
    ensures c % p == 0
  {
    var d: nat, r: nat := c / p, c % p;
    assert d * p + r == c && r < p by { Amounts.Divided(c, p); }
    assert (q - d) * p == r;
    NoSmallMultiple(q - d, p, r);
  }

  lemma DivRoundExact(c: nat, p: nat)
    requires p > 0
    ensures DivRound(c, p, HalfEven) * p == c <==> c % p == 0
  {
    Amounts.Divided(c, p);
    var q := DivRound(c, p, HalfEven);
    if q * p == c { Multiple(c, q, p); }
  }

  lemma UnitsCancel(x: nat, y: nat, u: real)
    requires u > 0.0
    ensures x as real * u == y as real * u <==> x == y
  {
    CompareUnits(x, y, u);
    CompareUnits(y, x, u);
  }

  /** Rounding changes a number exactly if it has more than 28 significant digits. */
  lemma FixKeepsFewSignificant(a: Amount)
    ensures Value(Fix(a)) == Value(a) <==> FewSignificant(a)
  {
    hide Value, Num, Den, Unit, Pow10, DivRound, DigitCount;
    var c, n := a.coefficient, DigitCount(a.coefficient);
    if n > PRECISION {
      var p := Pow10(n - PRECISION);
      var q := DivRound(c, p, HalfEven);
      AlignedValue(Fix(a), a.exponent);
      ValueUnits(a);
      ValueUnits(Amount(q * p, a.exponent));
      UnitsCancel(q * p, c, Unit(a.exponent));
      DivRoundExact(c, p);
    }
  }

  lemma ManyDigitsNonZero(c: nat)
    requires DigitCount(c) > 1
    ensures c > 0
  {
  }

  /** A coefficient that ends in enough zeros. */
  lemma ZerosDivide(b: nat, k: nat, c: nat)
    requires c == b * Pow10(k) && b < Pow10(PRECISION) && DigitCount(c) > PRECISION
    ensures c % Pow10(DigitCount(c) - PRECISION) == 0
  {
    hide DigitCount, Pow10;
    var n := DigitCount(c);
    ManyDigitsNonZero(c);
    DigitsBelow(c);
    ScaleBelow(b, Pow10(PRECISION), Pow10(k));
    Pow10Sum(PRECISION, k);
    if k < n - PRECISION {
      PowMonotone(PRECISION + k, n - 1);
      assert false;
    }
    var m := n - PRECISION;
    Pow10Sum(k - m, m);
    Associate(b, Pow10(k - m), Pow10(m));
    Multiple(c, b * Pow10(k - m), Pow10(m));
  }

  lemma SameValueAligned(a: Amount, b: Amount)
    requires Value(a) == Value(b) && a.exponent <= b.exponent
    ensures a.coefficient == Aligned(b, a.exponent)
  {
    hide Value, Num, Den, Unit, Pow10, Aligned, DigitCount;
    AlignedValue(b, a.exponent);
    ValueUnits(a);
    ValueUnits(Amount(Aligned(b, a.exponent), a.exponent));
    UnitsCancel(a.coefficient, Aligned(b, a.exponent), Unit(a.exponent));
  }

  lemma AtLeastItself(c: nat, p: nat)
    requires p > 0
    ensures c <= c * p
  {
    assert c * p == c * (p - 1) + c;
    assert c * (p - 1) >= 0;
  }

  lemma FewSignificantOf(a: Amount, b: Amount)
    requires Value(a) == Value(b) && b.coefficient < Pow10(PRECISION)
    ensures FewSignificant(a)
  {
    hide Pow10, Value, Num, Den;
    if DigitCount(a.coefficient) > PRECISION {
      if a.exponent <= b.exponent {
        SameValueAligned(a, b);
        ZerosDivide(b.coefficient, b.exponent - a.exponent, a.coefficient);
      } else {
        SameValueAligned(b, a);
        AtLeastItself(a.coefficient, Pow10(a.exponent - b.exponent));
        FewDigits(a.coefficient, PRECISION);
        assert false;
      }
    }
  }

  /** Any spelling decides whether a number has at most 28 significant digits. */
  lemma RepresentableIsFewSignificant(a: Amount)
    ensures Representable(Value(a)) <==> FewSignificant(a)
  {
    var c, n := a.coefficient, DigitCount(a.coefficient);
    if Representable(Value(a)) {
      var b: Amount :| b.coefficient < Pow10(PRECISION) && Value(b) == Value(a);
      FewSignificantOf(a, b);
    }
    if FewSignificant(a) {
      DigitsBelow(c);
      if n <= PRECISION {
        PowMonotone(n, PRECISION);
      } else {
        FewWitness(a);
      }
    }
  }

  lemma FewWitness(a: Amount)
    requires DigitCount(a.coefficient) > PRECISION && FewSignificant(a)
    ensures Representable(Value(a))
  {
    hide DigitCount, Pow10, Value, Num, Den;
    var m := DigitCount(a.coefficient) - PRECISION;
    var b := Amount(a.coefficient / Pow10(m), a.exponent + m);
    Amounts.Divided(a.coefficient, Pow10(m));
    AlignedValue(b, a.exponent);
    DigitsBelow(a.coefficient);
    Pow10Sum(PRECISION, m);
    if b.coefficient >= Pow10(PRECISION) {
      ScaleAtMost(Pow10(PRECISION), b.coefficient, Pow10(m));
      assert false;
    }
  }

  /** An operation's result is exact precisely if the exact result has at most 28 significant digits. */
  lemma FixIsExact(a: Amount)
    ensures Value(Fix(a)) == Value(a) <==> Representable(Value(a))
  {
    FixKeepsFewSignificant(a);
    RepresentableIsFewSignificant(a);
  }

  /** Half a unit in the last of 28 digits, relative to the least number that has them. */
  const HALF_DIGIT := 0.000_000_000_000_000_000_000_000_000_5

  /** No rounding moves a number by more than that share of it. */
  lemma RoundingError(a: Amount)
    ensures Value(a) - Value(a) * HALF_DIGIT <= Value(Fix(a)) <= Value(a) + Value(a) * HALF_DIGIT
  {
    hide Value, Unit, Pow10, DigitCount, DivRound;
    var c, n := a.coefficient, DigitCount(a.coefficient);
    ValueNonNegative(a);
    if n > PRECISION {
      var p := Pow10(n - PRECISION);
      var q := DivRound(c, p, HalfEven);
      ValueUnits(a);
      ValueUnits(Fix(a));
      UnitShift(a.exponent, n - PRECISION);
      Regroup(q as real, Unit(a.exponent), p as real);
      HalfUnit(c, p);
      LongCoefficient(c, n);
      RelativeError(c, p, q, Unit(a.exponent));
    }
  }

  lemma HalfUnit(c: nat, p: nat)
    requires p > 0
    ensures 2 * c - p <= 2 * (DivRound(c, p, HalfEven) * p) <= 2 * c + p
  {
    Amounts.Divided(c, p);
    if DivRound(c, p, HalfEven) != c / p {
      assert DivRound(c, p, HalfEven) == c / p + 1;
    }
  }

  lemma LongCoefficient(c: nat, n: nat)
    requires n == DigitCount(c) > PRECISION
    ensures c >= 1_000_000_000_000_000_000_000_000_000 * Pow10(n - PRECISION)
  {
    DigitsBelow(c);
    Pow10Sum(27, n - PRECISION);
    assert Pow10(9) == 1_000_000_000;
    Pow10Sum(9, 9);
    Pow10Sum(18, 9);
  }

  lemma RelativeError(c: nat, p: nat, q: nat, u: real)
    requires u > 0.0 && c >= 1_000_000_000_000_000_000_000_000_000 * p
    requires 2 * c - p <= 2 * (q * p) <= 2 * c + p
    ensures var x, y := c as real * u, (q as real * p as real) * u;
      x - x * HALF_DIGIT <= y <= x + x * HALF_DIGIT
  {
    var x, y := c as real, (q * p) as real;
    assert y == q as real * p as real;
    assert p as real <= 2.0 * HALF_DIGIT * x;
    assert x - HALF_DIGIT * x <= y <= x + HALF_DIGIT * x;
    ScaleBetween(x - HALF_DIGIT * x, y, x + HALF_DIGIT * x, u);
  }

  lemma ScaleBetween(x: real, y: real, z: real, u: real)
    requires x <= y <= z && u > 0.0
    ensures x * u <= y * u <= z * u
  {
    ScaleOrder(x, y, u);
    ScaleOrder(y, z, u);
  }

  // ---------------------------------------------------------------- division

  lemma {:induction false} WithoutZerosKeeps(a: Amount, ideal: int)
    ensures Value(WithoutZeros(a, ideal)) == Value(a)
    decreases ideal - a.exponent
  {
    hide Value;
    if a.exponent < ideal && a.coefficient % 10 == 0 {
      var b := Amount(a.coefficient / 10, a.exponent + 1);
      WithoutZerosKeeps(b, ideal);
      assert Pow10(1) == 10 && Aligned(b, a.exponent) == a.coefficient;
      AlignedValue(b, a.exponent);
    }
  }

  /** The quotient before rounding is off by less than one unit. */
  lemma QuotientIsNear(num: nat, den: nat, exponent: int, ideal: int) returns (q: nat)
    requires den > 0
    ensures Value(Quotient(num, den, exponent, ideal)) == q as real * Unit(exponent)
    ensures num - den <= q * den <= num + den
  {
    hide Value, Unit, WithoutZeros;
    var whole, part := num / den, num % den;
    Amounts.Divided(num, den);
    StickyQuotient(num, den, whole, part);
    q := if part != 0 && whole % 5 == 0 then whole + 1 else whole;
    WithoutZerosKeeps(Amount(whole, exponent), ideal);
    ValueUnits(Amount(q, exponent));
  }

  lemma StickyQuotient(num: nat, den: nat, whole: nat, part: nat)
    requires whole * den <= num < whole * den + den && (whole + 1) * den == whole * den + den
    requires part == num - whole * den
    ensures num - den <= whole * den <= num + den
    ensures part != 0 ==> num - den <= (whole + 1) * den <= num + den
  {
  }

  /** The integers divided, in a common unit of the dividend and of the divided unit. */
  lemma DivisionParts(a: Amount, n: nat) returns (num: nat, den: nat, exponent: int, u: real)
    requires n > 0 && a.coefficient > 0
    ensures den > 0 && DividedBy(a, n) == Fix(Quotient(num, den, exponent, a.exponent))
    ensures u > 0.0 && Value(a) == num as real * u && n as real * Unit(exponent) == den as real * u
    ensures num >= Pow10(PRECISION) * den
  {
    hide Value, Unit, Fix, Quotient, DigitCount, Pow10;
    var c, dc, dn := a.coefficient, DigitCount(a.coefficient), DigitCount(n);
    var shift := dn - dc + PRECISION + 1;
    DigitsBelow(c);
    DigitsBelow(n);
    ValueUnits(a);
    exponent := a.exponent - shift;
    if shift >= 0 {
      num, den, u := c * Pow10(shift), n, Unit(exponent);
      UnitShift(exponent, shift);
      Regroup(c as real, u, Pow10(shift) as real);
      assert num as real == c as real * Pow10(shift) as real;
      LongDividend(c, dc, n, dn, shift);
    } else {
      ProductPositive(n, Pow10(-shift));
      num, den, u := c, n * Pow10(-shift), Unit(a.exponent);
      UnitShift(a.exponent, -shift);
      Regroup(n as real, u, Pow10(-shift) as real);
      assert den as real == n as real * Pow10(-shift) as real;
      LongDivisor(c, dc, n, dn, -shift);
    }
  }

  lemma LongDividend(c: nat, dc: nat, n: nat, dn: nat, shift: nat)
    requires dc >= 1 && c >= Pow10(dc - 1) && n < Pow10(dn) && shift == dn - dc + PRECISION + 1
    ensures c * Pow10(shift) >= Pow10(PRECISION) * n
  {
    hide Pow10;
    ScaleAtMost(Pow10(dc - 1), c, Pow10(shift));
    Pow10Sum(dc - 1, shift);
    Pow10Sum(PRECISION, dn);
    ScaleAtMost(n, Pow10(dn), Pow10(PRECISION));
  }

  lemma LongDivisor(c: nat, dc: nat, n: nat, dn: nat, m: nat)
    requires dc >= 1 && c >= Pow10(dc - 1) && n < Pow10(dn) && m == dc - dn - PRECISION - 1
    ensures c >= Pow10(PRECISION) * (n * Pow10(m))
  {
    hide Pow10;
    ScaleAtMost(n, Pow10(dn), Pow10(m));
    Pow10Sum(dn, m);
    ScaleAtMost(n * Pow10(m), Pow10(dn + m), Pow10(PRECISION));
    Pow10Sum(PRECISION, dn + m);
  }

  /** No quotient is off by as much as two roundings. */
  lemma DivisionError(a: Amount, n: nat)
    requires n > 0
    ensures var x, y := Value(a), n as real * Value(DividedBy(a, n));
      x - 1.5 * HALF_DIGIT * x <= y <= x + 1.5 * HALF_DIGIT * x
  {
    hide Value, Unit, Fix, Quotient, Pow10, DigitCount;
    ValueNonNegative(a);
    if a.coefficient == 0 {
      assert DividedBy(a, n) == a;
    } else {
      var num, den, exponent, u := DivisionParts(a, n);
      var q := QuotientIsNear(num, den, exponent, a.exponent);
      var before := Quotient(num, den, exponent, a.exponent);
      RoundingError(before);
      ManyUnits(num, den);
      QuotientError(num, den, q, u, n as real, Unit(exponent), Value(before));
      LastRounding(Value(a), n as real * Value(before), n as real, Value(before), Value(Fix(before)));
    }
  }

  lemma ManyUnits(num: nat, den: nat)
    requires num >= Pow10(PRECISION) * den
    ensures den as real <= 0.2 * HALF_DIGIT * num as real
  {
    assert Pow10(9) == 1_000_000_000 && Pow10(1) == 10;
    Pow10Sum(9, 9);
    Pow10Sum(18, 9);
    Pow10Sum(27, 1);
    assert Pow10(PRECISION) == 10_000_000_000_000_000_000_000_000_000;
  }

  lemma QuotientError(num: nat, den: nat, q: nat, u: real, n: real, unit: real, value: real)
    requires num - den <= q * den <= num + den && den as real <= 0.2 * HALF_DIGIT * num as real
    requires u > 0.0 && n * unit == den as real * u && value == q as real * unit
    ensures var x := num as real * u;
      x - 0.2 * HALF_DIGIT * x <= n * value <= x + 0.2 * HALF_DIGIT * x
  {
    var x, product := num as real, (q * den) as real;
    assert product == q as real * den as real;
    assert n * value == q as real * (n * unit) == q as real * (den as real * u) == product * u;
    ScaleBetween(x - 0.2 * HALF_DIGIT * x, product, x + 0.2 * HALF_DIGIT * x, u);
  }

  lemma LastRounding(x: real, y: real, n: real, before: real, after: real)
    requires x >= 0.0 && n > 0.0 && y == n * before && x - 0.2 * HALF_DIGIT * x <= y <= x + 0.2 * HALF_DIGIT * x
    requires before - before * HALF_DIGIT <= after <= before + before * HALF_DIGIT
    ensures x - 1.5 * HALF_DIGIT * x <= n * after <= x + 1.5 * HALF_DIGIT * x
  {
    ScaleBetween(before - before * HALF_DIGIT, after, before + before * HALF_DIGIT, n);
    assert (before - before * HALF_DIGIT) * n == y - y * HALF_DIGIT;
    assert (before + before * HALF_DIGIT) * n == y + y * HALF_DIGIT;
    assert after * n == n * after;
  }

  /** Multiples of a small unit below 10^28 units are representable. */
  lemma UnitsAreRepresentable(m: nat, k: int)
    requires m < Pow10(PRECISION)
    ensures Representable(m as real * Unit(k))
  {
    hide DigitCount, Pow10, Value, Num, Den;
    ValueUnits(Amount(m, k));
  }
}
