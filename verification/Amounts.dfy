/**
 Non-negative decimals as a coefficient and an exponent, and the rounding of a decimal context.
 */
module Amounts {
  import opened Common
  import opened Decimals

  /** The decimal `coefficient * 10^exponent`. */
  datatype Amount = Amount(coefficient: nat, exponent: int)

  function DigitCount(c: nat): (n: nat)
    ensures n >= 1
  {
    if c < 10 then 1 else 1 + DigitCount(c / 10)
  }

  /** Rounding modes; `Ambient` is any rule whatever for the quotient of a coefficient. */
  datatype Rounding = Ceiling | Floor | HalfEven | Ambient(round: (nat, nat) -> nat)

  function Num(a: Amount): nat {
    a.coefficient * Pow10(Max(a.exponent, 0))
  }

  function Den(a: Amount): (d: nat)
    ensures d > 0
  {
    Pow10(Max(-a.exponent, 0))
  }

  function Value(a: Amount): real {
    Num(a) as real / Den(a) as real
  }

  function DivRound(c: nat, d: nat, mode: Rounding): (q: nat)
    requires d > 0
    ensures !mode.Ambient? ==> c / d <= q <= c / d + 1
    ensures mode.Floor? ==> q == c / d
    ensures mode.Ceiling? ==> (c % d == 0 ==> q == c / d) && (c % d != 0 ==> q == c / d + 1)
  {
    var q, r := c / d, c % d;
    match mode
    case Floor => q
    case Ceiling => if r == 0 then q else q + 1
    case Ambient(round) => round(c, d)
    case HalfEven => if 2 * r > d || (2 * r == d && q % 2 == 1) then q + 1 else q
  }

  /** A result rounded to the context's precision. */
  function Rounded(a: Amount, precision: nat, mode: Rounding): Amount {
    if DigitCount(a.coefficient) <= precision then a
    else
      var dropped := DigitCount(a.coefficient) - precision;
      Amount(DivRound(a.coefficient, Pow10(dropped), mode), a.exponent + dropped)
  }

  // ---------------------------------------------------------------- digit counts

  lemma {:induction false} DigitsBelow(c: nat)
    ensures c < Pow10(DigitCount(c))
    ensures c > 0 ==> c >= Pow10(DigitCount(c) - 1)
  {
    if c >= 10 { DigitsBelow(c / 10); }
  }

  lemma {:induction false} PowMonotone(a: nat, b: nat)
    requires a <= b
    ensures Pow10(a) <= Pow10(b)
  {
    if a < b { PowMonotone(a, b - 1); }
  }

  lemma FewDigits(c: nat, n: nat)
    requires n >= 1 && c < Pow10(n)
    ensures DigitCount(c) <= n
  {
    DigitsBelow(c);
    if DigitCount(c) > n {
      PowMonotone(n, DigitCount(c) - 1);
    }
  }

  lemma ManyDigits(c: nat, n: nat)
    requires c >= Pow10(n)
    ensures DigitCount(c) > n
  {
    DigitsBelow(c);
    if DigitCount(c) <= n {
      PowMonotone(DigitCount(c), n);
    }
  }

  /** A digit tuple without leading zeros is as long as its coefficient has digits. */
  lemma TupleLength(digits: seq<Digit>)
    requires CanonicalDigits(digits)
    ensures DigitCount(Coefficient(digits)) == |digits|
  {
    CoefficientBound(digits);
    FewDigits(Coefficient(digits), |digits|);
    if digits[0] != 0 {
      CoefficientLower(digits);
      ManyDigits(Coefficient(digits), |digits| - 1);
    }
  }

  lemma DigitsOfPower(k: nat)
    ensures DigitCount(Pow10(k)) == k + 1
  {
    ManyDigits(Pow10(k), k);
    assert Pow10(k + 1) == 10 * Pow10(k);
    FewDigits(Pow10(k), k + 1);
  }

  // ---------------------------------------------------------------- arithmetic

  lemma ScaleBelow(a: nat, b: nat, p: nat)
    requires a < b && p > 0
    ensures a * p < b * p
  {
    assert (b - a) * p > 0;
  }

  lemma ScaleAtMost(a: nat, b: nat, p: nat)
    requires a <= b
    ensures a * p <= b * p
  {
    assert (b - a) * p >= 0;
  }

  lemma DivRoundBelow(c: nat, d: nat, mode: Rounding)
    requires d > 0 && !mode.Ambient?
    ensures DivRound(c, d, mode) <= c + 1
  {
    QuotientBelow(c, d);
  }

  lemma FactorBelow(q: nat, d: nat, c: nat)
    requires d > 0 && q * d <= c
    ensures q <= c
  {
    assert q * d == q * (d - 1) + q;
    assert q * (d - 1) >= 0;
  }

  lemma Divided(c: nat, d: nat)
    requires d > 0
    ensures (c / d) * d <= c < (c / d) * d + d
    ensures (c / d + 1) * d == (c / d) * d + d
    ensures c % d == c - (c / d) * d
  {
  }

  lemma FloorTimes(c: nat, d: nat)
    requires d > 0
    ensures (c / d) * d <= c
  {
  }

  lemma QuotientBelow(c: nat, d: nat)
    requires d > 0
    ensures c / d <= c
  {
    var q: nat := c / d;
    assert q * d <= c by { FloorTimes(c, d); }
    FactorBelow(q, d, c);
  }

  lemma ScaleOrder(a: real, b: real, d: real)
    requires d > 0.0
    ensures a * d <= b * d <==> a <= b
  {
    if a <= b { assert (b - a) * d >= 0.0; } else { assert (a - b) * d > 0.0; }
  }

  lemma PositiveValue(a: Amount)
    requires a.coefficient > 0
    ensures Num(a) > 0 && Value(a) > 0.0
  {
    ProductPositive(a.coefficient, Pow10(Max(a.exponent, 0)));
  }
}
