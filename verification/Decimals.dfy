/**
 Python `decimal.Decimal` values as `as_tuple` shows them: a sign, a tuple of digits and
 an exponent. The two places that compare such numbers by normal form, the order outbox
 (`_semantic_value`) and the command fingerprint, are modelled here.
 */
module Decimals {
  import opened Common

  type Digit = d: nat | d < 10

  datatype Decimal = Decimal(negative: bool, digits: seq<Digit>, exponent: int)

  /** What the Decimal constructor guarantees: no leading zeros, at least one digit. */
  predicate WellFormed(d: Decimal) {
    CanonicalDigits(d.digits)
  }

  predicate CanonicalDigits(digits: seq<Digit>) {
    digits != [] && (|digits| == 1 || digits[0] != 0)
  }

  function Pow10(k: nat): (p: nat)
    ensures p > 0
  {
    if k == 0 then 1 else 10 * Pow10(k - 1)
  }

  /** The integer a digit string spells. */
  function Coefficient(digits: seq<Digit>): nat {
    if digits == [] then 0 else 10 * Coefficient(digits[..|digits| - 1]) + digits[|digits| - 1]
  }

  function Signed(d: Decimal): int {
    if d.negative then -(Coefficient(d.digits) as int) else Coefficient(d.digits)
  }

  /** Exact numeric equality: both numbers scaled to their smaller exponent. */
  predicate SameNumber(a: Decimal, b: Decimal) {
    var scale := Min(a.exponent, b.exponent);
    Signed(a) * Pow10(a.exponent - scale) == Signed(b) * Pow10(b.exponent - scale)
  }

  predicate Positive(d: Decimal) {
    !d.negative && Coefficient(d.digits) > 0
  }

  // ---------------------------------------------------------------- normal forms

  /** Zeros at the end of the digit tuple moved into the exponent, one digit kept. */
  function Trim(d: Decimal): Decimal
    decreases |d.digits|
  {
    if |d.digits| > 1 && d.digits[|d.digits| - 1] == 0
    then Trim(Decimal(d.negative, d.digits[..|d.digits| - 1], d.exponent + 1))
    else d
  }

  function Normal(d: Decimal): Decimal {
    if Coefficient(d.digits) == 0 then Decimal(false, [0], 0) else Trim(d)
  }

  /** `_semantic_value` on a number: trims a local digit list. */
  method SemanticNumber(number: Decimal) returns (normal: Decimal)
    requires WellFormed(number)
    ensures normal == Normal(number)
  {
    if Coefficient(number.digits) == 0 {
      return Decimal(false, [0], 0);
    }
    var digits, exponent := number.digits, number.exponent;
    while |digits| > 1 && digits[|digits| - 1] == 0
      invariant Trim(Decimal(number.negative, digits, exponent)) == Trim(number)
    {
      digits, exponent := digits[..|digits| - 1], exponent + 1;
    }
    return Decimal(number.negative, digits, exponent);
  }

  /** `rstrip("0")` on the digit string, which may strip every digit. */
  function StripZeros(digits: seq<Digit>): seq<Digit> {
    if digits != [] && digits[|digits| - 1] == 0 then StripZeros(digits[..|digits| - 1]) else digits
  }

  /** The text `{trimmed}e{exponent}` of a fingerprint, as its two parts. The sign is not in it. */
  datatype NumberText = NumberText(trimmed: seq<Digit>, exponent: int)

  function FingerprintText(d: Decimal): NumberText {
    var trimmed := StripZeros(d.digits);
    NumberText(trimmed, d.exponent + |d.digits| - |trimmed|)
  }

  // ---------------------------------------------------------------- proofs

  lemma Associate(a: int, b: int, c: int)
    ensures a * (b * c) == (a * b) * c
  {
  }

  lemma CancelFactor(x: int, y: int, p: int)
    requires p > 0 && x * p == y * p
    ensures x == y
  {
    assert (x - y) * p == 0;
  }

  lemma ProductPositive(x: int, p: int)
    requires p > 0
    ensures (x * p > 0 <==> x > 0) && (x * p == 0 <==> x == 0) && (-x) * p == -(x * p)
  {
  }

  lemma {:induction false} Pow10Sum(a: nat, b: nat)
    ensures Pow10(a + b) == Pow10(a) * Pow10(b)
  {
    if a > 0 {
      Pow10Sum(a - 1, b);
      Associate(10, Pow10(a - 1), Pow10(b));
    }
  }

  lemma {:induction false} CoefficientBound(digits: seq<Digit>)
    ensures Coefficient(digits) < Pow10(|digits|)
  {
    if digits != [] {
      CoefficientBound(digits[..|digits| - 1]);
    }
  }

  lemma {:induction false} CoefficientLower(digits: seq<Digit>)
    requires digits != [] && digits[0] != 0
    ensures Coefficient(digits) >= Pow10(|digits| - 1)
  {
    if |digits| > 1 {
      CoefficientLower(digits[..|digits| - 1]);
    } else {
      assert Coefficient(digits[..0]) == 0;
    }
  }

  /** Canonical digit strings that spell the same integer are the same string. */
  lemma {:induction false} CoefficientInjective(a: seq<Digit>, b: seq<Digit>)
    requires CanonicalDigits(a) && CanonicalDigits(b)
    requires Coefficient(a) == Coefficient(b)
    ensures a == b
  {
    var a', b' := a[..|a| - 1], b[..|b| - 1];
    assert Coefficient(a) == 10 * Coefficient(a') + a[|a| - 1];
    assert Coefficient(b) == 10 * Coefficient(b') + b[|b| - 1];
    assert a[|a| - 1] == b[|b| - 1] && Coefficient(a') == Coefficient(b');
    if a' == [] || b' == [] {
      if a' != [] { CoefficientLower(a'); }
      if b' != [] { CoefficientLower(b'); }
      assert a' == b' == [];
    } else {
      CoefficientInjective(a', b');
    }
    assert a == a' + [a[|a| - 1]];
    assert b == b' + [b[|b| - 1]];
  }

  /** Trimming keeps the number, the sign and canonical digits, and leaves no final zero. */
  lemma {:induction false} TrimKeeps(d: Decimal)
    requires WellFormed(d) && Coefficient(d.digits) > 0
    ensures var t := Trim(d);
      && WellFormed(t) && t.negative == d.negative && t.exponent >= d.exponent
      && t.digits[|t.digits| - 1] != 0 && Coefficient(t.digits) > 0
      && Coefficient(d.digits) == Coefficient(t.digits) * Pow10(t.exponent - d.exponent)
    decreases |d.digits|
  {
    if |d.digits| > 1 && d.digits[|d.digits| - 1] == 0 {
      var shorter := Decimal(d.negative, d.digits[..|d.digits| - 1], d.exponent + 1);
      TrimKeeps(shorter);
      var t := Trim(shorter);
      var k := t.exponent - shorter.exponent;
      calc {
        Coefficient(d.digits);
        10 * Coefficient(shorter.digits);
        10 * (Coefficient(t.digits) * Pow10(k));
        { Associate(10, Coefficient(t.digits), Pow10(k)); Associate(Coefficient(t.digits), 10, Pow10(k)); }
        Coefficient(t.digits) * (10 * Pow10(k));
        Coefficient(t.digits) * Pow10(k + 1);
      }
    } else if |d.digits| == 1 {
      assert d.digits[..0] == [];
    }
  }

  /** A factor common to both scales of an equation drops out. */
  lemma ScaleEqual(a: nat, b: nat, common: nat, k: nat, m: nat)
    requires a * Pow10(k + common) == b * Pow10(m + common)
    ensures a * Pow10(k) == b * Pow10(m)
  {
    Pow10Sum(k, common);
    Pow10Sum(m, common);
    Associate(a, Pow10(k), Pow10(common));
    Associate(b, Pow10(m), Pow10(common));
    CancelFactor(a * Pow10(k), b * Pow10(m), Pow10(common));
  }

  /** Two normalised non-zero numbers with equal values have the same exponent and digits. */
  lemma NormalUnique(a: Decimal, b: Decimal)
    requires WellFormed(a) && WellFormed(b)
    requires a.digits[|a.digits| - 1] != 0
    requires a.exponent <= b.exponent
    requires Coefficient(a.digits) == Coefficient(b.digits) * Pow10(b.exponent - a.exponent)
    ensures a.exponent == b.exponent && a.digits == b.digits
  {
    var k := b.exponent - a.exponent;
    if k > 0 {
      NotMultipleOfTen(a.digits, Coefficient(b.digits), k);
    }
    CoefficientInjective(a.digits, b.digits);
  }

  lemma NotMultipleOfTen(digits: seq<Digit>, c: nat, k: nat)
    requires digits != [] && digits[|digits| - 1] != 0 && k > 0
    ensures Coefficient(digits) != c * Pow10(k)
  {
    Associate(c, 10, Pow10(k - 1));
    Associate(10, c, Pow10(k - 1));
    assert c * Pow10(k) == 10 * (c * Pow10(k - 1));
  }

  /** A number's value on a smaller scale, through its trimmed form. */
  lemma TrimScaled(d: Decimal, scale: int)
    requires WellFormed(d) && Coefficient(d.digits) > 0 && scale <= d.exponent
    ensures Trim(d).exponent >= d.exponent
    ensures Coefficient(d.digits) * Pow10(d.exponent - scale)
         == Coefficient(Trim(d).digits) * Pow10(Trim(d).exponent - scale)
  {
    TrimKeeps(d);
    var t := Trim(d);
    Pow10Sum(t.exponent - d.exponent, d.exponent - scale);
    Associate(Coefficient(t.digits), Pow10(t.exponent - d.exponent), Pow10(d.exponent - scale));
  }

  lemma EqualTrimmed(x: Decimal, y: Decimal, scale: int)
    requires WellFormed(x) && WellFormed(y) && x.digits[|x.digits| - 1] != 0
    requires scale <= x.exponent <= y.exponent
    requires Coefficient(x.digits) * Pow10(x.exponent - scale) == Coefficient(y.digits) * Pow10(y.exponent - scale)
    ensures x.exponent == y.exponent && x.digits == y.digits
  {
    ScaleEqual(Coefficient(x.digits), Coefficient(y.digits), x.exponent - scale, 0, y.exponent - x.exponent);
    NormalUnique(x, y);
  }

  /** Two trimmed forms agree exactly when the numbers do on any common scale. */
  lemma TrimmedEqual(a: Decimal, b: Decimal, scale: int)
    requires WellFormed(a) && WellFormed(b) && Coefficient(a.digits) > 0 && Coefficient(b.digits) > 0
    requires scale <= a.exponent && scale <= b.exponent
    ensures (Trim(a).digits == Trim(b).digits && Trim(a).exponent == Trim(b).exponent)
      <==> Coefficient(a.digits) * Pow10(a.exponent - scale) == Coefficient(b.digits) * Pow10(b.exponent - scale)
  {
    TrimKeeps(a);
    TrimKeeps(b);
    TrimScaled(a, scale);
    TrimScaled(b, scale);
    var x, y := Trim(a), Trim(b);
    if Coefficient(a.digits) * Pow10(a.exponent - scale) == Coefficient(b.digits) * Pow10(b.exponent - scale) {
      if x.exponent <= y.exponent {
        EqualTrimmed(x, y, scale);
      } else {
        EqualTrimmed(y, x, scale);
      }
    }
  }

  /**
   The outbox's normal form is complete: it is equal for exactly the numerically equal
   values, however many digits they carry and whatever their sign or exponent.
   */
  lemma SemanticNormalFormComplete(a: Decimal, b: Decimal)
    requires WellFormed(a) && WellFormed(b)
    ensures Normal(a) == Normal(b) <==> SameNumber(a, b)
  {
    var scale := Min(a.exponent, b.exponent);
    assert Coefficient([0]) == 0 by { assert [0][..0] == []; }
    ProductPositive(Coefficient(a.digits), Pow10(a.exponent - scale));
    ProductPositive(Coefficient(b.digits), Pow10(b.exponent - scale));
    if Coefficient(a.digits) > 0 { TrimKeeps(a); }
    if Coefficient(b.digits) > 0 { TrimKeeps(b); }
    if Coefficient(a.digits) > 0 && Coefficient(b.digits) > 0 {
      TrimmedEqual(a, b, scale);
    }
  }

  lemma {:induction false} StripIsTrim(d: Decimal)
    requires WellFormed(d) && Coefficient(d.digits) > 0
    ensures FingerprintText(d) == NumberText(Trim(d).digits, Trim(d).exponent)
    decreases |d.digits|
  {
    if |d.digits| > 1 && d.digits[|d.digits| - 1] == 0 {
      StripIsTrim(Decimal(d.negative, d.digits[..|d.digits| - 1], d.exponent + 1));
    } else {
      assert |d.digits| == 1 ==> Coefficient(d.digits) == d.digits[0] by { assert d.digits[..0] == []; }
    }
  }

  /** The fingerprint's number text is complete for the positive amounts a command may carry. */
  lemma FingerprintTextComplete(a: Decimal, b: Decimal)
    requires WellFormed(a) && WellFormed(b) && Positive(a) && Positive(b)
    ensures FingerprintText(a) == FingerprintText(b) <==> SameNumber(a, b)
  {
    StripIsTrim(a);
    StripIsTrim(b);
    TrimmedEqual(a, b, Min(a.exponent, b.exponent));
  }

  /**
   Positivity is what the fingerprint needs: its text drops the sign and does not merge
   the spellings of zero, so it is not a normal form beyond the amounts a command allows.
   */
  lemma FingerprintTextNeedsPositive()
    ensures var one, minusOne := Decimal(false, [1], 0), Decimal(true, [1], 0);
      FingerprintText(one) == FingerprintText(minusOne) && !SameNumber(one, minusOne)
    ensures var zero, zeroCents := Decimal(false, [0], 0), Decimal(false, [0], -2);
      FingerprintText(zero) != FingerprintText(zeroCents) && SameNumber(zero, zeroCents)
  {
    assert [1][..0] == [] && [0][..0] == [];
    assert Coefficient([1]) == 1 && Coefficient([0]) == 0;
    assert StripZeros([0]) == StripZeros([0][..0]);
  }
}
