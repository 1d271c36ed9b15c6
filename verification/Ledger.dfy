/**
 What fills do to a cash balance in Python's decimal context, where every product, partial sum
 and new balance is rounded to 28 digits, and when that rounding matters.
 */
module Ledger {
  import opened Common
  import opened Decimals
  import opened Amounts
  import opened DecimalContext
  import opened Matching

  datatype Fill = Fill(quantity: int, price: Amount)

  /** Fills are made of positive quantities only. */
  function Shares(f: Fill): nat {
    Max(f.quantity, 0)
  }

  function Product(f: Fill): Amount {
    Times(f.price, Shares(f))
  }

  /** `sum` over the products, from zero. */
  function Paid(fills: seq<Fill>): Amount {
    if fills == [] then Amount(0, 0) else Plus(Paid(fills[..|fills| - 1]), Product(fills[|fills| - 1]))
  }

  /** The balance after the fills; without a fill the source does not touch it. */
  function Balance(cash: Amount, side: Side, fills: seq<Fill>): Amount {
    if fills == [] then cash else if side == Buy then Minus(cash, Paid(fills)) else Plus(cash, Paid(fills))
  }

  // ---------------------------------------------------------------- exact money

  function Worth(f: Fill): real {
    Shares(f) as real * Value(f.price)
  }

  function FillQuantity(fills: seq<Fill>): int {
    if fills == [] then 0 else fills[0].quantity + FillQuantity(fills[1..])
  }

  function FillValue(fills: seq<Fill>): real {
    if fills == [] then 0.0 else Worth(fills[0]) + FillValue(fills[1..])
  }

  /** The balance that moves by exactly its fills. */
  function ExactBalance(cash: Amount, side: Side, fills: seq<Fill>): real {
    if side == Buy then Value(cash) - FillValue(fills) else Value(cash) + FillValue(fills)
  }

  lemma {:induction false} FillValueLast(fills: seq<Fill>)
    requires fills != []
    ensures FillValue(fills) == FillValue(fills[..|fills| - 1]) + Worth(fills[|fills| - 1])
  {
    hide Worth;
    if |fills| > 1 {
      FillValueLast(fills[1..]);
      assert fills[1..][..|fills| - 2] == fills[..|fills| - 1][1..];
    }
  }

  // ---------------------------------------------------------------- when nothing is lost

  /** Every amount computed on the way, and the new balance, is the exact one. */
  ghost predicate Exact(cash: Amount, side: Side, fills: seq<Fill>) {
    && (forall k :: 0 <= k < |fills| ==> Value(Product(fills[k])) == Worth(fills[k]))
    && (forall k :: 0 <= k <= |fills| ==> Value(Paid(fills[..k])) == FillValue(fills[..k]))
    && Value(Balance(cash, side, fills)) == ExactBalance(cash, side, fills)
  }

  /** No exact product or partial sum has more than 28 significant digits. */
  ghost predicate TotalFits(fills: seq<Fill>) {
    && (forall k :: 0 <= k < |fills| ==> Representable(Worth(fills[k])))
    && (forall k :: 0 <= k <= |fills| ==> Representable(FillValue(fills[..k])))
  }

  /** Nor has the exact new balance. */
  ghost predicate BalanceFits(cash: Amount, side: Side, fills: seq<Fill>) {
    fills != [] ==> Representable(ExactBalance(cash, side, fills))
  }

  ghost predicate NothingToRound(cash: Amount, side: Side, fills: seq<Fill>) {
    TotalFits(fills) && BalanceFits(cash, side, fills)
  }

  /** Whatever the context computes has at most 28 significant digits. */
  lemma FixIsRepresentable(a: Amount)
    ensures Representable(Value(Fix(a)))
  {
    hide Value;
    RepresentableIsFewSignificant(Fix(a));
    FixHasFewDigits(a);
  }

  lemma FixHasFewDigits(a: Amount)
    ensures FewSignificant(Fix(a))
  {
    hide DivRound, Pow10, FewSignificant;
    var c, n := a.coefficient, DigitCount(a.coefficient);
    if n > PRECISION {
      QuotientDigits(c, n);
      FewOrPower(Fix(a));
    } else {
      ShortIsFewSignificant(a);
    }
  }

  lemma ShortIsFewSignificant(a: Amount)
    requires DigitCount(a.coefficient) <= PRECISION
    ensures FewSignificant(a)
  {
  }

  lemma FewOrPower(a: Amount)
    requires a.coefficient <= Pow10(PRECISION)
    ensures FewSignificant(a)
  {
    if a.coefficient == Pow10(PRECISION) {
      DigitsOfPower(PRECISION);
      assert Pow10(1) == 10 && Pow10(28) == 10 * Pow10(27);
      Multiple(a.coefficient, Pow10(27), 10);
    } else {
      FewDigits(a.coefficient, PRECISION);
    }
  }

  lemma QuotientDigits(c: nat, n: nat)
    requires n == DigitCount(c) > PRECISION
    ensures DivRound(c, Pow10(n - PRECISION), HalfEven) <= Pow10(PRECISION)
  {
    hide DigitCount, Pow10;
    var p := Pow10(n - PRECISION);
    DigitsBelow(c);
    Pow10Sum(PRECISION, n - PRECISION);
    Amounts.Divided(c, p);
    if c / p >= Pow10(PRECISION) {
      ScaleAtMost(Pow10(PRECISION), c / p, p);
      assert false;
    }
  }

  lemma ProductIsExact(f: Fill)
    ensures Representable(Value(Product(f)))
    ensures Value(Product(f)) == Worth(f) <==> Representable(Worth(f))
  {
    hide Value, Representable, Fix, ExactTimes;
    TimesValue(f.price, Shares(f));
    FixIsExact(ExactTimes(f.price, Shares(f)));
    FixIsRepresentable(ExactTimes(f.price, Shares(f)));
    SameIsRepresentable(Value(ExactTimes(f.price, Shares(f))), Worth(f));
  }

  lemma ZeroIsRepresentable()
    ensures Representable(0.0) && Value(Amount(0, 0)) == 0.0
  {
    hide Value, Pow10, Representable, Unit;
    ValueIsZero(0);
    UnitsAreRepresentable(0, 0);
    SameIsRepresentable(0 as real * Unit(0), 0.0);
  }

  lemma SameIsRepresentable(x: real, y: real)
    requires x == y
    ensures Representable(x) <==> Representable(y)
  {
    hide Representable;
  }

  lemma ValueIsZero(e: int)
    ensures Value(Amount(0, e)) == 0.0
  {
    hide Value;
    DecimalContext.ValueNonNegative(Amount(0, e));
  }

  lemma SumIsExact(a: Amount, b: Amount)
    ensures Representable(Value(Plus(a, b)))
    ensures Value(Plus(a, b)) == Value(a) + Value(b) <==> Representable(Value(a) + Value(b))
  {
    hide Value, Representable, Fix, ExactSum;
    SumValue(a, b);
    FixIsExact(ExactSum(a, b));
    FixIsRepresentable(ExactSum(a, b));
  }

  lemma DifferenceIsExact(a: Amount, b: Amount)
    requires AtMost(b, a)
    ensures Representable(Value(Minus(a, b)))
    ensures Value(Minus(a, b)) == Value(a) - Value(b) <==> Representable(Value(a) - Value(b))
  {
    hide Value, Representable, Fix, ExactDifference, AtMost;
    OrderValue(b, a);
    DifferenceValue(a, b);
    FixIsExact(ExactDifference(a, b));
    FixIsRepresentable(ExactDifference(a, b));
  }

  lemma PaidIsRepresentable(fills: seq<Fill>)
    ensures Representable(Value(Paid(fills)))
  {
    hide Value, Representable, Plus, Product;
    if fills == [] {
      ZeroIsRepresentable();
    } else {
      SumIsExact(Paid(fills[..|fills| - 1]), Product(fills[|fills| - 1]));
    }
  }

  lemma BalanceIsRepresentable(cash: Amount, side: Side, fills: seq<Fill>)
    requires fills != [] && (side == Buy ==> AtMost(Paid(fills), cash))
    ensures Representable(Value(Balance(cash, side, fills)))
  {
    hide Value, Representable, Plus, Minus, Paid, AtMost;
    if side == Buy { DifferenceIsExact(cash, Paid(fills)); } else { SumIsExact(cash, Paid(fills)); }
  }

  /** While no product or partial sum needs rounding, the running total is exact. */
  lemma {:induction false} PaidIsExact(fills: seq<Fill>)
    requires forall k :: 0 <= k < |fills| ==> Representable(Worth(fills[k]))
    requires forall k :: 0 <= k <= |fills| ==> Representable(FillValue(fills[..k]))
    ensures Value(Paid(fills)) == FillValue(fills)
    decreases |fills|
  {
    hide Value, Representable, Plus, Product, Worth;
    if fills == [] {
      ZeroIsRepresentable();
    } else {
      var rest, last := fills[..|fills| - 1], fills[|fills| - 1];
      forall k | 0 <= k <= |rest|
        ensures Representable(FillValue(rest[..k]))
      {
        assert rest[..k] == fills[..k];
      }
      PaidIsExact(rest);
      ProductIsExact(last);
      FillValueLast(fills);
      SumIsExact(Paid(rest), Product(last));
      assert fills[..|fills|] == fills;
    }
  }

  lemma TotalIsPaid(fills: seq<Fill>)
    requires TotalFits(fills)
    ensures Value(Paid(fills)) == FillValue(fills)
  {
    hide Value, Representable, Paid, FillValue, Worth;
    PaidIsExact(fills);
  }

  lemma PrefixPaidIsExact(cash: Amount, side: Side, fills: seq<Fill>, k: nat)
    requires NothingToRound(cash, side, fills) && k <= |fills|
    ensures Value(Paid(fills[..k])) == FillValue(fills[..k])
  {
    hide Value, Representable, Paid, FillValue, Worth;
    var some := fills[..k];
    forall j | 0 <= j <= k
      ensures Representable(FillValue(some[..j]))
    {
      assert some[..j] == fills[..j];
    }
    PaidIsExact(some);
  }

  /** With an exact total, cash moves by exactly its fills if and only if the new balance fits. */
  lemma CashIsExactWhenTheBalanceFits(cash: Amount, side: Side, fills: seq<Fill>)
    requires TotalFits(fills) && (side == Buy ==> AtMost(Paid(fills), cash))
    ensures Value(Balance(cash, side, fills)) == ExactBalance(cash, side, fills) <==> BalanceFits(cash, side, fills)
  {
    hide Value, Representable, Paid, Worth, AtMost, Balance, ExactBalance, FillValue;
    if fills == [] {
      NoFillsNoChange(cash, side);
    } else {
      PaidIsExact(fills);
      BalanceIsExact(cash, side, fills);
    }
  }

  lemma BalanceIsExact(cash: Amount, side: Side, fills: seq<Fill>)
    requires fills != [] && (side == Buy ==> AtMost(Paid(fills), cash)) && Value(Paid(fills)) == FillValue(fills)
    ensures Value(Balance(cash, side, fills)) == ExactBalance(cash, side, fills) <==>
      Representable(ExactBalance(cash, side, fills))
  {
    hide Value, Representable, Plus, Minus, Paid, AtMost, FillValue;
    if side == Buy { DifferenceIsExact(cash, Paid(fills)); } else { SumIsExact(cash, Paid(fills)); }
  }

  /**
   Everything is computed exactly if and only if no exact product, partial sum or new balance
   has more than 28 significant digits.
   */
  lemma ExactlyWhenNothingRounds(cash: Amount, side: Side, fills: seq<Fill>)
    requires side == Buy ==> AtMost(Paid(fills), cash)
    ensures Exact(cash, side, fills) <==> NothingToRound(cash, side, fills)
  {
    hide Value, Representable, Paid, Product, Worth, AtMost, Balance, ExactBalance, FillValue;
    assert fills[..|fills|] == fills;
    if Exact(cash, side, fills) {
      WhatIsExactFits(cash, side, fills);
    }
    if NothingToRound(cash, side, fills) {
      forall k | 0 <= k < |fills|
        ensures Value(Product(fills[k])) == Worth(fills[k])
      {
        ProductIsExact(fills[k]);
      }
      forall k | 0 <= k <= |fills|
        ensures Value(Paid(fills[..k])) == FillValue(fills[..k])
      {
        PrefixPaidIsExact(cash, side, fills, k);
      }
      if fills == [] { NoFillsNoChange(cash, side); } else { BalanceIsExact(cash, side, fills); }
    }
  }

  lemma WhatIsExactFits(cash: Amount, side: Side, fills: seq<Fill>)
    requires Exact(cash, side, fills) && (side == Buy ==> AtMost(Paid(fills), cash))
    ensures NothingToRound(cash, side, fills)
  {
    hide Value, Representable, Paid, Product, Worth, AtMost, Balance, ExactBalance, FillValue;
    forall k | 0 <= k < |fills|
      ensures Representable(Worth(fills[k]))
    {
      ProductIsExact(fills[k]);
    }
    forall k | 0 <= k <= |fills|
      ensures Representable(FillValue(fills[..k]))
    {
      PaidIsRepresentable(fills[..k]);
    }
    if fills != [] { BalanceIsRepresentable(cash, side, fills); }
  }

  lemma NoFillsNoChange(cash: Amount, side: Side)
    ensures Balance(cash, side, []) == cash && ExactBalance(cash, side, []) == Value(cash)
  {
    hide Value;
  }

  // ---------------------------------------------------------------- ordinary amounts

  /** The fills' money counted in units of 10^k. */
  function Count(fills: seq<Fill>, k: int): nat
    requires forall i :: 0 <= i < |fills| ==> k <= fills[i].price.exponent
  {
    if fills == [] then 0
    else
      var first := Aligned(fills[0].price, k) * Shares(fills[0]);
      first + Count(fills[1..], k)
  }

  lemma {:induction false} CountValue(fills: seq<Fill>, k: int)
    requires forall i :: 0 <= i < |fills| ==> k <= fills[i].price.exponent
    ensures FillValue(fills) == Count(fills, k) as real * Unit(k)
  {
    hide Value, Unit, Aligned, Worth;
    if fills != [] {
      CountValue(fills[1..], k);
      WorthInUnits(fills[0], k);
      CompareUnits(Aligned(fills[0].price, k) * Shares(fills[0]), Count(fills[1..], k), Unit(k));
    }
  }

  lemma WorthInUnits(f: Fill, k: int)
    requires k <= f.price.exponent
    ensures Worth(f) == (Aligned(f.price, k) * Shares(f)) as real * Unit(k)
  {
    hide Value, Unit, Aligned, Pow10;
    AlignedValue(f.price, k);
    ValueUnits(Amount(Aligned(f.price, k), k));
    TimesUnits(Aligned(f.price, k), Shares(f), Unit(k));
  }

  /** A count of units is a number of few digits as long as its worth is below 10^28 units. */
  lemma FewUnits(x: real, n: nat, k: int, bound: real)
    requires x == n as real * Unit(k) && x <= bound < Pow10(PRECISION) as real * Unit(k)
    ensures Representable(x)
  {
    hide Unit, Value, Representable, Pow10;
    CompareUnits(Pow10(PRECISION), n, Unit(k));
    UnitsAreRepresentable(n, k);
    SameIsRepresentable(n as real * Unit(k), x);
  }

  lemma {:induction false} FillValueNonNegative(fills: seq<Fill>)
    ensures FillValue(fills) >= 0.0
  {
    hide Value;
    if fills != [] {
      FillValueNonNegative(fills[1..]);
      DecimalContext.ValueNonNegative(fills[0].price);
      ScaleMonotone(0.0, Value(fills[0].price), Shares(fills[0]));
    }
  }

  lemma {:induction false} FillValueGrows(fills: seq<Fill>, k: nat)
    requires k <= |fills|
    ensures 0.0 <= FillValue(fills[..k]) <= FillValue(fills)
    ensures k < |fills| ==> 0.0 <= Worth(fills[k]) <= FillValue(fills)
    decreases |fills|
  {
    hide Value, Worth;
    FillValueNonNegative(fills);
    FillValueNonNegative(fills[..k]);
    if fills != [] {
      var rest := fills[..|fills| - 1];
      FillValueLast(fills);
      FillValueNonNegative(rest);
      FillValueNonNegative([fills[|fills| - 1]]);
      if k < |fills| {
        FillValueGrows(rest, k);
        assert rest[..k] == fills[..k];
      } else {
        assert fills[..k] == fills;
      }
    }
  }

  /** Prices are written with no digit below 10^k, and are worth less than 10^28 units of it together. */
  ghost predicate CoarseFills(fills: seq<Fill>, k: int) {
    && (forall i :: 0 <= i < |fills| ==> k <= fills[i].price.exponent)
    && FillValue(fills) < Pow10(PRECISION) as real * Unit(k)
  }

  /** The same of a balance and its fills. */
  ghost predicate Coarse(cash: Amount, side: Side, fills: seq<Fill>, k: int) {
    && k <= cash.exponent && (forall i :: 0 <= i < |fills| ==> k <= fills[i].price.exponent)
    && Value(cash) + FillValue(fills) < Pow10(PRECISION) as real * Unit(k)
    && (side == Buy ==> FillValue(fills) <= Value(cash))
  }

  /** The total of such fills is never rounded. */
  lemma CoarseTotalFits(fills: seq<Fill>, k: int)
    requires CoarseFills(fills, k)
    ensures TotalFits(fills)
  {
    hide Value, Unit, Worth, Aligned, Representable, FillValue, Count, Pow10;
    var bound := FillValue(fills);
    forall i | 0 <= i < |fills|
      ensures Representable(Worth(fills[i]))
    {
      WorthInUnits(fills[i], k);
      FillValueGrows(fills, i);
      FewUnits(Worth(fills[i]), Aligned(fills[i].price, k) * Shares(fills[i]), k, bound);
    }
    forall i | 0 <= i <= |fills|
      ensures Representable(FillValue(fills[..i]))
    {
      CountValue(fills[..i], k);
      FillValueGrows(fills, i);
      FewUnits(FillValue(fills[..i]), Count(fills[..i], k), k, bound);
    }
  }

  /** Nor is the new balance: with two decimals that is everything below 10^26. */
  lemma CoarseAmountsAreExact(cash: Amount, side: Side, fills: seq<Fill>, k: int)
    requires Coarse(cash, side, fills, k)
    ensures NothingToRound(cash, side, fills)
  {
    hide Value, Unit, Worth, Aligned, Representable, FillValue, Count, Pow10, TotalFits;
    var bound := Value(cash) + FillValue(fills);
    AlignedValue(cash, k);
    ValueUnits(Amount(Aligned(cash, k), k));
    DecimalContext.ValueNonNegative(cash);
    CountValue(fills, k);
    FillValueNonNegative(fills);
    CoarseTotalFits(fills, k);
    NewBalanceInUnits(Value(cash), FillValue(fills), Aligned(cash, k), Count(fills, k), side, k, bound);
  }

  lemma NewBalanceInUnits(cash: real, paid: real, m: nat, n: nat, side: Side, k: int, bound: real)
    requires cash == m as real * Unit(k) && paid == n as real * Unit(k) && paid >= 0.0
    requires side == Buy ==> paid <= cash
    requires cash + paid <= bound < Pow10(PRECISION) as real * Unit(k)
    ensures Representable(if side == Buy then cash - paid else cash + paid)
  {
    hide Unit, Representable, Pow10;
    CompareUnits(m, n, Unit(k));
    CompareUnits(n, m, Unit(k));
    if side == Buy {
      FewUnits(cash - paid, m - n, k, bound);
    } else {
      FewUnits(cash + paid, m + n, k, bound);
    }
  }

  // ---------------------------------------------------------------- how far rounding goes

  /** The most and the least that n roundings in a row can make of one. */
  function Swollen(n: nat): (x: real)
    ensures x >= 1.0
  {
    if n == 0 then 1.0 else Swollen(n - 1) * (1.0 + HALF_DIGIT)
  }

  function Shrunk(n: nat): (x: real)
    ensures 0.0 < x <= 1.0
  {
    if n == 0 then 1.0 else Shrunk(n - 1) * (1.0 - HALF_DIGIT)
  }

  /** The rounded total, within one factor for each fill and one more. */
  lemma {:induction false} PaidIsNear(fills: seq<Fill>)
    ensures FillValue(fills) * Shrunk(|fills| + 1) <= Value(Paid(fills)) <= FillValue(fills) * Swollen(|fills| + 1)
    decreases |fills|
  {
    hide Value, Fix, Worth, Product, ExactTimes, ExactSum, Swollen, Shrunk;
    if fills == [] {
      ZeroIsRepresentable();
    } else {
      var n, rest, last := |fills|, fills[..|fills| - 1], fills[|fills| - 1];
      PaidIsNear(rest);
      FillValueLast(fills);
      FillValueNonNegative(rest);
      ProductIsNear(last, n);
      SumValue(Paid(rest), Product(last));
      RoundingError(ExactSum(Paid(rest), Product(last)));
      var sum := FillValue(rest) + Worth(last);
      Distribute(FillValue(rest), Worth(last), Swollen(n));
      Distribute(FillValue(rest), Worth(last), Shrunk(n));
      Within(sum, Value(ExactSum(Paid(rest), Product(last))), Value(Paid(fills)), Shrunk(n), Swollen(n));
      NextFactors(n);
    }
  }

  lemma NextFactors(n: nat)
    ensures Swollen(n + 1) == Swollen(n) * (1.0 + HALF_DIGIT) && Shrunk(n + 1) == Shrunk(n) * (1.0 - HALF_DIGIT)
  {
  }

  lemma Distribute(x: real, y: real, f: real)
    ensures (x + y) * f == x * f + y * f
  {
  }

  /** One more rounding. */
  lemma Within(exact: real, before: real, after: real, least: real, most: real)
    requires exact * least <= before <= exact * most
    requires before - before * HALF_DIGIT <= after <= before + before * HALF_DIGIT
    ensures exact * (least * (1.0 - HALF_DIGIT)) <= after <= exact * (most * (1.0 + HALF_DIGIT))
  {
    GroupReal(exact, most, 1.0 + HALF_DIGIT);
    GroupReal(exact, least, 1.0 - HALF_DIGIT);
    Linear(exact * least, exact * most, before, after);
  }

  lemma Linear(low: real, high: real, before: real, after: real)
    requires low <= before <= high
    requires before - before * HALF_DIGIT <= after <= before + before * HALF_DIGIT
    ensures low * (1.0 - HALF_DIGIT) <= after <= high * (1.0 + HALF_DIGIT)
  {
  }

  lemma ScaleReal(x: real, y: real, f: real)
    requires x <= y && f >= 0.0
    ensures x * f <= y * f
  {
  }

  lemma GroupReal(x: real, y: real, z: real)
    ensures x * (y * z) == (x * y) * z
  {
  }

  lemma ProductIsNear(f: Fill, n: nat)
    requires n >= 1
    ensures Worth(f) >= 0.0 && Worth(f) * Shrunk(n) <= Value(Product(f)) <= Worth(f) * Swollen(n)
  {
    hide Value, Fix, ExactTimes, Swollen, Shrunk;
    TimesValue(f.price, Shares(f));
    RoundingError(ExactTimes(f.price, Shares(f)));
    DecimalContext.ValueNonNegative(ExactTimes(f.price, Shares(f)));
    MoreRoundings(n);
    FirstRounding(Worth(f), Value(Product(f)), Shrunk(n), Swollen(n));
  }

  lemma FirstRounding(exact: real, after: real, least: real, most: real)
    requires exact >= 0.0 && exact - exact * HALF_DIGIT <= after <= exact + exact * HALF_DIGIT
    requires most >= 1.0 + HALF_DIGIT && least <= 1.0 - HALF_DIGIT
    ensures exact * least <= after <= exact * most
  {
    ScaleReal(1.0 + HALF_DIGIT, most, exact);
    ScaleReal(least, 1.0 - HALF_DIGIT, exact);
    assert exact * (1.0 - HALF_DIGIT) == exact - exact * HALF_DIGIT;
    assert exact * (1.0 + HALF_DIGIT) == exact + exact * HALF_DIGIT;
  }

  lemma {:induction false} MoreRoundings(n: nat)
    requires n >= 1
    ensures Swollen(n) >= 1.0 + HALF_DIGIT && Shrunk(n) <= 1.0 - HALF_DIGIT
  {
    if n > 1 {
      MoreRoundings(n - 1);
      ScaleReal(1.0, 1.0 + HALF_DIGIT, Swollen(n - 1));
      ScaleReal(1.0 - HALF_DIGIT, 1.0, Shrunk(n - 1));
    }
  }

  // ---------------------------------------------------------------- where rounding shows

  lemma PowersOfTen()
    ensures Pow10(1) == 10 && Pow10(2) == 100 && Pow10(4) == 10000
    ensures Pow10(27) == 1_000_000_000_000_000_000_000_000_000
    ensures Pow10(28) == 10 * Pow10(27) && Pow10(29) == 100 * Pow10(27) && Pow10(31) == 10000 * Pow10(27)
    ensures Pow10(30) == 1000 * Pow10(27) && Pow10(32) == 100000 * Pow10(27)
  {
    assert Pow10(9) == 1_000_000_000;
    Pow10Sum(9, 9);
    Pow10Sum(18, 9);
  }

  lemma Digits(c: nat, n: nat)
    requires n >= 1 && Pow10(n - 1) <= c < Pow10(n)
    ensures DigitCount(c) == n
  {
    hide Pow10, DigitCount;
    FewDigits(c, n);
    ManyDigits(c, n - 1);
  }

  /** An amount of more than 28 digits, by its quotient and what is cut off. */
  lemma FixedTo(a: Amount, n: nat, q: nat)
    requires DigitCount(a.coefficient) == n > PRECISION && DivRound(a.coefficient, Pow10(n - PRECISION), HalfEven) == q
    ensures Fix(a) == Amount(q, a.exponent + n - PRECISION)
  {
  }

  const TINY := Amount(1, -29)

  /**
   The balance that its fills do not move: 1000 less 1E-29 is rounded back to 1000. The share is
   bought for nothing.
   */
  lemma TinyPriceCostsNothing()
    ensures var cash, fills := Amount(1000, 0), [Fill(1, TINY)];
      && AtMost(Paid(fills), cash)
      && Value(Balance(cash, Buy, fills)) == Value(cash)
      && ExactBalance(cash, Buy, fills) < Value(cash)
  {
    hide Value, Minus, AtMost, Paid, FillValue;
    PaidForOne(TINY);
    TinyBalance();
    FillValueOne(Fill(1, TINY));
    DecimalContext.ValueNonNegative(TINY);
  }

  const NEARLY_TEN := Amount(100 * 1_000_000_000_000_000_000_000_000_000 - 1, -28)

  /**
   The other way round exactness of the cash alone proves little: a sale at a price of 29 digits
   whose rounded product, added to 1E-28, is rounded back to the exact balance of 10.
   */
  lemma RoundingCanCancel()
    ensures var cash, fills := Amount(1, -28), [Fill(1, NEARLY_TEN)];
      && Value(Balance(cash, Sell, fills)) == ExactBalance(cash, Sell, fills)
      && Value(Product(fills[0])) != Worth(fills[0])
  {
    hide Value, Plus, Paid, FillValue, FewSignificant, Product;
    var f := Fill(1, NEARLY_TEN);
    NearlyTenIsRounded();
    NearlyTenBalance();
    FillValueOne(f);
    SumValue(Amount(1, -28), NEARLY_TEN);
  }

  lemma NearlyTenIsRounded()
    ensures Product(Fill(1, NEARLY_TEN)) == Amount(Pow10(28), -27)
    ensures Value(Product(Fill(1, NEARLY_TEN))) != Worth(Fill(1, NEARLY_TEN))
  {
    hide Value;
    PowersOfTen();
    var a := NEARLY_TEN;
    Digits(a.coefficient, 29);
    assert a.coefficient / 10 == Pow10(28) - 1 && a.coefficient % 10 == 9;
    FixedTo(a, 29, Pow10(28));
    FixKeepsFewSignificant(a);
  }

  lemma NearlyTenBalance()
    ensures var fills := [Fill(1, NEARLY_TEN)];
      Value(Balance(Amount(1, -28), Sell, fills)) == Value(ExactSum(Amount(1, -28), NEARLY_TEN))
  {
    hide Value, Plus, Product, ExactSum, Paid;
    NearlyTenIsRounded();
    PaidOnce(Fill(1, NEARLY_TEN));
    TenIsKept();
    TenSwallowsTheRest();
  }

  lemma PaidOnce(f: Fill)
    ensures Paid([f]) == Plus(Amount(0, 0), Product(f))
  {
    hide Plus, Product;
    assert [f][..0] == [] && [f][0] == f;
  }

  lemma TenIsKept()
    ensures Plus(Amount(0, 0), Amount(Pow10(28), -27)) == Amount(Pow10(27), -26)
  {
    hide Value, ExactSum;
    PowersOfTen();
    ZeroPlus(Amount(Pow10(28), -27));
    Digits(Pow10(28), 29);
    assert Pow10(28) / 10 == Pow10(27) && Pow10(28) % 10 == 0;
    FixedTo(Amount(Pow10(28), -27), 29, Pow10(27));
  }

  lemma ZeroPlus(a: Amount)
    requires a.exponent <= 0
    ensures ExactSum(Amount(0, 0), a) == a
  {
    hide Value;
    assert Pow10(0) == 1;
  }

  lemma TenSwallowsTheRest()
    ensures Value(Plus(Amount(1, -28), Amount(Pow10(27), -26))) == Value(ExactSum(Amount(1, -28), NEARLY_TEN))
  {
    hide Value;
    PowersOfTen();
    var a := ExactSum(Amount(1, -28), Amount(Pow10(27), -26));
    assert a == Amount(Pow10(29) + 1, -28);
    Digits(Pow10(29) + 1, 30);
    FixedTo(a, 30, Pow10(27));
    assert ExactSum(Amount(1, -28), NEARLY_TEN) == Amount(Pow10(29), -28);
    AlignedValue(Amount(Pow10(27), -26), -28);
  }

  lemma FillValueOne(f: Fill)
    ensures FillValue([f]) == Worth(f)
  {
    assert [f][1..] == [];
  }

  /** One fill of one share whose price needs no rounding is paid at its price. */
  lemma PaidForOne(price: Amount)
    requires DigitCount(price.coefficient) <= PRECISION && price.exponent <= 0
    ensures Product(Fill(1, price)) == price && Paid([Fill(1, price)]) == price
  {
    hide Value, ExactSum;
    PaidOnce(Fill(1, price));
    ZeroPlus(price);
  }

  lemma TinyBalance()
    ensures AtMost(TINY, Amount(1000, 0)) && Value(Minus(Amount(1000, 0), TINY)) == Value(Amount(1000, 0))
  {
    PowersOfTen();
    var all := 1000 * Pow10(29);
    assert Aligned(Amount(1000, 0), -29) == all && Aligned(TINY, -29) == 1;
    var a := ExactDifference(Amount(1000, 0), TINY);
    assert a == Amount(all - 1, -29);
    Digits(all - 1, 32);
    assert (all - 1) / 10000 == Pow10(28) - 1 && (all - 1) % 10000 == 9999;
    FixedTo(a, 32, Pow10(28));
    AlignedValue(Amount(1000, 0), -25);
    Pow10Sum(3, 25);
    assert Pow10(3) == 1000;
  }
}
