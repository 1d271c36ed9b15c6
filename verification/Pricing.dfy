/**
 Order pricing in decimal context arithmetic: multiplication rounds to the working precision in
 whatever mode the ambient context has, and `quantize` refuses a result of more digits than that.
 */
module Pricing {
  import opened Common
  import opened Decimals
  import opened Amounts

  datatype Side = Buy | Sell

  /** `positive_decimal`'s bounds, shared by `plan_order`. */
  predicate Supported(a: Amount) {
    a.coefficient > 0 && DigitCount(a.coefficient) <= 128 && -100 <= a.exponent <= 100
  }

  // ---------------------------------------------------------------- context arithmetic

  function Multiply(a: Amount, b: Amount, precision: nat, ambient: Rounding): Amount {
    Rounded(Amount(a.coefficient * b.coefficient, a.exponent + b.exponent), precision, ambient)
  }

  /** `None` is the InvalidOperation of a result that needs more digits than the precision. */
  function Quantize(a: Amount, exponent: int, mode: Rounding, precision: nat): Option<Amount> {
    var c := if a.exponent >= exponent then a.coefficient * Pow10(a.exponent - exponent)
             else DivRound(a.coefficient, Pow10(exponent - a.exponent), mode);
    if DigitCount(c) > precision then None else Some(Amount(c, exponent))
  }

  function CentMode(side: Side): Rounding {
    if side == Buy then Ceiling else Floor
  }

  // ---------------------------------------------------------------- the operations

  datatype Priced = Price(price: Amount) | NoPrice | InvalidOperation

  function Factor(side: Side): Amount {
    Amount(if side == Buy then 101 else 99, -2)
  }

  function MarketPrecision(quote: Amount): nat {
    Max(28, DigitCount(quote.coefficient) + Max(quote.exponent, 0) + 6)
  }

  /** `market_limit_price`. */
  function MarketLimitPrice(quote: Amount, side: Side, ambient: Rounding): Priced {
    if !Supported(quote) then NoPrice
    else
      var precision := MarketPrecision(quote);
      match Quantize(Multiply(quote, Factor(side), precision, ambient), -2, CentMode(side), precision)
      case None => InvalidOperation
      case Some(value) => if value.coefficient == 0 then NoPrice else Price(value)
  }

  function PlanPrecision(price: Amount): nat {
    Max(28, DigitCount(price.coefficient) + Max(price.exponent, 0) + 3)
  }

  /** The price part of `plan_order` for limit and timed-cancel orders. */
  function PlanPrice(price: Amount, side: Side): Priced {
    if !Supported(price) then NoPrice
    else
      match Quantize(price, -2, CentMode(side), PlanPrecision(price))
      case None => InvalidOperation
      case Some(value) => if value.coefficient == 0 then NoPrice else Price(value)
  }

  /** The floor both sizing functions take over two integer ratios. */
  function QuantityOf(budgetNum: nat, budgetDen: nat, priceNum: nat, priceDen: nat): nat
    requires budgetDen > 0 && priceNum > 0
  {
    (budgetNum * priceDen) / (budgetDen * priceNum)
  }

  // ---------------------------------------------------------------- digit counts

  lemma ProductBelow(a: nat, b: nat, x: nat, y: nat)
    requires a < x && b < y
    ensures a * b < x * y
  {
    assert a * b <= a * y;
    assert a * y < x * y;
  }

  /** The precision chosen for a synthetic price holds every digit of the exact product. */
  lemma ProductFits(quote: Amount, side: Side)
    requires Supported(quote)
    ensures quote.coefficient * Factor(side).coefficient < Pow10(DigitCount(quote.coefficient) + 3)
    ensures DigitCount(quote.coefficient * Factor(side).coefficient) <= MarketPrecision(quote)
  {
    var n := DigitCount(quote.coefficient);
    DigitsBelow(quote.coefficient);
    assert Pow10(3) == 1000;
    ProductBelow(quote.coefficient, Factor(side).coefficient, Pow10(n), Pow10(3));
    Pow10Sum(n, 3);
    FewDigits(quote.coefficient * Factor(side).coefficient, n + 3);
    DigitsMonotone(DigitCount(quote.coefficient * Factor(side).coefficient), n + 3, MarketPrecision(quote));
  }

  lemma DigitsMonotone(a: nat, b: nat, c: nat)
    requires a <= b <= c
    ensures a <= c
  {
  }

  /** The exact cents: `c * 10^e` rounded to an integer. */
  function Cents(c: nat, e: int, mode: Rounding): nat {
    if e >= 0 then c * Pow10(e) else DivRound(c, Pow10(-e), mode)
  }

  lemma ShiftFits(c: nat, e: nat, n: nat)
    requires c < Pow10(n) && n >= 1
    ensures DigitCount(c * Pow10(e)) <= n + e
  {
    ScaleBelow(c, Pow10(n), Pow10(e));
    Pow10Sum(n, e);
    FewDigits(c * Pow10(e), n + e);
  }

  lemma CentsFit(c: nat, e: int, mode: Rounding, n: nat)
    requires c < Pow10(n) && n >= 1 && !mode.Ambient?
    ensures DigitCount(Cents(c, e, mode)) <= n + Max(e, 0) + 1
  {
    if e >= 0 {
      ShiftFits(c, e, n);
    } else {
      DivRoundBelow(c, Pow10(-e), mode);
      assert Pow10(n + 1) == 10 * Pow10(n);
      FewDigits(Cents(c, e, mode), n + 1);
    }
  }

  /** So the synthetic price is exactly the rounded product, in every ambient context. */
  lemma MarketPriceIsExactCents(quote: Amount, side: Side, ambient: Rounding)
    requires Supported(quote)
    ensures var cents := Cents(quote.coefficient * Factor(side).coefficient, quote.exponent, CentMode(side));
      MarketLimitPrice(quote, side, ambient) == if cents == 0 then NoPrice else Price(Amount(cents, -2))
  {
    ProductFits(quote, side);
    CentsFit(quote.coefficient * Factor(side).coefficient, quote.exponent, CentMode(side),
             DigitCount(quote.coefficient) + 3);
  }

  // ---------------------------------------------------------------- bounds

  /** Ceiling and floor division as inequalities. */
  lemma DivRoundBounds(c: nat, d: nat)
    requires d > 0
    ensures c <= DivRound(c, d, Ceiling) * d < c + d
    ensures DivRound(c, d, Floor) * d <= c < DivRound(c, d, Floor) * d + d
  {
    Divided(c, d);
    if c % d == 0 {
      assert DivRound(c, d, Ceiling) == c / d;
    } else {
      assert DivRound(c, d, Ceiling) == c / d + 1;
    }
  }

  lemma RoundedBounds(c: nat, e: int)
    ensures var num, den := Num(Amount(c, e)), Den(Amount(c, e));
      && num <= Cents(c, e, Ceiling) * den < num + den
      && Cents(c, e, Floor) * den <= num < Cents(c, e, Floor) * den + den
  {
    if e < 0 {
      assert Pow10(Max(e, 0)) == 1;
      DivRoundBounds(c, Pow10(-e));
    } else {
      assert Pow10(Max(-e, 0)) == 1;
    }
  }

  /** An integer comparison against `num / den` as a comparison of reals. */
  lemma AgainstRatio(c: int, num: nat, den: nat)
    requires den > 0
    ensures c * den <= num <==> c as real <= num as real / den as real
    ensures num <= c * den <==> num as real / den as real <= c as real
  {
    var x := num as real / den as real;
    assert x * den as real == num as real;
    assert (c * den) as real == c as real * den as real;
    ScaleOrder(c as real, x, den as real);
    ScaleOrder(x, c as real, den as real);
  }

  // ---------------------------------------------------------------- synthetic prices

  lemma BetweenCents(up: int, down: int, num: nat, den: nat)
    requires den > 0 && num <= up * den < num + den && down * den <= num < down * den + den
    ensures var exact := num as real / den as real;
      exact <= up as real < exact + 1.0 && exact - 1.0 < down as real <= exact
  {
    AgainstRatio(up, num, den);
    AgainstRatio(up - 1, num, den);
    AgainstRatio(down, num, den);
    AgainstRatio(down + 1, num, den);
    assert (up - 1) * den == up * den - den && (down + 1) * den == down * den + den;
  }

  /** The two roundings of an amount to an integer, around the amount. */
  lemma RoundedAround(c: nat, e: int)
    ensures var exact := Value(Amount(c, e));
      exact <= Cents(c, e, Ceiling) as real < exact + 1.0 && exact - 1.0 < Cents(c, e, Floor) as real <= exact
  {
    hide Cents, Num, Den;
    RoundedBounds(c, e);
    BetweenCents(Cents(c, e, Ceiling), Cents(c, e, Floor), Num(Amount(c, e)), Den(Amount(c, e)));
  }

  /** The rounded product between its two cents, for both sides at once. */
  lemma ProductBounds(quote: Amount, k: nat)
    ensures var c, exact := quote.coefficient * k, k as real * Value(quote);
      && exact <= Cents(c, quote.exponent, Ceiling) as real < exact + 1.0
      && exact - 1.0 < Cents(c, quote.exponent, Floor) as real <= exact
  {
    hide Cents, Value;
    RoundedAround(quote.coefficient * k, quote.exponent);
    RatioTimes(quote, k);
  }

  lemma RatioTimes(quote: Amount, k: nat)
    ensures Value(Amount(quote.coefficient * k, quote.exponent)) == k as real * Value(quote)
  {
    hide Pow10;
    var p := Pow10(Max(quote.exponent, 0));
    Associate(k, quote.coefficient, p);
    assert quote.coefficient * k * p == k * Num(quote);
    assert (k * Num(quote)) as real == k as real * Num(quote) as real;
  }

  lemma CentsValue(c: nat)
    ensures Value(Amount(c, -2)) == c as real / 100.0
  {
    assert Pow10(2) == 100;
  }

  lemma BuyCents(quote: Amount)
    requires quote.coefficient > 0
    ensures var cents := Cents(quote.coefficient * 101, quote.exponent, Ceiling);
      cents > 0 && 1.01 * Value(quote) <= cents as real / 100.0 < 1.01 * Value(quote) + 0.01
  {
    ProductBounds(quote, 101);
    PositiveValue(quote);
    hide *;
    UpHundredths(Value(quote), Cents(quote.coefficient * 101, quote.exponent, Ceiling));
  }

  lemma SellCents(quote: Amount)
    ensures var cents := Cents(quote.coefficient * 99, quote.exponent, Floor);
      && (cents == 0 <==> 0.99 * Value(quote) < 0.01)
      && 0.99 * Value(quote) - 0.01 < cents as real / 100.0 <= 0.99 * Value(quote)
  {
    ProductBounds(quote, 99);
    hide *;
    DownHundredths(Value(quote), Cents(quote.coefficient * 99, quote.exponent, Floor));
  }

  /** Bounds on the cents of 101 or 99 hundredths, as bounds on the share of the amount. */
  lemma UpHundredths(v: real, c: nat)
    requires v > 0.0 && 101 as real * v <= c as real < 101 as real * v + 1.0
    ensures c > 0 && 1.01 * v <= c as real / 100.0 < 1.01 * v + 0.01
  {
  }

  lemma DownHundredths(v: real, c: nat)
    requires 99 as real * v - 1.0 < c as real <= 99 as real * v
    ensures c == 0 <==> 0.99 * v < 0.01
    ensures 0.99 * v - 0.01 < c as real / 100.0 <= 0.99 * v
  {
  }

  /** A buy is priced one percent above the ask, rounded up by less than a cent, whatever the ambient context. */
  lemma BuyPrice(quote: Amount, ambient: Rounding)
    requires Supported(quote)
    ensures var priced := MarketLimitPrice(quote, Buy, ambient);
      && priced.Price? && priced.price.exponent == -2
      && 1.01 * Value(quote) <= Value(priced.price) < 1.01 * Value(quote) + 0.01
  {
    MarketPriceIsExactCents(quote, Buy, ambient);
    BuyCents(quote);
    CentsValue(Cents(quote.coefficient * 101, quote.exponent, Ceiling));
  }

  /** A sell is priced one percent below the bid, rounded down; it is refused exactly when that leaves no cent. */
  lemma SellPrice(quote: Amount, ambient: Rounding)
    requires Supported(quote)
    ensures var priced := MarketLimitPrice(quote, Sell, ambient);
      && (priced.NoPrice? <==> 0.99 * Value(quote) < 0.01)
      && !priced.InvalidOperation?
      && (priced.Price? ==> priced.price.exponent == -2)
      && (priced.Price? ==> 0.99 * Value(quote) - 0.01 < Value(priced.price) <= 0.99 * Value(quote))
  {
    MarketPriceIsExactCents(quote, Sell, ambient);
    SellCents(quote);
    CentsValue(Cents(quote.coefficient * 99, quote.exponent, Floor));
  }

  // ---------------------------------------------------------------- planned prices

  lemma PlanPriceIsExactCents(price: Amount, side: Side)
    requires Supported(price)
    ensures var cents := Cents(price.coefficient, price.exponent + 2, CentMode(side));
      PlanPrice(price, side) == if cents == 0 then NoPrice else Price(Amount(cents, -2))
  {
    DigitsBelow(price.coefficient);
    CentsFit(price.coefficient, price.exponent + 2, CentMode(side), DigitCount(price.coefficient));
  }

  /** Shifting the exponent by two is a factor of one hundred. */
  lemma HundredTimes(price: Amount)
    ensures Value(Amount(price.coefficient, price.exponent + 2)) == 100.0 * Value(price)
  {
    var c, e := price.coefficient, price.exponent;
    if e >= 0 {
      Pow10Sum(2, e);
      assert Pow10(e + 2) == 100 * Pow10(e);
      Associate(c, 100, Pow10(e));
      Associate(100, c, Pow10(e));
    } else if e == -1 {
      assert Pow10(1) == 10;
    } else {
      Pow10Sum(2, -e - 2);
      assert Pow10(-e) == 100 * Pow10(-e - 2);
      TenthsCancel(c, Pow10(-e - 2));
    }
  }

  lemma TenthsCancel(c: nat, d: nat)
    requires d > 0
    ensures c as real / d as real == 100.0 * (c as real / (100 * d) as real)
  {
    var x := c as real / (100 * d) as real;
    assert x * (100 * d) as real == c as real;
    assert (100 * d) as real == 100.0 * d as real;
    assert (100.0 * x) * d as real == c as real;
  }

  /** Bounds on the cents of a hundredfold amount, as bounds on the amount. */
  lemma HundredthsOf(v: real, hundred: real, up: nat, down: nat)
    requires hundred == 100.0 * v
    requires hundred <= up as real < hundred + 1.0 && hundred - 1.0 < down as real <= hundred
    ensures v <= up as real / 100.0 < v + 0.01 && v - 0.01 < down as real / 100.0 <= v
  {
  }

  /** The cents of either side around the exact price. */
  lemma CentsOf(price: Amount)
    ensures var c, e, v := price.coefficient, price.exponent + 2, Value(price);
      && v <= Value(Amount(Cents(c, e, Ceiling), -2)) < v + 0.01
      && v - 0.01 < Value(Amount(Cents(c, e, Floor), -2)) <= v
  {
    hide Value, Cents;
    var c, e := price.coefficient, price.exponent + 2;
    HundredTimes(price);
    RoundedAround(c, e);
    HundredthsOf(Value(price), Value(Amount(c, e)), Cents(c, e, Ceiling), Cents(c, e, Floor));
    CentsValue(Cents(c, e, Ceiling));
    CentsValue(Cents(c, e, Floor));
  }

  /** No cent is left exactly when the rounded value is zero. */
  lemma NoCents(c: nat)
    ensures c == 0 <==> Value(Amount(c, -2)) < 0.01
    ensures c == 0 <==> Value(Amount(c, -2)) <= 0.0
  {
    hide Value;
    CentsValue(c);
  }

  lemma PlannedBuy(price: Amount)
    requires Supported(price)
    ensures var planned := PlanPrice(price, Buy);
      planned.Price? && planned.price.exponent == -2 && Value(price) <= Value(planned.price) < Value(price) + 0.01
  {
    assert price.coefficient > 0;
    hide Value, PlanPrice, Cents, Supported;
    PlanPriceIsExactCents(price, Buy);
    CentsOf(price);
    PositiveValue(price);
    NoCents(Cents(price.coefficient, price.exponent + 2, Ceiling));
  }

  lemma PlannedSell(price: Amount)
    requires Supported(price)
    ensures var planned := PlanPrice(price, Sell);
      && !planned.InvalidOperation? && (planned.NoPrice? <==> Value(price) < 0.01)
      && (planned.Price? ==> planned.price.exponent == -2 && Value(price) - 0.01 < Value(planned.price) <= Value(price))
  {
    hide Value, PlanPrice, Cents, Supported;
    PlanPriceIsExactCents(price, Sell);
    CentsOf(price);
    NoCents(Cents(price.coefficient, price.exponent + 2, Floor));
  }

  /**
   A limit price goes out as whole cents: a buy at the least cent amount at or above the
   requested price, a sell at the greatest at or below it, refused exactly below one cent.
   */
  lemma PlannedPrice(price: Amount, side: Side)
    requires Supported(price)
    ensures var planned := PlanPrice(price, side);
      && !planned.InvalidOperation?
      && (planned.NoPrice? <==> side == Sell && Value(price) < 0.01)
      && (planned.Price? ==> planned.price.exponent == -2)
      && (planned.Price? && side == Buy ==> Value(price) <= Value(planned.price) < Value(price) + 0.01)
      && (planned.Price? && side == Sell ==> Value(price) - 0.01 < Value(planned.price) <= Value(price))
  {
    hide Value, PlanPrice, Supported;
    match side
    case Buy => PlannedBuy(price);
    case Sell => PlannedSell(price);
  }

  /** An amount of cents passes planning unchanged exactly when planning accepts its digit count. */
  lemma CentsArePlanned(price: Amount, side: Side)
    requires price.coefficient > 0 && price.exponent == -2
    ensures PlanPrice(price, side) == if DigitCount(price.coefficient) <= 128 then Price(price) else NoPrice
  {
    assert Pow10(0) == 1;
  }

  /**
   The synthetic price reaches the signed order unchanged if and only if it has at most the
   128 digits `plan_order` supports; a longer one is refused, never altered. A quote whose
   digits and exponent together stay under 125 is always short enough.
   */
  lemma PlanningKeepsTheSyntheticPrice(quote: Amount, side: Side, ambient: Rounding)
    requires MarketLimitPrice(quote, side, ambient).Price?
    ensures var price := MarketLimitPrice(quote, side, ambient).price;
      && (PlanPrice(price, side) == Price(price) <==> DigitCount(price.coefficient) <= 128)
      && (DigitCount(price.coefficient) > 128 ==> PlanPrice(price, side) == NoPrice)
      && (DigitCount(quote.coefficient) + Max(quote.exponent, 0) <= 124 ==> PlanPrice(price, side) == Price(price))
  {
    MarketPriceIsExactCents(quote, side, ambient);
    var price := MarketLimitPrice(quote, side, ambient).price;
    CentsArePlanned(price, side);
    ProductFits(quote, side);
    CentsFit(quote.coefficient * Factor(side).coefficient, quote.exponent, CentMode(side),
             DigitCount(quote.coefficient) + 3);
  }

  /** So planning refuses the synthetic price of any long enough quote. */
  lemma LongQuoteIsRefused(quote: Amount, ambient: Rounding)
    requires Supported(quote) && quote.exponent >= 0 && DigitCount(quote.coefficient) + quote.exponent > 126
    ensures MarketLimitPrice(quote, Buy, ambient).Price?
    ensures PlanPrice(MarketLimitPrice(quote, Buy, ambient).price, Buy) == NoPrice
  {
    MarketPriceIsExactCents(quote, Buy, ambient);
    var n, e := DigitCount(quote.coefficient), quote.exponent;
    var cents := Cents(quote.coefficient * 101, e, Ceiling);
    DigitsBelow(quote.coefficient);
    HundredfoldDigits(quote.coefficient, n - 1, e);
    assert DigitCount(cents) > 128;
    CentsArePlanned(Amount(cents, -2), Buy);
  }

  lemma HundredfoldDigits(c: nat, n: nat, e: nat)
    requires c >= Pow10(n)
    ensures DigitCount(c * 101 * Pow10(e)) > n + 2 + e
  {
    assert Pow10(n + 2) == 100 * Pow10(n);
    Pow10Sum(n + 2, e);
    ScaleAtMost(Pow10(n + 2), c * 101, Pow10(e));
    ManyDigits(c * 101 * Pow10(e), n + 2 + e);
  }

  lemma LongSyntheticPriceIsRefused(ambient: Rounding)
    ensures var quote := Amount(100000000000000000000000000, 100);
      && Supported(quote) && MarketLimitPrice(quote, Buy, ambient).Price?
      && PlanPrice(MarketLimitPrice(quote, Buy, ambient).price, Buy) == NoPrice
  {
    var quote := Amount(100000000000000000000000000, 100);
    assert Pow10(13) == 10000000000000;
    Pow10Sum(13, 13);
    DigitsOfPower(26);
    LongQuoteIsRefused(quote, ambient);
  }

  // ---------------------------------------------------------------- quantities

  /** `quantity_at_limit`; `quantity_for_notional` sizes by the same floor. */
  function QuantityAtLimit(budget: Amount, price: Amount): Result<nat> {
    if !Supported(budget) || !Supported(price) then Failure
    else
      PositiveValue(price);
      var quantity := QuantityOf(Num(budget), Den(budget), Num(price), Den(price));
      if quantity == 0 then Failure else Success(quantity)
  }

  /** The most whole shares the budget pays for. */
  ghost predicate Affords(quantity: nat, budget: real, price: real) {
    quantity as real * price <= budget < (quantity + 1) as real * price
  }

  lemma ProductOfRatios(q: nat, bn: nat, bd: nat, pn: nat, pd: nat)
    requires bd > 0 && pd > 0 && pn > 0
    ensures q * (bd * pn) <= bn * pd <==> q as real * (pn as real / pd as real) <= bn as real / bd as real
  {
    var b, p := bn as real / bd as real, pn as real / pd as real;
    var d := bd as real * pd as real;
    assert bn as real == b * bd as real && pn as real == p * pd as real;
    assert (bn * pd) as real == bn as real * pd as real == b * d;
    assert (q * (bd * pn)) as real == q as real * (bd as real * pn as real) == (q as real * p) * d;
    ScaleOrder(q as real * p, b, d);
  }

  /**
   The quantity is the most shares the budget pays for, exactly, for every pair of integer
   ratios that denote the two amounts, reduced or not.
   */
  lemma QuantityIsAffordable(bn: nat, bd: nat, pn: nat, pd: nat)
    requires bd > 0 && pd > 0 && pn > 0
    ensures var q, b, p := QuantityOf(bn, bd, pn, pd), bn as real / bd as real, pn as real / pd as real;
      Affords(q, b, p)
  {
    var q := QuantityOf(bn, bd, pn, pd);
    Divided(bn * pd, bd * pn);
    ProductOfRatios(q, bn, bd, pn, pd);
    ProductOfRatios(q + 1, bn, bd, pn, pd);
  }

  lemma AffordableIsUnique(q: nat, r: nat, b: real, p: real)
    requires p > 0.0 && Affords(q, b, p) && Affords(r, b, p)
    ensures q == r
  {
    ScaleOrder((q + 1) as real, r as real, p);
    ScaleOrder((r + 1) as real, q as real, p);
  }

  /** Equal ratios size the order the same way, so reducing them first changes nothing. */
  lemma SizingIgnoresReduction(bn: nat, bd: nat, pn: nat, pd: nat, bn': nat, bd': nat, pn': nat, pd': nat)
    requires bd > 0 && pd > 0 && pn > 0 && bd' > 0 && pd' > 0 && pn' > 0
    requires bn as real / bd as real == bn' as real / bd' as real
    requires pn as real / pd as real == pn' as real / pd' as real
    ensures QuantityOf(bn, bd, pn, pd) == QuantityOf(bn', bd', pn', pd')
  {
    QuantityIsAffordable(bn, bd, pn, pd);
    QuantityIsAffordable(bn', bd', pn', pd');
    RatioPositive(pn, pd);
    AffordableIsUnique(QuantityOf(bn, bd, pn, pd), QuantityOf(bn', bd', pn', pd'), bn as real / bd as real,
                       pn as real / pd as real);
  }

  lemma RatioPositive(n: nat, d: nat)
    requires n > 0 && d > 0
    ensures n as real / d as real > 0.0
  {
  }

  lemma SharesAffordable(q: nat, b: real, p: real)
    requires p > 0.0 && Affords(q, b, p)
    ensures q > 0 <==> p <= b
  {
    if q > 0 { ScaleOrder(1.0, q as real, p); }
  }

  lemma SizedRatios(bn: nat, bd: nat, pn: nat, pd: nat)
    requires bd > 0 && pd > 0 && pn > 0
    ensures var q, b, p := QuantityOf(bn, bd, pn, pd), bn as real / bd as real, pn as real / pd as real;
      (q > 0 <==> p <= b) && Affords(q, b, p)
  {
    QuantityIsAffordable(bn, bd, pn, pd);
    RatioPositive(pn, pd);
    SharesAffordable(QuantityOf(bn, bd, pn, pd), bn as real / bd as real, pn as real / pd as real);
  }

  /** `quantity * price <= budget < (quantity + 1) * price`; refused exactly below one share. */
  lemma SizedFromBudget(budget: Amount, price: Amount)
    requires Supported(budget) && Supported(price)
    ensures var sized := QuantityAtLimit(budget, price);
      && (sized.Success? <==> Value(price) <= Value(budget))
      && (sized.Success? ==> sized.value > 0 && Affords(sized.value, Value(budget), Value(price)))
  {
    PositiveValue(price);
    SizedRatios(Num(budget), Den(budget), Num(price), Den(price));
  }
}
