/**
 What an order is charged for greedy matching. The engine compares and moves the total rounded
 to 28 digits, and greedy matching is optimal in exact worth only: when the charge is least too,
 and by how much it can miss.
 */
module Charges {
  import opened Common
  import opened Decimals
  import opened Amounts
  import opened DecimalContext
  import opened Matching
  import opened Ledger
  import opened SimulatedBroker

  /** The money of taking these amounts, as the engine computes it. */
  function Charge(quotes: seq<Quote>, amounts: seq<int>): Amount
    requires |amounts| == |quotes|
  {
    Paid(FillsOf(quotes, amounts))
  }

  /** Another choice of as many shares as the plan takes. */
  ghost predicate Alternative(quotes: seq<Quote>, side: Side, limit: Option<real>, want: int, b: seq<int>) {
    && SoundQuotes(quotes, side) && want >= 0 && Takes(Levels(quotes), b)
    && Sum(b) == Sum(Greedy(Levels(quotes), side, limit, want))
  }

  /** For the order's side: a buyer is not charged more, a seller not paid less. */
  predicate NoWorse(side: Side, charge: Amount, other: Amount) {
    if side == Buy then AtMost(charge, other) else AtMost(other, charge)
  }

  lemma GreedyWorth(quotes: seq<Quote>, side: Side, limit: Option<real>, want: int, b: seq<int>)
    requires Alternative(quotes, side, limit, want, b)
    ensures var plan := FillValue(FillsOf(quotes, Greedy(Levels(quotes), side, limit, want)));
      if side == Buy then plan <= FillValue(FillsOf(quotes, b)) else plan >= FillValue(FillsOf(quotes, b))
  {
    hide Value, Key, FillValue, FillsOf, Total, Sum;
    PlanTakes(Levels(quotes), side, limit, want);
    GreedyIsOptimal(Levels(quotes), side, limit, want, b);
    FillsMatchPlan(quotes, Greedy(Levels(quotes), side, limit, want));
    FillsMatchPlan(quotes, b);
  }

  /** Where neither total needs rounding, greedy matching has the best charge too. */
  lemma GreedyIsChargedLeast(quotes: seq<Quote>, side: Side, limit: Option<real>, want: int, b: seq<int>)
    requires Alternative(quotes, side, limit, want, b)
    requires TotalFits(FillsOf(quotes, Greedy(Levels(quotes), side, limit, want))) && TotalFits(FillsOf(quotes, b))
    ensures NoWorse(side, Charge(quotes, Greedy(Levels(quotes), side, limit, want)), Charge(quotes, b))
  {
    hide Value, FillValue, FillsOf, TotalFits, Paid, AtMost, Greedy, Levels, SoundQuotes, Sum;
    var plan := Greedy(Levels(quotes), side, limit, want);
    GreedyWorth(quotes, side, limit, want, b);
    TotalIsPaid(FillsOf(quotes, plan));
    TotalIsPaid(FillsOf(quotes, b));
    OrderValue(Charge(quotes, plan), Charge(quotes, b));
    OrderValue(Charge(quotes, b), Charge(quotes, plan));
  }

  /** So on every ordinary book, which the caller can check before the order. */
  lemma OrdinaryGreedyIsChargedLeast(quotes: seq<Quote>, side: Side, limit: Option<real>, want: int, b: seq<int>,
                                     top: real, k: int)
    requires Alternative(quotes, side, limit, want, b) && Ordinary(quotes, want, 0.0, top, k)
    ensures NoWorse(side, Charge(quotes, Greedy(Levels(quotes), side, limit, want)), Charge(quotes, b))
  {
    hide Value, FillValue, FillsOf, TotalFits, NoWorse, Ordinary, Greedy, Levels, Sum;
    var plan := Greedy(Levels(quotes), side, limit, want);
    assert Takes(Levels(quotes), plan) && Sum(plan) <= want by {
      PlanTakes(Levels(quotes), side, limit, want);
    }
    OrdinaryChoiceFits(quotes, plan, want, 0.0, top, k);
    OrdinaryChoiceFits(quotes, b, want, 0.0, top, k);
    GreedyIsChargedLeast(quotes, side, limit, want, b);
  }

  /** There a buy refused for lack of cash could not have been paid for in any other way either. */
  lemma RefusedBuyHasNoAlternative(s: State, spec: OrderSpec, b: seq<int>, top: real, k: int)
    requires Sound(s) && ValidSpec(spec) && Judge(s, spec) == NotEnoughCash
    requires Alternative(QuotesFor(s, spec), spec.side, LimitWorth(spec), spec.quantity, b)
    requires Ordinary(QuotesFor(s, spec), spec.quantity, 0.0, top, k)
    ensures !AtMost(Charge(QuotesFor(s, spec), b), s.cash)
  {
    hide Value, FillsOf, Paid, AtMost, Ordinary, Greedy, Levels, Sum;
    var quotes := QuotesFor(s, spec);
    OrdinaryGreedyIsChargedLeast(quotes, Buy, LimitWorth(spec), spec.quantity, b, top, k);
    OrderValue(Charge(quotes, Plan(s, spec)), Charge(quotes, b));
    OrderValue(Charge(quotes, Plan(s, spec)), s.cash);
    OrderValue(Charge(quotes, b), s.cash);
  }

  /**
   On any book whatever, the charge of greedy matching misses the best one by no more than the
   roundings can add up to: half a unit in the 28th digit for each fill, and once more.
   */
  lemma GreedyIsChargedNearlyLeast(quotes: seq<Quote>, side: Side, limit: Option<real>, want: int, b: seq<int>)
    requires Alternative(quotes, side, limit, want, b)
    ensures var a := FillsOf(quotes, Greedy(Levels(quotes), side, limit, want)); var c := FillsOf(quotes, b);
      if side == Buy then Value(Paid(a)) * Shrunk(|c| + 1) <= Value(Paid(c)) * Swollen(|a| + 1)
      else Value(Paid(a)) * Swollen(|c| + 1) >= Value(Paid(c)) * Shrunk(|a| + 1)
  {
    hide Value, FillValue, FillsOf, Paid, Greedy, Levels, SoundQuotes, Sum, Swollen, Shrunk;
    var a, c := FillsOf(quotes, Greedy(Levels(quotes), side, limit, want)), FillsOf(quotes, b);
    GreedyWorth(quotes, side, limit, want, b);
    PaidIsNear(a);
    PaidIsNear(c);
    if side == Buy {
      Apart(Value(Paid(a)), FillValue(a), FillValue(c), Value(Paid(c)), Swollen(|a| + 1), Shrunk(|c| + 1));
    } else {
      Apart(Value(Paid(c)), FillValue(c), FillValue(a), Value(Paid(a)), Swollen(|c| + 1), Shrunk(|a| + 1));
    }
  }

  lemma Apart(a: real, x: real, y: real, b: real, most: real, least: real)
    requires most >= 0.0 && least >= 0.0 && a <= x * most && x <= y && y * least <= b
    ensures a * least <= b * most
  {
    ScaleReal(x, y, most);
    ScaleReal(a, y * most, least);
    ScaleReal(y * least, b, most);
    assert (y * most) * least == (y * least) * most;
  }

  // ---------------------------------------------------------------- where greedy is charged more

  const BILLION := 1_000_000_000
  const LOW := Amount(10 * BILLION * BILLION * BILLION + 6, -28)
  const HIGH := Amount(10 * BILLION * BILLION * BILLION + 7, -28)

  /** The asks 1.0000000000000000000000000006 and 1.0000000000000000000000000007, of one share and of two. */
  const ASKS := [Quote(LOW, 1), Quote(HIGH, 2)]

  /** Just what two shares of the dearer ask are charged. */
  const JUST := Amount(2 * BILLION * BILLION * BILLION + 1, -27)

  /**
   A buy of both cheapest shares is charged more than one of two dearer shares would be, and is
   refused with cash that pays for those.
   */
  lemma GreedyCanBeChargedMore()
    ensures var s := State(JUST, map[], map["X" := Book(ASKS, [])], map[], 0);
      var spec := OrderSpec("c", "X", Buy, Market, 2, None);
      && Sound(s) && ValidSpec(spec) && Plan(s, spec) == [1, 1]
      && Alternative(ASKS, Buy, None, 2, [0, 2]) && AtMost(Charge(ASKS, [0, 2]), s.cash)
      && "c" in Submitted(s, spec).orders && Submitted(s, spec).orders["c"].reason == Some(InsufficientCash)
      && !NoWorse(Buy, Charge(ASKS, Plan(s, spec)), Charge(ASKS, [0, 2]))
  {
    hide Value, Paid, AtMost, FillsOf, Times, Plus;
    var s := State(JUST, map[], map["X" := Book(ASKS, [])], map[], 0);
    var spec := OrderSpec("c", "X", Buy, Market, 2, None);
    LowIsLower();
    assert QuotesFor(s, spec) == ASKS;
    PlanOfAsks();
    ChargesOfAsks();
  }

  lemma LowIsLower()
    ensures 0.0 < Value(LOW) < Value(HIGH)
  {
    hide Value;
    ValueUnits(LOW);
    ValueUnits(HIGH);
    CompareUnits(HIGH.coefficient, LOW.coefficient, Unit(-28));
    DecimalContext.ValueNonNegative(LOW);
  }

  lemma PlanOfAsks()
    ensures Greedy(Levels(ASKS), Buy, None, 2) == [1, 1] && Sum([1, 1]) == 2 == Sum([0, 2])
  {
    hide Value;
    assert Levels(ASKS)[1..] == [Level(Value(HIGH), 2)] && Levels(ASKS)[1..][1..] == [];
    assert Greedy([], Buy, None, 0) == [];
    assert Greedy([Level(Value(HIGH), 2)], Buy, None, 1) == [1];
    assert [1, 1][1..] == [1] && [0, 2][1..] == [2] && [1][1..] == [] && [2][1..] == [];
  }

  lemma ChargesOfAsks()
    ensures Charge(ASKS, [0, 2]) == JUST
    ensures Charge(ASKS, [1, 1]) == Amount(JUST.coefficient + 1, -27)
    ensures AtMost(JUST, JUST) && !AtMost(Amount(JUST.coefficient + 1, -27), JUST)
  {
    hide Plus, Product, FillsOf, Paid, Pow10;
    FillsOfAsks();
    OneShare(LOW);
    OneShare(HIGH);
    TwoShares();
    PaidTwice(Fill(1, LOW), Fill(1, HIGH));
    PaidOnce(Fill(2, HIGH));
    PowersOfTen();
    Whole(JUST.coefficient);
    Whole(Pow10(27) + 1);
    Doubled();
    InCoefficients(JUST.coefficient, JUST.coefficient, -27);
    InCoefficients(JUST.coefficient + 1, JUST.coefficient, -27);
  }

  lemma FillsOfAsks()
    ensures FillsOf(ASKS, [0, 2]) == [Fill(2, HIGH)] && FillsOf(ASKS, [1, 1]) == [Fill(1, LOW), Fill(1, HIGH)]
  {
    assert ASKS[1..] == [Quote(HIGH, 2)] && ASKS[1..][1..] == [];
    assert [1, 1][1..] == [1] && [0, 2][1..] == [2] && [1][1..] == [] && [2][1..] == [];
    assert FillsOf([], []) == [];
  }

  lemma InCoefficients(x: nat, y: nat, e: int)
    ensures AtMost(Amount(x, e), Amount(y, e)) <==> x <= y
  {
    assert Pow10(0) == 1;
  }

  /** Both prices are charged as 1.000000000000000000000000001 for one share. */
  lemma OneShare(price: Amount)
    requires price == LOW || price == HIGH
    ensures Product(Fill(1, price)) == Amount(Pow10(27) + 1, -27)
  {
    PowersOfTen();
    Digits(price.coefficient, 29);
    assert price.coefficient / 10 == Pow10(27) && price.coefficient % 10 >= 6;
    FixedTo(price, 29, Pow10(27) + 1);
  }

  lemma TwoShares()
    ensures Product(Fill(2, HIGH)) == JUST
  {
    PowersOfTen();
    var a := Amount(HIGH.coefficient * 2, -28);
    Digits(a.coefficient, 29);
    assert a.coefficient / 10 == JUST.coefficient && a.coefficient % 10 == 4;
    FixedTo(a, 29, JUST.coefficient);
  }

  lemma PaidTwice(f: Fill, g: Fill)
    ensures Paid([f, g]) == Plus(Plus(Amount(0, 0), Product(f)), Product(g))
  {
    hide Plus, Product;
    assert [f, g][..1] == [f];
    PaidOnce(f);
  }

  /** Nothing is added to, or rounded off, an amount of 28 digits. */
  lemma Whole(c: nat)
    requires Pow10(27) <= c < Pow10(28)
    ensures Plus(Amount(0, 0), Amount(c, -27)) == Amount(c, -27)
  {
    hide Pow10, ExactSum;
    ZeroPlus(Amount(c, -27));
    Digits(c, 28);
  }

  lemma Doubled()
    ensures Plus(Amount(Pow10(27) + 1, -27), Amount(Pow10(27) + 1, -27)) == Amount(JUST.coefficient + 1, -27)
  {
    PowersOfTen();
    assert Pow10(0) == 1;
    Digits(JUST.coefficient + 1, 28);
  }
}
