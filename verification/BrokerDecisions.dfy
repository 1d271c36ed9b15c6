/**
 What a submission decides and leaves, said from the positions, the cash and the book it finds:
 why an order is declined, its status, and the position with its average cost.
 */
module BrokerDecisions {
  import opened Common
  import opened Decimals
  import opened Amounts
  import opened DecimalContext
  import opened Matching
  import opened Ledger
  import opened SimulatedBroker
  import opened Charges

  // ---------------------------------------------------------------- eligible depth

  /** The shares of one side of the book that are inside the order's limit. */
  function EligibleDepth(quotes: seq<Quote>, side: Side, limit: Option<Amount>): int {
    if quotes == [] then 0
    else
      var inside := limit.None? ||
        if side == Buy then Value(quotes[0].price) <= Value(limit.value)
        else Value(quotes[0].price) >= Value(limit.value);
      (if inside then quotes[0].quantity else 0) + EligibleDepth(quotes[1..], side, limit)
  }

  lemma {:induction false} NothingEligible(quotes: seq<Quote>, side: Side, limit: Amount)
    requires forall k :: 0 <= k < |quotes| ==> !Eligible(side, Some(Value(limit)), Value(quotes[k].price))
    ensures EligibleDepth(quotes, side, Some(limit)) == 0
  {
    hide Value;
    if quotes != [] { NothingEligible(quotes[1..], side, limit); }
  }

  lemma {:induction false} DepthNonNegative(quotes: seq<Quote>, side: Side, limit: Option<Amount>)
    requires Depth(Levels(quotes))
    ensures EligibleDepth(quotes, side, limit) >= 0
  {
    hide Value;
    if quotes != [] {
      assert Levels(quotes)[0].quantity == quotes[0].quantity;
      RestIsSound(quotes);
      DepthNonNegative(quotes[1..], side, limit);
    }
  }

  lemma RestIsSound(quotes: seq<Quote>)
    requires quotes != []
    ensures Levels(quotes)[1..] == Levels(quotes[1..]) && Levels(quotes)[0] == LevelOf(quotes[0])
  {
    hide Value;
  }

  function Worths(limit: Option<Amount>): Option<real> {
    if limit.Some? then Some(Value(limit.value)) else None
  }

  /** Greedy matching takes as much as is wanted, or all that is inside the limit. */
  lemma {:induction false} GreedyTakesEligibleDepth(quotes: seq<Quote>, side: Side, limit: Option<Amount>, want: int)
    requires Depth(Levels(quotes)) && Sorted(Levels(quotes), side) && want >= 0
    ensures Sum(Greedy(Levels(quotes), side, Worths(limit), want)) == Min(want, EligibleDepth(quotes, side, limit))
  {
    hide Value;
    DepthNonNegative(quotes, side, limit);
    if quotes != [] {
      RestIsSound(quotes);
      var levels, worth := Levels(quotes), Worths(limit);
      assert levels[0].quantity == quotes[0].quantity >= 0;
      if want == 0 {
        NothingWanted(levels, side, worth);
      } else if !Eligible(side, worth, levels[0].price) {
        forall k | 0 <= k < |quotes|
          ensures !Eligible(side, worth, Value(quotes[k].price))
        {
          assert levels[k].price == Value(quotes[k].price);
        }
        NothingEligible(quotes, side, limit.value);
        SumOfZeros(Greedy(levels, side, worth, want));
      } else {
        var taken := Min(want, levels[0].quantity);
        DepthNonNegative(quotes[1..], side, limit);
        GreedyTakesEligibleDepth(quotes[1..], side, limit, want - taken);
        assert Greedy(levels, side, worth, want)[1..] == Greedy(levels[1..], side, worth, want - taken);
      }
    }
  }

  // ---------------------------------------------------------------- decisions

  /** What the order is decided on. */
  datatype Facts = Facts(held: int, depth: int, charge: Amount, cash: Amount)

  function FactsOf(s: State, spec: OrderSpec): Facts {
    var quotes := QuotesFor(s, spec);
    Facts(if spec.symbol in s.positions then s.positions[spec.symbol].quantity else 0,
          EligibleDepth(quotes, spec.side, spec.limitPrice), Charge(quotes, Plan(s, spec)), s.cash)
  }

  /** The recorded status and reason that the facts call for. */
  predicate Decides(spec: OrderSpec, f: Facts, order: SimOrder) {
    if spec.side == Sell && f.held < spec.quantity then
      order.status == Rejected && order.reason == Some(InsufficientShares) && order.fills == []
    else if spec.kind == Fok && f.depth < spec.quantity then
      order.status == Cancelled && order.reason == Some(FokNotFullyExecutable) && order.fills == []
    else if spec.side == Buy && Value(f.cash) < Value(f.charge) then
      order.status == Rejected && order.reason == Some(InsufficientCash) && order.fills == []
    else
      && FillQuantity(order.fills) == Min(spec.quantity, f.depth)
      && if f.depth >= spec.quantity then order.status == Filled && order.reason == None
         else if spec.kind == Market then order.status == Cancelled && order.reason == Some(MarketRemainderCancelled)
         else order.status == (if f.depth > 0 then PartiallyFilled else Open) && order.reason == None
  }

  /**
   A new order is declined exactly for a sale of more than is held, an all-or-none order beyond the
   eligible depth, or a purchase charged more than the cash; otherwise it takes what it wants or all
   that is eligible, by the greedy plan.
   */
  lemma DecisionsAreExact(s: State, spec: OrderSpec)
    requires Sound(s) && ValidSpec(spec) && spec.commandId !in s.orders
    ensures spec.commandId in Submitted(s, spec).orders
    ensures var order := Submitted(s, spec).orders[spec.commandId];
      && Decides(spec, FactsOf(s, spec), order)
      && order.spec == spec && order.number == s.submissionCount + 1 == Submitted(s, spec).submissionCount
      && (order.fills == [] || order.fills == FillsOf(QuotesFor(s, spec), Plan(s, spec)))
  {
    hide Value, Key, DividedBy, Plus, Times, Balance, Paid, AtMost, Reduced, Greedy, EligibleDepth, FillsOf, Levels;
    PlanSum(s, spec);
    GreedyTakesEligibleDepth(QuotesFor(s, spec), spec.side, spec.limitPrice, spec.quantity);
    DepthNonNegative(QuotesFor(s, spec), spec.side, spec.limitPrice);
    OrderValue(Charge(QuotesFor(s, spec), Plan(s, spec)), s.cash);
    PlanIsCounted(s, spec);
    FillsMatchPlan(QuotesFor(s, spec), Plan(s, spec));
    RecordedFills(s, spec);
  }

  // ---------------------------------------------------------------- the position

  /** The position a carried-out order leaves; an emptied one has no cost. */
  lemma PositionAfterOrder(s: State, spec: OrderSpec)
    requires Sound(s) && Executes(s, spec) && Sum(Plan(s, spec)) > 0
    ensures var (before, after) := (Held(s, spec.symbol), Held(Submitted(s, spec), spec.symbol));
      var traded := Sum(Plan(s, spec));
      && after.quantity == (if spec.side == Buy then before.quantity + traded else before.quantity - traded)
      && (spec.side == Sell ==>
          after.averageCost == if after.quantity > 0 then before.averageCost else Amount(0, 0))
      && (spec.side == Buy ==>
          NearAverage(before, traded, Charge(QuotesFor(s, spec), Plan(s, spec)), after.averageCost))
  {
    hide Value, Key, Plus, Times, Balance, Paid, AtMost, Reduced, Greedy, FillsOf, Levels;
    hide AverageCost, NearAverage, Sum;
    PlanSum(s, spec);
    HeldIsCounted(s, spec.symbol);
    if spec.side == Buy {
      AverageIsNear(Held(s, spec.symbol), Sum(Plan(s, spec)), Charge(QuotesFor(s, spec), Plan(s, spec)));
    }
  }

  /** The average is what all shares together cost, per share, but for four roundings. */
  predicate NearAverage(held: Position, bought: int, paid: Amount, average: Amount) {
    && held.quantity >= 0 && bought > 0
    && var cost, shares := held.quantity as real * Value(held.averageCost) + Value(paid), held.quantity + bought;
       cost * Shrunk(4) <= shares as real * Value(average) <= cost * Swollen(4)
  }

  lemma AverageIsNear(held: Position, bought: int, paid: Amount)
    requires held.quantity >= 0 && bought > 0
    ensures NearAverage(held, bought, paid, AverageCost(held, bought, paid))
  {
    hide Value, Times, Plus, DividedBy, Swollen, Shrunk;
    var all, shares := Plus(Times(held.averageCost, held.quantity), paid), held.quantity + bought;
    var cost := held.quantity as real * Value(held.averageCost) + Value(paid);
    TotalIsNear(held.averageCost, held.quantity, paid);
    DivisionError(all, shares);
    NextFactors(2);
    NextFactors(3);
    TwoRoundings(cost, Value(all), shares as real * Value(DividedBy(all, shares)), Shrunk(2), Swollen(2));
  }

  /** What all shares together cost, after a rounded product and a rounded sum. */
  lemma TotalIsNear(price: Amount, q: nat, paid: Amount)
    ensures var cost := q as real * Value(price) + Value(paid);
      cost >= 0.0 && cost * Shrunk(2) <= Value(Plus(Times(price, q), paid)) <= cost * Swollen(2)
  {
    hide Value, Times, Fix, ExactSum, Swollen, Shrunk;
    var kept, worth := Times(price, q), q as real * Value(price);
    PartsAreNear(price, q, paid);
    RoundingError(ExactSum(kept, paid));
    SumValue(kept, paid);
    Within(worth + Value(paid), Value(kept) + Value(paid), Value(Plus(kept, paid)), Shrunk(1), Swollen(1));
    NextFactors(1);
  }

  lemma PartsAreNear(price: Amount, q: nat, paid: Amount)
    ensures var cost := q as real * Value(price) + Value(paid);
      cost >= 0.0 && cost * Shrunk(1) <= Value(Times(price, q)) + Value(paid) <= cost * Swollen(1)
  {
    hide Value, Fix, ExactTimes, Swollen, Shrunk;
    var worth, up, down := q as real * Value(price), Swollen(1), Shrunk(1);
    TimesValue(price, q);
    DecimalContext.ValueNonNegative(ExactTimes(price, q));
    DecimalContext.ValueNonNegative(paid);
    RoundingError(ExactTimes(price, q));
    MoreRoundings(1);
    FirstRounding(worth, Value(Times(price, q)), down, up);
    FirstRounding(Value(paid), Value(paid), down, up);
    Distribute(worth, Value(paid), down);
    Distribute(worth, Value(paid), up);
  }

  /** A quotient is off by less than two roundings. */
  lemma TwoRoundings(exact: real, before: real, after: real, least: real, most: real)
    requires exact >= 0.0 && 0.0 <= least && most >= 0.0 && exact * least <= before <= exact * most
    requires before - 1.5 * HALF_DIGIT * before <= after <= before + 1.5 * HALF_DIGIT * before
    ensures exact * (least * (1.0 - HALF_DIGIT) * (1.0 - HALF_DIGIT)) <= after
    ensures after <= exact * (most * (1.0 + HALF_DIGIT) * (1.0 + HALF_DIGIT))
  {
    var down, up := (1.0 - HALF_DIGIT) * (1.0 - HALF_DIGIT), (1.0 + HALF_DIGIT) * (1.0 + HALF_DIGIT);
    assert down <= 1.0 - 1.5 * HALF_DIGIT && up >= 1.0 + 1.5 * HALF_DIGIT;
    ScaleReal(exact * least, before, down);
    ScaleReal(before, exact * most, up);
    ScaleReal(down, 1.0 - 1.5 * HALF_DIGIT, before);
    ScaleReal(1.0 + 1.5 * HALF_DIGIT, up, before);
    GroupReal(exact, least, down);
    GroupReal(exact, most, up);
    GroupReal(least, 1.0 - HALF_DIGIT, 1.0 - HALF_DIGIT);
    GroupReal(most, 1.0 + HALF_DIGIT, 1.0 + HALF_DIGIT);
  }
}
