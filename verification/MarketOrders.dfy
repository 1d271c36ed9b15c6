/**
 Preparing a market order: the best opposite quote of an order book, the quote read with its
 single retry, and the limit order that stands in for a market order outside regular hours.
 */
module MarketOrders {
  import opened Common
  import opened Decimals
  import opened Amounts
  import opened Pricing

  /** A JSON value by the length of its text; `None` is one that is not a finite number. */
  datatype RawNumber = RawNumber(length: nat, number: Option<Decimal>)

  /** A level of the decoded book. */
  datatype RawLevel = RawLevel(price: RawNumber, quantity: RawNumber) | NotARecord

  datatype Level = Level(price: Amount, quantity: Amount)

  /** `positive_decimal` on a decoded value. */
  function PositiveDecimal(raw: RawNumber): (r: Result<Amount>)
    ensures r.Success? ==> Supported(r.value)
  {
    if raw.length > 512 || raw.number.None? || raw.number.value.negative then Failure
    else
      var amount := Amount(Coefficient(raw.number.value.digits), raw.number.value.exponent);
      if Supported(amount) then Success(amount) else Failure
  }

  /** Supported by digit count, so a tuple of more than 128 digits is refused. */
  lemma PositiveDecimalChecksTheTuple(raw: RawNumber)
    requires raw.number.Some? ==> WellFormed(raw.number.value)
    ensures PositiveDecimal(raw).Success? <==>
      && raw.length <= 512 && raw.number.Some? && var d := raw.number.value;
      !d.negative && Coefficient(d.digits) > 0 && |d.digits| <= 128 && -100 <= d.exponent <= 100
  {
    if raw.number.Some? { TupleLength(raw.number.value.digits); }
  }

  function LevelOf(raw: RawLevel): (r: Result<Level>)
    ensures r.Success? ==> Supported(r.value.price) && Supported(r.value.quantity)
  {
    if raw.NotARecord? then Failure
    else
      var price, quantity := PositiveDecimal(raw.price), PositiveDecimal(raw.quantity);
      if price.Success? && quantity.Success? then Success(Level(price.value, quantity.value)) else Failure
  }

  predicate Better(a: Level, b: Level, side: Side) {
    if side == Buy then Value(a.price) < Value(b.price) else Value(b.price) < Value(a.price)
  }

  ghost predicate AllReadable(raws: seq<RawLevel>) {
    forall k :: 0 <= k < |raws| ==> LevelOf(raws[k]).Success?
  }

  /** The first of the readable levels that no other level beats. */
  ghost predicate FirstBest(raws: seq<RawLevel>, side: Side, level: Level, k: nat) {
    && k < |raws| && AllReadable(raws) && LevelOf(raws[k]) == Success(level)
    && (forall i :: 0 <= i < |raws| ==> !Better(LevelOf(raws[i]).value, level, side))
    && (forall i :: 0 <= i < k ==> Better(level, LevelOf(raws[i]).value, side))
  }

  ghost predicate BestOf(raws: seq<RawLevel>, side: Side, level: Level) {
    exists k :: FirstBest(raws, side, level, k)
  }

  /** Exactly one level is the first best, so the specification determines the quote. */
  lemma FirstBestIsUnique(raws: seq<RawLevel>, side: Side, a: Level, j: nat, b: Level, k: nat)
    requires FirstBest(raws, side, a, j) && FirstBest(raws, side, b, k)
    ensures j == k && a == b
  {
    assert LevelOf(raws[j]).value == a && LevelOf(raws[k]).value == b;
  }

  lemma BestIsUnique(raws: seq<RawLevel>, side: Side, a: Level, b: Level)
    requires BestOf(raws, side, a) && BestOf(raws, side, b)
    ensures a == b
  {
    var j :| FirstBest(raws, side, a, j);
    var k :| FirstBest(raws, side, b, k);
    FirstBestIsUnique(raws, side, a, j, b, k);
  }

  /** `parse_best_quote`'s levels: every level must parse, then min or max by price. */
  method BestQuote(raws: seq<RawLevel>, side: Side) returns (best: Result<Level>)
    ensures best.Success? <==> raws != [] && AllReadable(raws)
    ensures best.Success? ==> Supported(best.value.price) && BestOf(raws, side, best.value)
  {
    if raws == [] {
      return Failure;
    }
    var parsed: seq<Level> := [];
    for i := 0 to |raws|
      invariant |parsed| == i
      invariant forall k :: 0 <= k < i ==> LevelOf(raws[k]) == Success(parsed[k])
    {
      var level := LevelOf(raws[i]);
      if level.Failure? {
        return Failure;
      }
      parsed := parsed + [level.value];
    }
    var at := 0;
    for i := 1 to |parsed|
      invariant at < i <= |parsed|
      invariant forall k :: 0 <= k < i ==> !Better(parsed[k], parsed[at], side)
      invariant forall k :: 0 <= k < at ==> Better(parsed[at], parsed[k], side)
    {
      if Better(parsed[i], parsed[at], side) {
        at := i;
      }
    }
    assert FirstBest(raws, side, parsed[at], at);
    return Success(parsed[at]);
  }

  // ---------------------------------------------------------------- preparation

  datatype Session = Session(regular: bool, changedAt: real, observedAt: real, validUntil: real)

  /**
   One order-book request and its parse. `ReadFailed` is any `ApiError` but a session error,
   including a book that does not identify the symbol, is delayed or carries no timestamp.
   */
  datatype QuoteRead =
    | SessionLost
    | ReadFailed
    | BookRead(levels: seq<RawLevel>, timestamp: real, now: real)

  predicate Fresh(timestamp: real, now: real, maxAge: real) {
    -5.0 <= now - timestamp <= maxAge
  }

  datatype Prepared = Prepared(market: bool, quantity: nat, price: Option<Amount>, allowPrePost: bool)

  /** `SessionError` is kept apart because its reporter schedules a login. */
  datatype Outcome = Ready(order: Prepared) | SessionError | Refused

  ghost predicate Usable(read: QuoteRead, session: Session, maxAge: real) {
    && read.BookRead? && read.levels != [] && AllReadable(read.levels)
    && Fresh(read.timestamp, read.now, maxAge) && session.changedAt <= read.timestamp
  }

  /** How many order-book requests one preparation makes. */
  ghost function ReadsMade(first: QuoteRead, session: Session, maxAge: real): nat {
    if session.regular then 0 else if first.SessionLost? || Usable(first, session, maxAge) then 1 else 2
  }

  method ReadQuote(books: seq<QuoteRead>, session: Session, side: Side, maxAge: real)
    returns (attempts: nat, lost: bool, quote: Result<(Level, real)>)
    requires |books| == 2 && !session.regular
    ensures attempts == ReadsMade(books[0], session, maxAge)
    ensures lost <==> books[attempts - 1].SessionLost?
    ensures quote.Success? <==> Usable(books[attempts - 1], session, maxAge)
    ensures quote.Success? ==> BestOf(books[attempts - 1].levels, side, quote.value.0)
    ensures quote.Success? ==> quote.value.1 == books[attempts - 1].timestamp
  {
    attempts, lost, quote := 0, false, Failure;
    while attempts < 2
      invariant attempts <= 2 && !lost && quote.Failure?
      invariant attempts > 0 ==> !books[0].SessionLost? && !Usable(books[0], session, maxAge)
      invariant attempts == 2 ==> !books[1].SessionLost? && !Usable(books[1], session, maxAge)
    {
      var read := books[attempts];
      attempts := attempts + 1;
      match read
      case SessionLost =>
        lost := true;
        return;
      case ReadFailed =>
      case BookRead(levels, timestamp, now) =>
        var best := BestQuote(levels, side);
        if best.Success? && Fresh(timestamp, now, maxAge) && session.changedAt <= timestamp {
          quote := Success((best.value, timestamp));
          return;
        }
    }
  }

  /**
   The reference quote `quantity_for_notional` reads in regular hours: any failed request, and any
   row that is missing, repeated, delayed or suspended, is `NoReference`.
   */
  datatype SizingRead =
    | SizingSessionLost
    | NoReference
    | Reference(last: Amount, timestamp: real, now: real)

  /** `quantity_for_notional`: only a fresh reference price sizes an order. */
  function SizedAtReference(read: SizingRead, budget: Amount, maxAge: real): Result<nat> {
    if read.Reference? && Fresh(read.timestamp, read.now, maxAge) then QuantityAtLimit(budget, read.last) else Failure
  }

  /** The quantity: as requested, or sized from the budget at a price. */
  predicate Sized(quantity: nat, shares: Option<nat>, budget: Amount, price: Amount) {
    match shares
    case Some(n) => quantity == n
    case None => QuantityAtLimit(budget, price) == Success(quantity)
  }

  /** The order a usable quote stands for, before the final freshness checks. */
  predicate StandsIn(order: Prepared, level: Level, side: Side, shares: Option<nat>, budget: Amount,
                     ambient: Rounding) {
    && !order.market && order.allowPrePost
    && order.price.Some? && MarketLimitPrice(level.price, side, ambient) == Price(order.price.value)
    && Sized(order.quantity, shares, budget, order.price.value)
  }

  ghost predicate Prepares(order: Prepared, read: QuoteRead, session: Session, side: Side, shares: Option<nat>,
                           budget: Amount, maxAge: real, ambient: Rounding, quoteNow: real) {
    && Usable(read, session, maxAge) && Fresh(read.timestamp, quoteNow, maxAge)
    && exists level :: BestOf(read.levels, side, level) && StandsIn(order, level, side, shares, budget, ambient)
  }

  predicate RegularOrder(order: Prepared, shares: Option<nat>, budget: Amount, sizing: SizingRead, maxAge: real) {
    && order.market && !order.allowPrePost && order.price == None
    && match shares
       case Some(n) => order.quantity == n
       case None => SizedAtReference(sizing, budget, maxAge) == Success(order.quantity)
  }

  predicate Current(session: Session, now: real) {
    session.observedAt <= now < session.validUntil
  }

  /**
   `prepare_market_order` after its market-status read. A session error of the order book is
   raised at once; any other unusable read is retried exactly once; the order is a limit order
   at the synthetic price of the quote that was used, and is handed out exactly while that quote
   is still fresh and the session still valid. In regular hours the order is a native market order,
   and a reference quote is read only to size a budget.
   */
  method PrepareMarketOrder(session: Session, side: Side, shares: Option<nat>, budget: Amount, sizing: SizingRead,
                            books: seq<QuoteRead>, maxAge: real, ambient: Rounding, quoteNow: real, now: real)
    returns (outcome: Outcome)
    requires |books| == 2
    ensures session.regular ==>
      && (outcome.SessionError? <==> shares.None? && sizing.SizingSessionLost?)
      && (outcome.Ready? ==> RegularOrder(outcome.order, shares, budget, sizing, maxAge) && Current(session, now))
      && (outcome.Refused? ==>
          !Current(session, now) || forall order :: !RegularOrder(order, shares, budget, sizing, maxAge))
    ensures !session.regular ==>
      var read := books[ReadsMade(books[0], session, maxAge) - 1];
      && (outcome.SessionError? <==> read.SessionLost?)
      && (outcome.Ready? ==>
          Prepares(outcome.order, read, session, side, shares, budget, maxAge, ambient, quoteNow)
            && Current(session, now))
      && (outcome.Refused? ==>
          || !Current(session, now)
          || forall order :: !Prepares(order, read, session, side, shares, budget, maxAge, ambient, quoteNow))
  {
    var order: Prepared;
    if session.regular {
      if shares.None? && sizing.SizingSessionLost? {
        return SessionError;
      }
      var sized := if shares.Some? then Success(shares.value) else SizedAtReference(sizing, budget, maxAge);
      if sized.Failure? {
        return Refused;
      }
      order := Prepared(true, sized.value, None, false);
      assert RegularOrder(order, shares, budget, sizing, maxAge);
    } else {
      var attempts, lost, quote := ReadQuote(books, session, side, maxAge);
      if lost {
        return SessionError;
      }
      if quote.Failure? {
        return Refused;
      }
      var level := quote.value.0;
      OnlyThisLevel(books[attempts - 1].levels, side, level);
      var priced := MarketLimitPrice(level.price, side, ambient);
      if !priced.Price? {
        return Refused;
      }
      var sized := if shares.Some? then Success(shares.value) else QuantityAtLimit(budget, priced.price);
      if sized.Failure? || !Fresh(quote.value.1, quoteNow, maxAge) {
        return Refused;
      }
      order := Prepared(false, sized.value, Some(priced.price), true);
      assert BestOf(books[attempts - 1].levels, side, level) && StandsIn(order, level, side, shares, budget, ambient);
    }
    if Current(session, now) {
      return Ready(order);
    }
    return Refused;
  }

  lemma OnlyThisLevel(raws: seq<RawLevel>, side: Side, level: Level)
    requires BestOf(raws, side, level)
    ensures forall other :: BestOf(raws, side, other) ==> other == level
  {
    forall other | BestOf(raws, side, other)
      ensures other == level
    {
      BestIsUnique(raws, side, other, level);
    }
  }

  /** What a prepared buy may cost: never more than the budget, at a price just above one percent over the ask. */
  lemma BudgetCoversTheOrder(order: Prepared, level: Level, side: Side, budget: Amount, ambient: Rounding)
    requires Supported(level.price) && StandsIn(order, level, side, None, budget, ambient)
    ensures order.quantity > 0 && Affords(order.quantity, Value(budget), Value(order.price.value))
    ensures side == Buy ==> 1.01 * Value(level.price) <= Value(order.price.value) < 1.01 * Value(level.price) + 0.01
    ensures side == Sell ==> 0.99 * Value(level.price) - 0.01 < Value(order.price.value) <= 0.99 * Value(level.price)
  {
    SizedFromBudget(budget, order.price.value);
    if side == Buy { BuyPrice(level.price, ambient); } else { SellPrice(level.price, ambient); }
  }

  /** A sized order is always short enough to be planned at exactly its synthetic price. */
  lemma SizedOrderIsPlannedExactly(order: Prepared, level: Level, side: Side, budget: Amount, ambient: Rounding)
    requires StandsIn(order, level, side, None, budget, ambient)
    ensures PlanPrice(order.price.value, side) == Price(order.price.value)
  {
    MarketPriceIsExactCents(level.price, side, ambient);
    CentsArePlanned(order.price.value, side);
  }
}
