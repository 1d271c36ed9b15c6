/**
 The offline matching engine: immediate greedy fills against an in-memory book, cash and
 long-only positions. Prices and money are decimals, moved in Python's default decimal context.
 */
module SimulatedBroker {
  import opened Common
  import opened Amounts
  import opened DecimalContext
  import opened Decimals
  import opened Ledger
  import opened Matching

  datatype Kind = Market | Limit | Fok
  datatype Quote = Quote(price: Amount, quantity: int)
  datatype Status = Open | PartiallyFilled | Filled | Cancelled | Rejected
  datatype Reason = InsufficientShares | InsufficientCash | FokNotFullyExecutable | MarketRemainderCancelled

  /** A limit price of zero stands for every price that is refused: negative or not finite. */
  datatype OrderSpec = OrderSpec(commandId: string, symbol: string, side: Side, kind: Kind, quantity: int,
                                 limitPrice: Option<Amount>)
  datatype SimOrder = SimOrder(number: nat, spec: OrderSpec, status: Status, fills: seq<Fill>, reason: Option<Reason>)
  datatype Position = Position(quantity: int, averageCost: Amount)

  /** `buy` holds the asks a buy order takes, cheapest first; `sell` the bids, dearest first. */
  datatype Book = Book(buy: seq<Quote>, sell: seq<Quote>)

  datatype State = State(cash: Amount, positions: map<string, Position>, books: map<string, Book>,
                         orders: map<string, SimOrder>, submissionCount: nat)

  // ---------------------------------------------------------------- order books

  /** The book side by the exact worth of its prices. */
  function Levels(quotes: seq<Quote>): (levels: seq<Level>)
    ensures |levels| == |quotes|
  {
    seq(|quotes|, k requires 0 <= k < |quotes| => LevelOf(quotes[k]))
  }

  /** Positive prices and quantities; a price of zero stands for every other refused one. */
  predicate ValidQuotes(quotes: seq<Quote>) {
    forall k :: 0 <= k < |quotes| ==> quotes[k].price.coefficient > 0 && quotes[k].quantity > 0
  }

  /** Stable insertion: after every quote at least as good. */
  function InsertQuote(quote: Quote, quotes: seq<Quote>, side: Side): seq<Quote> {
    if quotes == [] || Key(side, Value(quote.price)) < Key(side, Value(quotes[0].price)) then [quote] + quotes
    else [quotes[0]] + InsertQuote(quote, quotes[1..], side)
  }

  function SortQuotes(quotes: seq<Quote>, side: Side): seq<Quote> {
    if quotes == [] then []
    else InsertQuote(quotes[|quotes| - 1], SortQuotes(quotes[..|quotes| - 1], side), side)
  }

  function LevelOf(quote: Quote): Level {
    Level(Value(quote.price), quote.quantity)
  }

  lemma LevelsCons(quote: Quote, rest: seq<Quote>)
    ensures Levels([quote] + rest) == [LevelOf(quote)] + Levels(rest)
  {
    hide Value;
  }

  lemma {:induction false} InsertQuoteLevels(quote: Quote, quotes: seq<Quote>, side: Side)
    ensures Levels(InsertQuote(quote, quotes, side)) == Insert(LevelOf(quote), Levels(quotes), side)
  {
    hide Value, Key, Levels;
    if quotes == [] {
      LevelsCons(quote, quotes);
    } else {
      assert quotes == [quotes[0]] + quotes[1..];
      LevelsCons(quotes[0], quotes[1..]);
      InsertQuoteLevels(quote, quotes[1..], side);
      assert Levels(quotes)[1..] == Levels(quotes[1..]);
      LevelsCons(quote, quotes);
      LevelsCons(quotes[0], InsertQuote(quote, quotes[1..], side));
    }
  }

  lemma {:induction false} InsertQuoteKeeps(quote: Quote, quotes: seq<Quote>, side: Side)
    ensures multiset(InsertQuote(quote, quotes, side)) == multiset(quotes) + multiset{quote}
  {
    hide Value, Key;
    if quotes != [] {
      InsertQuoteKeeps(quote, quotes[1..], side);
      assert quotes == [quotes[0]] + quotes[1..];
    }
  }

  /** Python's `sorted` on a book side: the same quotes, best price first. */
  lemma {:induction false} SortQuotesSorts(quotes: seq<Quote>, side: Side)
    ensures Sorted(Levels(SortQuotes(quotes, side)), side)
    ensures multiset(SortQuotes(quotes, side)) == multiset(quotes)
  {
    SortedLevels(quotes, side);
    SortLevelsSorts(Levels(quotes), side);
  }

  lemma {:induction false} SortedLevels(quotes: seq<Quote>, side: Side)
    ensures Levels(SortQuotes(quotes, side)) == SortLevels(Levels(quotes), side)
    ensures multiset(SortQuotes(quotes, side)) == multiset(quotes)
  {
    hide Value, Key, InsertQuote, Insert;
    if quotes != [] {
      var rest, last := quotes[..|quotes| - 1], quotes[|quotes| - 1];
      SortedLevels(rest, side);
      assert Levels(quotes)[..|quotes| - 1] == Levels(rest);
      InsertQuoteLevels(last, SortQuotes(rest, side), side);
      InsertQuoteKeeps(last, SortQuotes(rest, side), side);
      assert quotes == rest + [last];
    }
  }

  // ---------------------------------------------------------------- what one submission does

  predicate ValidSpec(spec: OrderSpec) {
    && spec.commandId != "" && spec.symbol != "" && spec.quantity > 0
    && if spec.kind == Market then spec.limitPrice.None?
       else spec.limitPrice.Some? && spec.limitPrice.value.coefficient > 0
  }

  function SideQuotes(book: Book, side: Side): seq<Quote> {
    if side == Buy then book.buy else book.sell
  }

  function QuotesFor(s: State, spec: OrderSpec): seq<Quote> {
    if spec.symbol in s.books then SideQuotes(s.books[spec.symbol], spec.side) else []
  }

  function HeldIn(positions: map<string, Position>, symbol: string): Position {
    if symbol in positions then positions[symbol] else Position(0, Amount(0, 0))
  }

  function Held(s: State, symbol: string): Position {
    HeldIn(s.positions, symbol)
  }

  /** The limit by its exact worth. */
  function LimitWorth(spec: OrderSpec): Option<real> {
    if spec.limitPrice.Some? then Some(Value(spec.limitPrice.value)) else None
  }

  function Plan(s: State, spec: OrderSpec): seq<int> {
    Greedy(Levels(QuotesFor(s, spec)), spec.side, LimitWorth(spec), spec.quantity)
  }

  /** The levels with these amounts taken out; emptied levels stay in place. */
  function Reduced(levels: seq<Quote>, amounts: seq<int>): seq<Quote>
    requires |amounts| == |levels|
  {
    seq(|levels|, k requires 0 <= k < |levels| => Quote(levels[k].price, levels[k].quantity - amounts[k]))
  }

  /** One fill for each level that is touched, in book order. */
  function FillsOf(levels: seq<Quote>, amounts: seq<int>): seq<Fill>
    requires |amounts| == |levels|
  {
    if levels == [] then []
    else (if amounts[0] != 0 then [Fill(amounts[0], levels[0].price)] else []) + FillsOf(levels[1..], amounts[1..])
  }

  function WithQuotes(books: map<string, Book>, symbol: string, side: Side, levels: seq<Quote>): map<string, Book> {
    if symbol !in books then books
    else books[symbol := if side == Buy then books[symbol].(buy := levels) else books[symbol].(sell := levels)]
  }

  /** Nothing but the order list changes. */
  function Declined(s: State, spec: OrderSpec, status: Status, reason: Reason): State {
    s.(submissionCount := s.submissionCount + 1,
       orders := s.orders[spec.commandId := SimOrder(s.submissionCount + 1, spec, status, [], Some(reason))])
  }

  function AverageCost(held: Position, quantity: int, paid: Amount): Amount
    requires held.quantity >= 0 && quantity > 0
  {
    DividedBy(Plus(Times(held.averageCost, held.quantity), paid), held.quantity + quantity)
  }

  function NewPosition(held: Position, side: Side, quantity: int, paid: Amount): Position
    requires held.quantity >= 0 && quantity > 0
  {
    if side == Buy then Position(held.quantity + quantity, AverageCost(held, quantity, paid))
    else Position(held.quantity - quantity, if held.quantity > quantity then held.averageCost else Amount(0, 0))
  }

  function SettledStatus(spec: OrderSpec, filled: int): (Status, Option<Reason>) {
    if filled == spec.quantity then (Filled, None)
    else if spec.kind == Market then (Cancelled, Some(MarketRemainderCancelled))
    else if filled != 0 then (PartiallyFilled, None)
    else (Open, None)
  }

  function Settled(s: State, spec: OrderSpec): State
    requires Held(s, spec.symbol).quantity >= 0 && Sum(Plan(s, spec)) >= 0
  {
    var quotes, plan := QuotesFor(s, spec), Plan(s, spec);
    var filled, fills := Sum(plan), FillsOf(quotes, plan);
    var (status, reason) := SettledStatus(spec, filled);
    State(Balance(s.cash, spec.side, fills),
          if filled > 0
          then s.positions[spec.symbol := NewPosition(Held(s, spec.symbol), spec.side, filled, Paid(fills))]
          else s.positions,
          WithQuotes(s.books, spec.symbol, spec.side, Reduced(quotes, plan)),
          s.orders[spec.commandId := SimOrder(s.submissionCount + 1, spec, status, fills, reason)],
          s.submissionCount + 1)
  }

  /** The same field by field. */
  lemma SettledFields(s: State, spec: OrderSpec)
    requires Held(s, spec.symbol).quantity >= 0 && Sum(Plan(s, spec)) >= 0
    ensures var (after, quotes, plan) := (Settled(s, spec), QuotesFor(s, spec), Plan(s, spec));
      var (fills, filled) := (FillsOf(quotes, plan), Sum(plan));
      && after.cash == Balance(s.cash, spec.side, fills)
      && after.positions == (if filled > 0
           then s.positions[spec.symbol := NewPosition(Held(s, spec.symbol), spec.side, filled, Paid(fills))]
           else s.positions)
      && after.books == WithQuotes(s.books, spec.symbol, spec.side, Reduced(quotes, plan))
      && after.submissionCount == s.submissionCount + 1
      && after.orders == s.orders[spec.commandId :=
           SimOrder(s.submissionCount + 1, spec, SettledStatus(spec, filled).0, fills, SettledStatus(spec, filled).1)]
  {
    hide Balance, NewPosition, Paid, FillsOf, Reduced, WithQuotes, Plan, QuotesFor, Sum;
  }

  datatype Verdict = NotEnoughShares | NotFullyExecutable | NotEnoughCash | Executable

  function Judge(s: State, spec: OrderSpec): Verdict {
    if spec.side == Sell && Held(s, spec.symbol).quantity < spec.quantity then NotEnoughShares
    else if spec.kind == Fok && Sum(Plan(s, spec)) != spec.quantity then NotFullyExecutable
    else if spec.side == Buy && !AtMost(Paid(FillsOf(QuotesFor(s, spec), Plan(s, spec))), s.cash) then NotEnoughCash
    else Executable
  }

  /** A new, valid order that is carried out; only then can its acknowledgement be lost. */
  predicate Executes(s: State, spec: OrderSpec) {
    ValidSpec(spec) && spec.commandId !in s.orders && Judge(s, spec) == Executable
  }

  /** The state after `submit`, errors included: an invalid spec or a known ID changes nothing. */
  function Submitted(s: State, spec: OrderSpec): State
    requires Sound(s)
  {
    if !ValidSpec(spec) || spec.commandId in s.orders then s
    else
      match Judge(s, spec)
      case NotEnoughShares => Declined(s, spec, Rejected, InsufficientShares)
      case NotFullyExecutable => Declined(s, spec, Cancelled, FokNotFullyExecutable)
      case NotEnoughCash => Declined(s, spec, Rejected, InsufficientCash)
      case Executable => (PlanSum(s, spec); Settled(s, spec))
  }

  // ---------------------------------------------------------------- soundness of states

  predicate SoundQuotes(quotes: seq<Quote>, side: Side) {
    && Depth(Levels(quotes)) && Sorted(Levels(quotes), side)
    && forall k :: 0 <= k < |quotes| ==> quotes[k].price.coefficient > 0
  }

  /** Positions are not negative, and every book is in price order with no negative depth. */
  predicate Sound(s: State) {
    && (forall symbol :: symbol in s.positions ==> s.positions[symbol].quantity >= 0)
    && (forall symbol :: symbol in s.books ==>
          SoundQuotes(s.books[symbol].buy, Buy) && SoundQuotes(s.books[symbol].sell, Sell))
  }

  lemma PlanSum(s: State, spec: OrderSpec)
    requires Sound(s) && spec.quantity > 0
    ensures 0 <= Sum(Plan(s, spec)) <= spec.quantity && Takes(Levels(QuotesFor(s, spec)), Plan(s, spec))
    ensures SoundQuotes(QuotesFor(s, spec), spec.side)
  {
    hide Value, Key;
    PlanTakes(Levels(QuotesFor(s, spec)), spec.side, LimitWorth(spec), spec.quantity);
  }

  lemma {:induction false} FillsMatchPlan(quotes: seq<Quote>, amounts: seq<int>)
    requires |amounts| == |quotes| && forall k :: 0 <= k < |amounts| ==> amounts[k] >= 0
    ensures FillQuantity(FillsOf(quotes, amounts)) == Sum(amounts)
    ensures FillValue(FillsOf(quotes, amounts)) == Total(Levels(quotes), amounts)
  {
    hide Value;
    if quotes != [] {
      FillsMatchPlan(quotes[1..], amounts[1..]);
      var rest := FillsOf(quotes[1..], amounts[1..]);
      assert ([Fill(amounts[0], quotes[0].price)] + rest)[1..] == rest;
      assert [] + rest == rest;
      assert Levels(quotes)[1..] == Levels(quotes[1..]);
    }
  }

  lemma PlanIsCounted(s: State, spec: OrderSpec)
    requires Sound(s) && spec.quantity > 0
    ensures |Plan(s, spec)| == |QuotesFor(s, spec)|
    ensures forall k :: 0 <= k < |Plan(s, spec)| ==> Plan(s, spec)[k] >= 0
  {
    PlanSum(s, spec);
  }

  lemma HeldIsCounted(s: State, symbol: string)
    requires Sound(s)
    ensures Held(s, symbol).quantity >= 0
  {
  }

  /** No share planned, no fill. */
  lemma {:induction false} NoFills(quotes: seq<Quote>, amounts: seq<int>)
    requires |amounts| == |quotes| && forall k :: 0 <= k < |amounts| ==> amounts[k] >= 0
    ensures Sum(amounts) == 0 <==> FillsOf(quotes, amounts) == []
  {
    hide Value;
    if quotes != [] {
      NoFills(quotes[1..], amounts[1..]);
      SumNonNegative(amounts[1..]);
    }
  }

  function TotalDepth(levels: seq<Quote>): int {
    if levels == [] then 0 else levels[0].quantity + TotalDepth(levels[1..])
  }

  lemma {:induction false} ReducedDepth(levels: seq<Quote>, amounts: seq<int>)
    requires |amounts| == |levels|
    ensures TotalDepth(Reduced(levels, amounts)) == TotalDepth(levels) - Sum(amounts)
  {
    if levels != [] {
      ReducedDepth(levels[1..], amounts[1..]);
      assert Reduced(levels, amounts)[1..] == Reduced(levels[1..], amounts[1..]);
    }
  }

  lemma SettledSound(s: State, spec: OrderSpec)
    requires Sound(s) && ValidSpec(spec) && Judge(s, spec) == Executable && Sum(Plan(s, spec)) >= 0
    ensures Sound(Settled(s, spec))
  {
    hide Value, Key, DividedBy, Plus, Times, Balance, Paid, AtMost;
    PlanSum(s, spec);
    ReducedSound(QuotesFor(s, spec), Plan(s, spec), spec.side);
  }

  lemma ReducedSound(quotes: seq<Quote>, amounts: seq<int>, side: Side)
    requires SoundQuotes(quotes, side) && Takes(Levels(quotes), amounts)
    ensures SoundQuotes(Reduced(quotes, amounts), side)
  {
    hide Value, Key;
    var after := Reduced(quotes, amounts);
    assert forall k :: 0 <= k < |quotes| ==> Levels(after)[k].price == Levels(quotes)[k].price;
  }

  /** No submission makes a position or a book's depth negative, and books stay in price order. */
  lemma SubmitKeepsSound(s: State, spec: OrderSpec)
    requires Sound(s)
    ensures Sound(Submitted(s, spec))
  {
    hide Value, Key, DividedBy, Plus, Times, Balance, Paid, AtMost;
    if ValidSpec(spec) && spec.commandId !in s.orders && Judge(s, spec) == Executable {
      PlanSum(s, spec);
      SettledSound(s, spec);
    }
  }

  /** What a submission has moved, by the fills of the order it recorded; cash as the context computes it. */
  predicate MovesExactly(before: State, after: State, spec: OrderSpec, fills: seq<Fill>) {
    && after.cash == Balance(before.cash, spec.side, fills)
    && (spec.side == Buy ==> AtMost(Paid(fills), before.cash))
    && Held(after, spec.symbol).quantity
       == Held(before, spec.symbol).quantity + (if spec.side == Buy then FillQuantity(fills) else -FillQuantity(fills))
    && TotalDepth(QuotesFor(after, spec)) == TotalDepth(QuotesFor(before, spec)) - FillQuantity(fills)
  }

  /** No other symbol, book side or order is touched. */
  ghost predicate OthersUntouched(before: State, after: State, spec: OrderSpec) {
    && (forall symbol :: symbol != spec.symbol ==> Held(after, symbol) == Held(before, symbol))
    && after.books.Keys == before.books.Keys
    && (forall symbol :: symbol in before.books && symbol != spec.symbol ==>
        after.books[symbol] == before.books[symbol])
    && (spec.symbol in before.books && spec.side == Buy ==>
        after.books[spec.symbol].sell == before.books[spec.symbol].sell)
    && (spec.symbol in before.books && spec.side == Sell ==>
        after.books[spec.symbol].buy == before.books[spec.symbol].buy)
    && after.orders.Keys == before.orders.Keys + {spec.commandId}
    && (forall id :: id in before.orders && id != spec.commandId ==> after.orders[id] == before.orders[id])
  }

  lemma SettledMoves(s: State, spec: OrderSpec)
    requires Sound(s) && ValidSpec(spec) && Judge(s, spec) == Executable && Sum(Plan(s, spec)) >= 0
    ensures MovesExactly(s, Settled(s, spec), spec, FillsOf(QuotesFor(s, spec), Plan(s, spec)))
  {
    hide Value, Key, DividedBy, Plus, Times, Balance, Paid, AtMost;
    PlanSum(s, spec);
    FillsMatchPlan(QuotesFor(s, spec), Plan(s, spec));
    ReducedDepth(QuotesFor(s, spec), Plan(s, spec));
  }

  lemma SettledTouchesNothingElse(s: State, spec: OrderSpec)
    requires Sound(s) && ValidSpec(spec) && Sum(Plan(s, spec)) >= 0
    ensures OthersUntouched(s, Settled(s, spec), spec)
  {
    hide Value, Key, DividedBy, Plus, Times, Balance, Paid, AtMost;
  }

  lemma DeclinedMovesNothing(s: State, spec: OrderSpec, status: Status, reason: Reason)
    requires Sound(s)
    ensures MovesExactly(s, Declined(s, spec, status, reason), spec, [])
    ensures OthersUntouched(s, Declined(s, spec, status, reason), spec)
  {
    hide Value, Key;
  }

  /**
   A submission moves the position and the book's depth by exactly the fills of the order it
   records, cash by their rounded total in the decimal context, and touches nothing else. A buy
   never costs more than there is.
   */
  lemma SubmitMovesExactlyItsFills(s: State, spec: OrderSpec)
    requires Sound(s) && ValidSpec(spec) && spec.commandId !in s.orders
    ensures var after := Submitted(s, spec);
      && spec.commandId in after.orders && after.orders[spec.commandId].spec == spec
      && MovesExactly(s, after, spec, after.orders[spec.commandId].fills)
      && OthersUntouched(s, after, spec)
  {
    hide Value, Key, DividedBy, Plus, Times, Balance, Paid, AtMost, MovesExactly, OthersUntouched;
    PlanSum(s, spec);
    match Judge(s, spec)
    case NotEnoughShares => DeclinedMovesNothing(s, spec, Rejected, InsufficientShares);
    case NotFullyExecutable => DeclinedMovesNothing(s, spec, Cancelled, FokNotFullyExecutable);
    case NotEnoughCash => DeclinedMovesNothing(s, spec, Rejected, InsufficientCash);
    case Executable =>
      SettledMoves(s, spec);
      SettledTouchesNothingElse(s, spec);
  }

  /**
   When cash is conserved to the last digit. Every product, running total and the new balance of
   a submission is exact if and only if none of the exact ones has more than 28 significant
   digits; and as long as the total needs no rounding, cash moves by exactly the worth of the
   recorded fills if and only if the new balance needs none either.
   */
  lemma CashMovesExactly(s: State, spec: OrderSpec)
    requires Sound(s) && ValidSpec(spec) && spec.commandId !in s.orders
    ensures spec.commandId in Submitted(s, spec).orders
    ensures var (after, fills) := (Submitted(s, spec), Submitted(s, spec).orders[spec.commandId].fills);
      && (Ledger.Exact(s.cash, spec.side, fills) <==> NothingToRound(s.cash, spec.side, fills))
      && (TotalFits(fills) ==>
          (Value(after.cash) == ExactBalance(s.cash, spec.side, fills) <==> BalanceFits(s.cash, spec.side, fills)))
  {
    hide Submitted, Value, Balance, ExactBalance, Paid, AtMost, OthersUntouched, TotalFits, BalanceFits;
    SubmitMovesExactlyItsFills(s, spec);
    var fills := Submitted(s, spec).orders[spec.commandId].fills;
    ExactlyWhenNothingRounds(s.cash, spec.side, fills);
    if TotalFits(fills) { CashIsExactWhenTheBalanceFits(s.cash, spec.side, fills); }
  }

  /** Submissions whose recorded fills and cash have no digit below 10^k, and stay below 10^28 units of it. */
  lemma CoarseCashMovesExactly(s: State, spec: OrderSpec, k: int)
    requires Sound(s) && ValidSpec(spec) && spec.commandId !in s.orders
    ensures spec.commandId in Submitted(s, spec).orders
    ensures var (after, fills) := (Submitted(s, spec), Submitted(s, spec).orders[spec.commandId].fills);
      Coarse(s.cash, spec.side, fills, k) ==> Value(after.cash) == ExactBalance(s.cash, spec.side, fills)
  {
    hide Submitted, Value, Balance, ExactBalance, TotalFits, BalanceFits, Ledger.Exact, Coarse;
    CashMovesExactly(s, spec);
    var fills := Submitted(s, spec).orders[spec.commandId].fills;
    if Coarse(s.cash, spec.side, fills, k) {
      CoarseAmountsAreExact(s.cash, spec.side, fills, k);
    }
  }

  // ---------------------------------------------------------------- ordinary books

  /**
   What a caller can see before an order: no price above `top` or with a digit below 10^k, and
   `cash` with `want` shares at `top` below 10^28 units of 10^k.
   */
  ghost predicate Ordinary(quotes: seq<Quote>, want: int, cash: real, top: real, k: int) {
    && 0.0 <= top && (forall j :: 0 <= j < |quotes| ==> k <= quotes[j].price.exponent && Value(quotes[j].price) <= top)
    && cash + want as real * top < Pow10(PRECISION) as real * Unit(k)
  }

  /** Every fill has the price of a quote. */
  lemma {:induction false} FillsAreQuoted(quotes: seq<Quote>, amounts: seq<int>, k: int)
    requires |amounts| == |quotes| && forall j :: 0 <= j < |quotes| ==> k <= quotes[j].price.exponent
    ensures forall i :: 0 <= i < |FillsOf(quotes, amounts)| ==> k <= FillsOf(quotes, amounts)[i].price.exponent
  {
    if quotes != [] { FillsAreQuoted(quotes[1..], amounts[1..], k); }
  }

  /** However as many shares are taken, they are worth no more than at the top price. */
  lemma ChoiceWorth(quotes: seq<Quote>, b: seq<int>, want: int, cash: real, top: real, k: int)
    requires Ordinary(quotes, want, cash, top, k) && Takes(Levels(quotes), b) && Sum(b) <= want
    ensures FillValue(FillsOf(quotes, b)) <= want as real * top
  {
    hide Value, Unit, Pow10, FillValue, FillsOf, Total, Sum;
    FillsMatchPlan(quotes, b);
    TopOfLevels(quotes, top);
    hide Levels, Ordinary;
    TotalAtMost(Levels(quotes), b, top);
    ScaleMonotoneReal(Sum(b) as real, want as real, top);
  }

  lemma TopOfLevels(quotes: seq<Quote>, top: real)
    requires forall j :: 0 <= j < |quotes| ==> Value(quotes[j].price) <= top
    ensures forall j :: 0 <= j < |quotes| ==> Levels(quotes)[j].price <= top
  {
    hide Value;
  }

  lemma ScaleMonotoneReal(x: real, y: real, p: real)
    requires x <= y && p >= 0.0
    ensures x * p <= y * p
  {
  }

  lemma OrdinaryChoiceFits(quotes: seq<Quote>, b: seq<int>, want: int, cash: real, top: real, k: int)
    requires cash >= 0.0 && Ordinary(quotes, want, cash, top, k) && Takes(Levels(quotes), b) && Sum(b) <= want
    ensures TotalFits(FillsOf(quotes, b))
  {
    hide Value, Unit, Pow10, FillValue, FillsOf, TotalFits;
    ChoiceWorth(quotes, b, want, cash, top, k);
    FillsAreQuoted(quotes, b, k);
    CoarseTotalFits(FillsOf(quotes, b), k);
  }

  /** The fills a submission records. */
  lemma RecordedFills(s: State, spec: OrderSpec)
    requires Sound(s) && ValidSpec(spec) && spec.commandId !in s.orders
    ensures spec.commandId in Submitted(s, spec).orders
    ensures Submitted(s, spec).orders[spec.commandId].fills ==
      if Executes(s, spec) then FillsOf(QuotesFor(s, spec), Plan(s, spec)) else []
  {
    hide Value, Key, DividedBy, Plus, Times, Balance, Paid, AtMost, FillsOf, Reduced;
    PlanSum(s, spec);
  }

  /** The cash of a caller who looked at the book first moves by exactly what was traded. */
  lemma OrdinaryCashMovesExactly(s: State, spec: OrderSpec, top: real, k: int)
    requires Sound(s) && ValidSpec(spec) && spec.commandId !in s.orders
    requires k <= s.cash.exponent && Ordinary(QuotesFor(s, spec), spec.quantity, Value(s.cash), top, k)
    ensures spec.commandId in Submitted(s, spec).orders
    ensures Value(Submitted(s, spec).cash) ==
      ExactBalance(s.cash, spec.side, Submitted(s, spec).orders[spec.commandId].fills)
  {
    hide Submitted, Value, Balance, ExactBalance, FillsOf, QuotesFor, Plan, Ordinary, Coarse, Paid;
    RecordedFills(s, spec);
    CoarseCashMovesExactly(s, spec, k);
    var fills := Submitted(s, spec).orders[spec.commandId].fills;
    if Executes(s, spec) {
      PlanSum(s, spec);
      OrdinaryIsCoarse(s.cash, QuotesFor(s, spec), Plan(s, spec), spec.quantity, spec.side, top, k);
    } else {
      NothingIsCoarse(s.cash, QuotesFor(s, spec), spec.quantity, spec.side, top, k);
    }
  }

  lemma OrdinaryIsCoarse(cash: Amount, quotes: seq<Quote>, b: seq<int>, want: int, side: Side, top: real, k: int)
    requires k <= cash.exponent && Ordinary(quotes, want, Value(cash), top, k)
    requires Takes(Levels(quotes), b) && Sum(b) <= want
    requires side == Buy ==> AtMost(Paid(FillsOf(quotes, b)), cash)
    ensures Coarse(cash, side, FillsOf(quotes, b), k)
  {
    hide Value, Unit, Pow10, FillValue, FillsOf, TotalFits, AtMost, Paid;
    DecimalContext.ValueNonNegative(cash);
    ChoiceWorth(quotes, b, want, Value(cash), top, k);
    FillsAreQuoted(quotes, b, k);
    if side == Buy {
      OrdinaryChoiceFits(quotes, b, want, Value(cash), top, k);
      TotalIsPaid(FillsOf(quotes, b));
      OrderValue(Paid(FillsOf(quotes, b)), cash);
    }
  }

  lemma NothingIsCoarse(cash: Amount, quotes: seq<Quote>, want: int, side: Side, top: real, k: int)
    requires k <= cash.exponent && want >= 0 && Ordinary(quotes, want, Value(cash), top, k)
    ensures Coarse(cash, side, [], k)
  {
    hide Value, Unit, Pow10;
    DecimalContext.ValueNonNegative(cash);
    ScaleMonotoneReal(0.0, want as real, top);
  }

  /**
   Where it is not: an ask of 1E-29, below the last digit that 1000 in cash can show. The order
   fills and the share arrives, and the cash stays at 1000.
   */
  lemma ShareForNothing()
    ensures var s := State(Amount(1000, 0), map[], map["X" := Book([Quote(TINY, 1)], [])], map[], 0);
      var spec := OrderSpec("c", "X", Buy, Market, 1, None);
      && Sound(s) && ValidSpec(spec)
      && var after := Submitted(s, spec);
         && "c" in after.orders && after.orders["c"].fills == [Fill(1, TINY)] && Held(after, "X").quantity == 1
         && Value(after.cash) == Value(s.cash)
         && ExactBalance(s.cash, Buy, after.orders["c"].fills) < Value(s.cash)
  {
    hide Value, DividedBy, Plus, Times, Balance, Paid, AtMost, ExactBalance;
    var s := State(Amount(1000, 0), map[], map["X" := Book([Quote(TINY, 1)], [])], map[], 0);
    var spec := OrderSpec("c", "X", Buy, Market, 1, None);
    OneQuote(TINY);
    TinyPriceCostsNothing();
    assert QuotesFor(s, spec) == [Quote(TINY, 1)];
    assert Plan(s, spec) == [1];
    assert Judge(s, spec) == Executable;
  }

  /** One share against one quote of one share. */
  lemma OneQuote(price: Amount)
    ensures Levels([Quote(price, 1)]) == [Level(Value(price), 1)]
    ensures Greedy([Level(Value(price), 1)], Buy, None, 1) == [1] && Sum([1]) == 1
    ensures FillsOf([Quote(price, 1)], [1]) == [Fill(1, price)]
  {
    hide Value;
    assert [Level(Value(price), 1)][1..] == [] && [Quote(price, 1)][1..] == [] && [1][1..] == [];
    assert FillsOf([], []) == [];
    assert Greedy([], Buy, None, 0) == [];
  }

  /** The recorded status of an order that was not executed. */
  predicate Unexecuted(order: SimOrder) {
    order.status == Rejected || (order.spec.kind == Fok && order.status == Cancelled)
  }

  lemma UnexecutedWasDeclined(s: State, spec: OrderSpec)
    requires Sound(s) && ValidSpec(spec) && spec.commandId !in s.orders
    ensures spec.commandId in Submitted(s, spec).orders
    ensures Unexecuted(Submitted(s, spec).orders[spec.commandId]) <==> Judge(s, spec) != Executable
  {
    hide Value, Key, DividedBy, Plus, Times, Balance, Paid, AtMost, FillsOf, Reduced;
    PlanSum(s, spec);
  }

  /** Rejected orders and unfillable all-or-none orders change no balance and no book. */
  lemma DeclinedOrdersChangeNothing(s: State, spec: OrderSpec)
    requires Sound(s) && ValidSpec(spec) && spec.commandId !in s.orders
    ensures var after := Submitted(s, spec);
      && spec.commandId in after.orders
      && (Unexecuted(after.orders[spec.commandId]) ==>
          && after.cash == s.cash && after.positions == s.positions && after.books == s.books
          && after.orders[spec.commandId].fills == []
          && after.orders == s.orders[spec.commandId := after.orders[spec.commandId]])
  {
    hide Value, Key, DividedBy, Plus, Times, Balance, Paid, AtMost, Plan, Settled;
    UnexecutedWasDeclined(s, spec);
  }

  /** An all-or-none order fills completely or not at all. */
  lemma AllOrNone(s: State, spec: OrderSpec)
    requires Sound(s) && ValidSpec(spec) && spec.commandId !in s.orders && spec.kind == Fok
    ensures spec.commandId in Submitted(s, spec).orders
    ensures var order := Submitted(s, spec).orders[spec.commandId];
      FillQuantity(order.fills) == if Unexecuted(order) then 0 else spec.quantity
  {
    hide Value, Key, DividedBy, Plus, Times, Balance, Paid, AtMost, Reduced;
    PlanSum(s, spec);
    UnexecutedWasDeclined(s, spec);
    if Judge(s, spec) == Executable {
      FillsMatchPlan(QuotesFor(s, spec), Plan(s, spec));
    }
  }

  // ---------------------------------------------------------------- runs

  datatype Operation =
    | SetBook(symbol: string, bids: seq<Quote>, asks: seq<Quote>)
    | SeedPosition(symbol: string, quantity: int, averageCost: Option<Amount>)
    | Submit(spec: OrderSpec)
    | Cancel(commandId: string)

  function BookSet(s: State, symbol: string, bids: seq<Quote>, asks: seq<Quote>): State {
    if ValidQuotes(bids) && ValidQuotes(asks)
    then s.(books := s.books[symbol := Book(SortQuotes(asks, Buy), SortQuotes(bids, Sell))]) else s
  }

  /** `None` is an average cost that is negative or not finite. */
  function Seeded(s: State, symbol: string, quantity: int, averageCost: Option<Amount>): State {
    if quantity >= 0 && averageCost.Some?
      then s.(positions := s.positions[symbol := Position(quantity, averageCost.value)])
    else s
  }

  function CancelledState(s: State, id: string): State {
    if id in s.orders && s.orders[id].status in {Open, PartiallyFilled}
    then s.(orders := s.orders[id := s.orders[id].(status := Cancelled)]) else s
  }

  function Operated(s: State, op: Operation): State
    requires Sound(s)
  {
    match op
    case SetBook(symbol, bids, asks) => BookSet(s, symbol, bids, asks)
    case SeedPosition(symbol, quantity, averageCost) => Seeded(s, symbol, quantity, averageCost)
    case Submit(spec) => Submitted(s, spec)
    case Cancel(id) => CancelledState(s, id)
  }

  lemma ValidQuotesSort(quotes: seq<Quote>, side: Side)
    requires ValidQuotes(quotes)
    ensures SoundQuotes(SortQuotes(quotes, side), side)
  {
    hide Value, Key, SortQuotes;
    SortQuotesSorts(quotes, side);
    var sorted := SortQuotes(quotes, side);
    forall k | 0 <= k < |sorted|
      ensures sorted[k].price.coefficient > 0 && sorted[k].quantity >= 0
    {
      assert sorted[k] in multiset(sorted);
      assert sorted[k] in quotes;
    }
  }

  lemma OperatedSound(s: State, op: Operation)
    requires Sound(s)
    ensures Sound(Operated(s, op))
  {
    hide SoundQuotes, Submitted, SortQuotes;
    match op {
      case SetBook(symbol, bids, asks) =>
        if ValidQuotes(bids) && ValidQuotes(asks) {
          ValidQuotesSort(bids, Sell);
          ValidQuotesSort(asks, Buy);
        }
      case Submit(spec) => SubmitKeepsSound(s, spec);
      case _ =>
    }
  }

  /** A series of operations. From non-negative balances everything stays non-negative. */
  function Run(s: State, ops: seq<Operation>): (end: State)
    requires Sound(s)
    ensures Sound(end)
    decreases |ops|
  {
    if ops == [] then s else (OperatedSound(s, ops[0]); Run(Operated(s, ops[0]), ops[1..]))
  }

  predicate SameOrderKept(before: State, after: State, id: string) {
    id in before.orders ==>
      && id in after.orders && after.orders[id].spec == before.orders[id].spec
      && after.orders[id].fills == before.orders[id].fills && after.orders[id].number == before.orders[id].number
  }

  lemma OperatedKeepsOrders(s: State, op: Operation, id: string)
    requires Sound(s)
    ensures SameOrderKept(s, Operated(s, op), id) && s.submissionCount <= Operated(s, op).submissionCount
  {
  }

  /** No recorded order is ever submitted again: its spec, number and fills are final. */
  lemma {:induction false} RecordedOrdersAreFinal(s: State, ops: seq<Operation>, id: string)
    requires Sound(s)
    ensures SameOrderKept(s, Run(s, ops), id) && s.submissionCount <= Run(s, ops).submissionCount
    decreases |ops|
  {
    if ops != [] {
      OperatedSound(s, ops[0]);
      OperatedKeepsOrders(s, ops[0], id);
      RecordedOrdersAreFinal(Operated(s, ops[0]), ops[1..], id);
    }
  }

  /** Repeating a command ID changes nothing, at any later point of any series. */
  lemma RepeatedIdChangesNothing(s: State, first: OrderSpec, ops: seq<Operation>, again: OrderSpec)
    requires Sound(s) && first.commandId in s.orders && again.commandId == first.commandId
    ensures Submitted(Run(s, ops), again) == Run(s, ops)
  {
    RecordedOrdersAreFinal(s, ops, first.commandId);
  }

  // ---------------------------------------------------------------- the engine itself

  /** The fills a loop has planned so far, with the index of the level each one takes from. */
  function Planned(quotes: seq<Quote>, amounts: seq<int>): seq<(nat, Fill)>
    requires |amounts| <= |quotes|
  {
    if amounts == [] then []
    else
      var last := |amounts| - 1;
      Planned(quotes, amounts[..last])
      + if amounts[last] != 0 then [(last, Fill(amounts[last], quotes[last].price))] else []
  }

  function JustFills(planned: seq<(nat, Fill)>): seq<Fill> {
    seq(|planned|, k requires 0 <= k < |planned| => planned[k].1)
  }

  lemma {:induction false} PaddedPlan(quotes: seq<Quote>, amounts: seq<int>, size: nat)
    requires |amounts| <= size <= |quotes|
    ensures Planned(quotes, Pad(amounts, size)) == Planned(quotes, amounts)
    decreases size
  {
    if |amounts| == size {
      assert Pad(amounts, size) == amounts;
    } else {
      PaddedPlan(quotes, amounts, size - 1);
      assert Pad(amounts, size)[..size - 1] == Pad(amounts, size - 1);
    }
  }

  /** The planned list carries the fills in book order. */
  lemma {:induction false} PlannedFills(quotes: seq<Quote>, amounts: seq<int>)
    requires |amounts| == |quotes|
    ensures JustFills(Planned(quotes, amounts)) == FillsOf(quotes, amounts)
  {
    if quotes != [] {
      var last := |quotes| - 1;
      PlannedPrefix(quotes, amounts[..last]);
      PlannedFills(quotes[..last], amounts[..last]);
      FillsAppend(quotes, amounts);
    }
  }

  lemma {:induction false} PlannedPrefix(quotes: seq<Quote>, amounts: seq<int>)
    requires |amounts| <= |quotes|
    ensures Planned(quotes, amounts) == Planned(quotes[..|amounts|], amounts)
    decreases |amounts|
  {
    if amounts != [] {
      var last := |amounts| - 1;
      PlannedPrefix(quotes, amounts[..last]);
      PlannedPrefix(quotes[..|amounts|], amounts[..last]);
      assert quotes[..|amounts|][..last] == quotes[..last];
    }
  }

  lemma {:induction false} FillsAppend(quotes: seq<Quote>, amounts: seq<int>)
    requires |amounts| == |quotes| > 0
    ensures var last := |quotes| - 1;
      FillsOf(quotes, amounts) == FillsOf(quotes[..last], amounts[..last])
        + if amounts[last] != 0 then [Fill(amounts[last], quotes[last].price)] else []
  {
    var last := |quotes| - 1;
    if last > 0 {
      FillsAppend(quotes[1..], amounts[1..]);
      assert quotes[1..][..last - 1] == quotes[..last][1..];
      assert amounts[1..][..last - 1] == amounts[..last][1..];
    }
  }

  /** Taking the planned fills out of their quotes, one after the other. */
  function TakeOut(quotes: seq<Quote>, planned: seq<(nat, Fill)>): (left: seq<Quote>)
    ensures |left| == |quotes|
  {
    if planned == [] then quotes
    else TakeOne(TakeOut(quotes, planned[..|planned| - 1]), planned[|planned| - 1].0, planned[|planned| - 1].1)
  }

  function TakeOne(quotes: seq<Quote>, index: nat, fill: Fill): (left: seq<Quote>)
    ensures |left| == |quotes|
  {
    if index < |quotes| then quotes[index := quotes[index].(quantity := quotes[index].quantity - fill.quantity)]
    else quotes
  }

  lemma {:induction false} PlannedIndices(quotes: seq<Quote>, amounts: seq<int>)
    requires |amounts| <= |quotes|
    ensures forall k :: 0 <= k < |Planned(quotes, amounts)| ==> Planned(quotes, amounts)[k].0 < |amounts|
  {
    if amounts != [] {
      PlannedIndices(quotes, amounts[..|amounts| - 1]);
    }
  }

  lemma {:induction false} TakeOutReduces(quotes: seq<Quote>, amounts: seq<int>)
    requires |amounts| <= |quotes|
    ensures TakeOut(quotes, Planned(quotes, amounts)) == Reduced(quotes, Pad(amounts, |quotes|))
  {
    if amounts == [] {
      assert Reduced(quotes, Pad(amounts, |quotes|)) == quotes;
    } else {
      var last := |amounts| - 1;
      TakeOutReduces(quotes, amounts[..last]);
      PlannedLast(quotes, amounts);
      ReducedLast(quotes, amounts);
    }
  }

  lemma TakeOutAppend(quotes: seq<Quote>, planned: seq<(nat, Fill)>, index: nat, fill: Fill)
    ensures TakeOut(quotes, planned + [(index, fill)]) == TakeOne(TakeOut(quotes, planned), index, fill)
  {
    assert (planned + [(index, fill)])[..|planned|] == planned;
  }

  lemma PlannedLast(quotes: seq<Quote>, amounts: seq<int>)
    requires 0 < |amounts| <= |quotes|
    ensures var last := |amounts| - 1;
      var before := TakeOut(quotes, Planned(quotes, amounts[..last]));
      TakeOut(quotes, Planned(quotes, amounts))
        == if amounts[last] == 0 then before else TakeOne(before, last, Fill(amounts[last], quotes[last].price))
  {
    var last := |amounts| - 1;
    var before := Planned(quotes, amounts[..last]);
    if amounts[last] != 0 {
      TakeOutAppend(quotes, before, last, Fill(amounts[last], quotes[last].price));
    } else {
      assert Planned(quotes, amounts) == before;
    }
  }

  lemma ReducedLast(quotes: seq<Quote>, amounts: seq<int>)
    requires 0 < |amounts| <= |quotes|
    ensures var last := |amounts| - 1;
      var shorter := Reduced(quotes, Pad(amounts[..last], |quotes|));
      Reduced(quotes, Pad(amounts, |quotes|))
        == if amounts[last] == 0 then shorter
           else shorter[last := shorter[last].(quantity := shorter[last].quantity - amounts[last])]
  {
  }

  lemma PlannedRound(quotes: seq<Quote>, taken: seq<int>, quantity: int)
    requires |taken| < |quotes|
    ensures Planned(quotes, taken + [quantity])
      == Planned(quotes, taken) + if quantity != 0 then [(|taken|, Fill(quantity, quotes[|taken|].price))] else []
  {
    assert (taken + [quantity])[..|taken|] == taken;
  }

  /** Two specs that ask for different things; prices are compared by worth. */
  predicate DifferentSpecs(a: OrderSpec, b: OrderSpec) {
    || a.commandId != b.commandId || a.symbol != b.symbol || a.side != b.side || a.kind != b.kind
    || a.quantity != b.quantity || a.limitPrice.Some? != b.limitPrice.Some?
    || (a.limitPrice.Some? && b.limitPrice.Some? && Value(a.limitPrice.value) != Value(b.limitPrice.value))
  }

  /** The dataclass comparison of two specs, in which equal prices are equal however they are spelled. */
  predicate SameSpec(a: OrderSpec, b: OrderSpec) {
    a.(limitPrice := None) == b.(limitPrice := None) && LimitWorth(a) == LimitWorth(b)
  }

  datatype Reply = InvalidSpec | IdReused | Processed(order: Order) | LostAcknowledgement

  /** A recorded order. The object a submission returns is the stored one, so later changes show in it. */
  class Order {
    const number: nat
    const spec: OrderSpec
    var status: Status
    var fills: seq<Fill>
    var reason: Option<Reason>

    constructor (number: nat, spec: OrderSpec)
      ensures Value() == Opened(number, spec)
    {
      this.number, this.spec, status, fills, reason := number, spec, Open, [], None;
    }

    ghost function Value(): SimOrder
      reads this
    {
      SimOrder(number, spec, status, fills, reason)
    }
  }

  function Opened(number: nat, spec: OrderSpec): SimOrder {
    SimOrder(number, spec, Open, [], None)
  }

  /** The state in the middle of a submission: the order is filed, and nothing is decided yet. */
  function Filed(s: State, spec: OrderSpec): State {
    s.(submissionCount := s.submissionCount + 1,
       orders := s.orders[spec.commandId := Opened(s.submissionCount + 1, spec)])
  }

  class Broker {
    var cash: Amount
    var positions: map<string, Position>
    var books: map<string, Book>
    var orders: map<string, Order>
    var submissionCount: nat

    /** Every order is an object of its own. */
    ghost predicate Valid()
      reads `orders
    {
      forall a, b :: a in orders && b in orders && a != b ==> orders[a] != orders[b]
    }

    ghost function Orders(): map<string, SimOrder>
      reads `orders, orders.Values
    {
      map id | id in orders :: orders[id].Value()
    }

    lemma Stored(id: string)
      ensures id in Orders() <==> id in orders
      ensures id in orders ==> Orders()[id] == orders[id].Value()
    {
    }

    ghost function Abs(): State
      reads this, orders.Values
    {
      State(cash, positions, books, Orders(), submissionCount)
    }

    constructor (cash: Amount)
      ensures Valid() && Abs() == State(cash, map[], map[], map[], 0) && Sound(Abs())
    {
      this.cash, positions, books, orders, submissionCount := cash, map[], map[], map[], 0;
    }

    method SetBook(symbol: string, bids: seq<Quote>, asks: seq<Quote>) returns (valid: bool)
      requires Valid()
      modifies `books
      ensures Valid() && valid == (ValidQuotes(bids) && ValidQuotes(asks))
      ensures valid <==> forall q: Quote :: q in bids || q in asks ==> q.price.coefficient > 0 && q.quantity > 0
      ensures Abs() == BookSet(old(Abs()), symbol, bids, asks)
      ensures !valid ==> books == old(books)
      ensures valid ==> books.Keys == old(books).Keys + {symbol}
      ensures valid ==> Sorted(Levels(books[symbol].buy), Buy) && multiset(books[symbol].buy) == multiset(asks)
      ensures valid ==> Sorted(Levels(books[symbol].sell), Sell) && multiset(books[symbol].sell) == multiset(bids)
      ensures forall other :: other in old(books) && other != symbol ==> books[other] == old(books)[other]
    {
      hide SortQuotes, Levels, Sorted, Orders;
      SortQuotesSorts(asks, Buy);
      SortQuotesSorts(bids, Sell);
      valid := ValidQuotes(bids) && ValidQuotes(asks);
      if valid {
        books := books[symbol := Book(SortQuotes(asks, Buy), SortQuotes(bids, Sell))];
      }
    }

    method SeedPosition(symbol: string, quantity: int, averageCost: Option<Amount>) returns (valid: bool)
      requires Valid()
      modifies `positions
      ensures Valid() && valid == (quantity >= 0 && averageCost.Some?)
      ensures Abs() == Seeded(old(Abs()), symbol, quantity, averageCost)
      ensures positions ==
        if valid then old(positions)[symbol := Position(quantity, averageCost.value)] else old(positions)
    {
      valid := quantity >= 0 && averageCost.Some?;
      if valid {
        positions := positions[symbol := Position(quantity, averageCost.value)];
      }
    }

    /** The stored order itself, whose status changes in place. `None` is the `KeyError` of an unknown ID. */
    method Cancel(commandId: string) returns (order: Option<Order>)
      requires Valid()
      modifies orders.Values
      ensures Valid() && Abs() == CancelledState(old(Abs()), commandId)
      ensures order == if commandId in orders then Some(orders[commandId]) else None
      ensures forall id :: id in orders && id != commandId ==> orders[id].Value() == old(orders[id].Value())
      ensures order.Some? ==>
        var was := old(orders[commandId].Value());
        order.value.Value() == if was.status in {Open, PartiallyFilled} then was.(status := Cancelled) else was
    {
      if commandId !in orders {
        return None;
      }
      var stored := orders[commandId];
      if stored.status == Open || stored.status == PartiallyFilled {
        stored.status := Cancelled;
      }
      assert Orders() == CancelledState(old(Abs()), commandId).orders;
      return Some(stored);
    }

    /** The planning loop of `submit`. */
    method PlanFills(quotes: seq<Quote>, spec: OrderSpec) returns (remaining: int, planned: seq<(nat, Fill)>)
      requires Depth(Levels(quotes)) && spec.quantity > 0
      ensures var plan := Greedy(Levels(quotes), spec.side, LimitWorth(spec), spec.quantity);
        planned == Planned(quotes, plan) && remaining == spec.quantity - Sum(plan)
    {
      hide Value, Key, Greedy, PlanSoFar, LimitWorth;
      ghost var levels := Levels(quotes);
      var limit := LimitWorth(spec);
      StartOfPlan(levels, spec.side, limit, spec.quantity);
      remaining, planned := spec.quantity, [];
      ghost var taken: seq<int> := [];
      var index := 0;
      while index < |quotes|
        invariant 0 <= index <= |quotes| && |taken| == index && remaining >= 0
        invariant planned == Planned(quotes, taken)
        invariant PlanSoFar(levels, spec.side, limit, spec.quantity, taken, remaining)
      {
        var price, available := quotes[index].price, quotes[index].quantity;
        if remaining == 0 || !Eligible(spec.side, limit, Value(price)) {
          break;
        }
        var quantity := Min(remaining, available);
        PlanRound(levels, spec.side, limit, spec.quantity, taken, remaining);
        PlannedRound(quotes, taken, quantity);
        if quantity != 0 {
          planned := planned + [(index, Fill(quantity, price))];
        }
        taken := taken + [quantity];
        remaining, index := remaining - quantity, index + 1;
      }
      PlanStops(levels, spec.side, limit, spec.quantity, taken, remaining);
      PaddedPlan(quotes, taken, |quotes|);
    }

    /** The second loop of `submit`: the planned fills leave their quotes. */
    method TakeFills(spec: OrderSpec, quotes: seq<Quote>, planned: seq<(nat, Fill)>, ghost plan: seq<int>)
      requires |plan| == |quotes| && planned == Planned(quotes, plan)
      modifies `books
      ensures books == WithQuotes(old(books), spec.symbol, spec.side, Reduced(quotes, plan))
    {
      PlannedIndices(quotes, plan);
      var left := quotes;
      for k := 0 to |planned|
        invariant left == TakeOut(quotes, planned[..k]) && books == old(books)
      {
        var (index, fill) := planned[k];
        assert planned[..k + 1] == planned[..k] + [(index, fill)];
        TakeOutAppend(quotes, planned[..k], index, fill);
        left := left[index := left[index].(quantity := left[index].quantity - fill.quantity)];
      }
      assert planned[..|planned|] == planned;
      TakeOutReduces(quotes, plan);
      assert Pad(plan, |quotes|) == plan;
      assert left == Reduced(quotes, plan);
      books := WithQuotes(books, spec.symbol, spec.side, left);
    }

    /** Only the order changes: it is rejected or cancelled. */
    method Decline(order: Order, status: Status, reason: Reason, ghost before: State)
      requires Valid() && order.spec.commandId in orders && orders[order.spec.commandId] == order
      requires Abs() == Filed(before, order.spec)
      modifies order
      ensures Abs() == Declined(before, order.spec, status, reason)
    {
      assert order.Value() == Orders()[order.spec.commandId] == Opened(before.submissionCount + 1, order.spec);
      order.status, order.reason := status, Some(reason);
      assert Orders() == Declined(before, order.spec, status, reason).orders;
    }

    /** The final status, by what is left of the order. */
    method FinishOrder(order: Order, fills: seq<Fill>, remaining: int)
      requires order.status == Open && order.reason == None
      modifies order
      ensures (order.status, order.reason) == SettledStatus(order.spec, order.spec.quantity - remaining)
      ensures order.fills == fills
    {
      order.fills := fills;
      if remaining == 0 {
        order.status := Filled;
      } else if order.spec.kind == Market {
        order.status, order.reason := Cancelled, Some(MarketRemainderCancelled);
      } else if order.spec.quantity - remaining != 0 {
        order.status := PartiallyFilled;
      }
    }

    /** The stored order gets its fills and its final status. */
    method FillOrder(order: Order, fills: seq<Fill>, remaining: int)
      requires Valid() && order.spec.commandId in orders && orders[order.spec.commandId] == order
      requires order.Value() == Opened(order.number, order.spec)
      modifies order
      ensures var (status, reason) := SettledStatus(order.spec, order.spec.quantity - remaining);
        Orders() == old(Orders())[order.spec.commandId := SimOrder(order.number, order.spec, status, fills, reason)]
    {
      hide SettledStatus;
      FinishOrder(order, fills, remaining);
    }

    /** The accepting tail of `submit`: book, balances and final status. */
    method Settle(order: Order, quotes: seq<Quote>, planned: seq<(nat, Fill)>, remaining: int, ghost before: State)
      requires Valid() && order.spec.commandId in orders && orders[order.spec.commandId] == order
      requires Abs() == Filed(before, order.spec)
      requires Sound(before) && ValidSpec(order.spec) && Sum(Plan(before, order.spec)) >= 0
      requires quotes == QuotesFor(before, order.spec) && planned == Planned(quotes, Plan(before, order.spec))
      requires remaining == order.spec.quantity - Sum(Plan(before, order.spec))
      modifies `cash, `positions, `books, order
      ensures Abs() == Settled(before, order.spec)
    {
      hide Orders, Settled, SettledStatus, Plan, QuotesFor, Sum, Planned, JustFills, FillsOf, Sound;
      HeldIsCounted(before, order.spec.symbol);
      PlanIsCounted(before, order.spec);
      SettledFields(before, order.spec);
      PlannedFills(quotes, Plan(before, order.spec));
      Stored(order.spec.commandId);
      assert order.Value() == Opened(before.submissionCount + 1, order.spec);
      FillOrder(order, JustFills(planned), remaining);
      assert Orders() == Settled(before, order.spec).orders;
      MoveBook(order.spec, quotes, planned, remaining, before);
    }

    /** Book and balances. */
    method MoveBook(spec: OrderSpec, quotes: seq<Quote>, planned: seq<(nat, Fill)>, remaining: int, ghost before: State)
      requires cash == before.cash && positions == before.positions && books == before.books
      requires Sound(before) && ValidSpec(spec) && Sum(Plan(before, spec)) >= 0
      requires quotes == QuotesFor(before, spec) && planned == Planned(quotes, Plan(before, spec))
      requires remaining == spec.quantity - Sum(Plan(before, spec))
      modifies `cash, `positions, `books
      ensures var after := Settled(before, spec);
        cash == after.cash && positions == after.positions && books == after.books
    {
      hide Settled, Plan, QuotesFor, Sum, Planned, JustFills, FillsOf, Sound;
      hide Balance, NewPosition, Paid, WithQuotes, Reduced;
      PlanIsCounted(before, spec);
      HeldIsCounted(before, spec.symbol);
      SettledFields(before, spec);
      PlannedFills(quotes, Plan(before, spec));
      NoFills(quotes, Plan(before, spec));
      TakeFills(spec, quotes, planned, Plan(before, spec));
      MoveBalances(spec, spec.quantity - remaining, JustFills(planned));
    }

    method MoveBalances(spec: OrderSpec, quantity: int, fills: seq<Fill>)
      requires quantity >= 0 && (spec.symbol in positions ==> positions[spec.symbol].quantity >= 0)
      requires quantity == 0 <==> fills == []
      modifies `cash, `positions
      ensures cash == Balance(old(cash), spec.side, fills)
      ensures positions == if quantity == 0 then old(positions) else
        old(positions)[spec.symbol :=
          NewPosition(HeldIn(old(positions), spec.symbol), spec.side, quantity, Paid(fills))]
    {
      hide Value, DividedBy, Plus, Times, Minus, Paid;
      if quantity != 0 {
        var held := HeldIn(positions, spec.symbol);
        var value := Paid(fills);
        cash := if spec.side == Buy then Minus(cash, value) else Plus(cash, value);
        positions := positions[spec.symbol := NewPosition(held, spec.side, quantity, value)];
      }
    }

    method Submit(spec: OrderSpec, loseAcknowledgement: bool) returns (reply: Reply)
      requires Valid() && Sound(Abs())
      modifies this
      ensures Valid() && Abs() == Submitted(old(Abs()), spec)
      ensures reply.InvalidSpec? <==> !ValidSpec(spec)
      ensures reply.InvalidSpec? <==>
        || spec.commandId == "" || spec.symbol == "" || spec.quantity <= 0
        || (spec.kind == Market && spec.limitPrice.Some?)
        || (spec.kind != Market && (spec.limitPrice.None? || spec.limitPrice.value.coefficient == 0))
      ensures reply.IdReused? <==>
        ValidSpec(spec) && spec.commandId in old(orders) && DifferentSpecs(old(orders)[spec.commandId].spec, spec)
      ensures reply.LostAcknowledgement? <==> loseAcknowledgement && Executes(old(Abs()), spec)
      ensures reply.Processed? ==> spec.commandId in orders && reply.order == orders[spec.commandId]
      ensures forall id :: id in old(orders) ==> id in orders && orders[id] == old(orders)[id]
      ensures fresh(orders.Values - old(orders.Values))
    {
      if !ValidSpec(spec) { return InvalidSpec; }
      if spec.commandId in orders {
        Stored(spec.commandId);
        return if !SameSpec(orders[spec.commandId].spec, spec) then IdReused else Processed(orders[spec.commandId]);
      }
      reply := SubmitNew(spec, loseAcknowledgement);
    }

    /** A new order is filed, open and without fills, before anything is decided. */
    method File(spec: OrderSpec) returns (order: Order)
      requires Valid() && spec.commandId !in orders
      modifies `orders, `submissionCount
      ensures Valid() && Abs() == Filed(old(Abs()), spec)
      ensures fresh(order) && order.spec == spec && orders == old(orders)[spec.commandId := order]
    {
      ghost var before := Orders();
      submissionCount := submissionCount + 1;
      order := new Order(submissionCount, spec);
      assert Orders() == before;
      AddOrder(spec.commandId, order);
    }

    /** One more object in the table. */
    method AddOrder(id: string, order: Order)
      requires Valid() && id !in orders && order !in orders.Values
      modifies `orders
      ensures Valid() && orders == old(orders)[id := order] && Orders() == old(Orders())[id := order.Value()]
    {
      assert forall other :: other in orders ==> orders[other] in orders.Values;
      orders := orders[id := order];
    }

    method SubmitNew(spec: OrderSpec, loseAcknowledgement: bool) returns (reply: Reply)
      requires Valid() && Sound(Abs()) && ValidSpec(spec) && spec.commandId !in orders
      modifies this
      ensures Valid() && Abs() == Submitted(old(Abs()), spec)
      ensures reply.Processed? || reply.LostAcknowledgement?
      ensures reply.LostAcknowledgement? <==> loseAcknowledgement && Executes(old(Abs()), spec)
      ensures spec.commandId in orders && fresh(orders[spec.commandId])
      ensures orders == old(orders)[spec.commandId := orders[spec.commandId]]
      ensures reply.Processed? ==> reply.order == orders[spec.commandId]
    {
      hide Orders, Value, Key, DividedBy, Plus, Times, Balance, Paid, AtMost, Planned, Greedy, Settled;
      ghost var before := Abs();
      Stored(spec.commandId);
      PlanSum(before, spec);
      var order := File(spec);
      if spec.side == Sell && HeldIn(positions, spec.symbol).quantity < spec.quantity {
        Decline(order, Rejected, InsufficientShares, before);
        return Processed(order);
      }
      var quotes := if spec.symbol in books then SideQuotes(books[spec.symbol], spec.side) else [];
      var remaining, planned := PlanFills(quotes, spec);
      if spec.kind == Fok && remaining != 0 {
        Decline(order, Cancelled, FokNotFullyExecutable, before);
        return Processed(order);
      }
      reply := SubmitPlanned(order, quotes, planned, remaining, before, loseAcknowledgement);
    }

    /** The rest of `submit` once the planned fills satisfy the order's kind. */
    method SubmitPlanned(order: Order, quotes: seq<Quote>, planned: seq<(nat, Fill)>, remaining: int,
                         ghost before: State, loseAcknowledgement: bool) returns (reply: Reply)
      requires Valid() && order.spec.commandId in orders && orders[order.spec.commandId] == order
      requires Abs() == Filed(before, order.spec) && order.spec.commandId !in before.orders
      requires Sound(before) && ValidSpec(order.spec) && Sum(Plan(before, order.spec)) >= 0
      requires quotes == QuotesFor(before, order.spec) && planned == Planned(quotes, Plan(before, order.spec))
      requires remaining == order.spec.quantity - Sum(Plan(before, order.spec))
      requires Judge(before, order.spec) in {NotEnoughCash, Executable}
      modifies `cash, `positions, `books, order
      ensures Abs() == Submitted(before, order.spec)
      ensures reply ==
        if loseAcknowledgement && Executes(before, order.spec) then LostAcknowledgement else Processed(order)
    {
      hide Orders, Value, Key, DividedBy, Plus, Times, Balance, Paid, AtMost, Planned, Settled;
      PlannedFills(quotes, Plan(before, order.spec));
      if order.spec.side == Buy && !AtMost(Paid(JustFills(planned)), cash) {
        Decline(order, Rejected, InsufficientCash, before);
        return Processed(order);
      }
      Settle(order, quotes, planned, remaining, before);
      return if loseAcknowledgement then LostAcknowledgement else Processed(order);
    }
  }
}
