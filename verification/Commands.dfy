/**
 Command values and the semantic fingerprint that detects reuse of a command ID.
 JSON encoding and SHA-256 are taken to be injective, so a digest is the fingerprint itself.
 */
module Commands {
  import opened Common
  import opened Decimals

  datatype Side = Buy | Sell
  datatype OrderType = MarketOrder | LimitOrder | FokOrder

  datatype Command =
    | TradingCommand(id: string, symbol: string, side: Side, quantity: Option<nat>, orderType: OrderType,
                     limitPrice: Option<Decimal>, notional: Option<Decimal>, allowPrePost: bool)
    | CancelCommand(id: string, orderReference: Option<string>, cancelAll: bool)

  datatype Fingerprint =
    | OrderPrint(symbol: string, side: Side, quantity: Option<nat>, orderType: OrderType,
                 limitPrice: Option<NumberText>, notional: Option<NumberText>, allowPrePost: bool)
    | CancelPrint(orderReference: Option<string>, cancelAll: bool)

  /** A "fok" order is a limit order that this service cancels itself after a delay. */
  predicate TimedPrint(f: Fingerprint) {
    f.OrderPrint? && f.orderType == FokOrder
  }

  /** Parsed amounts are positive finite decimals. */
  predicate ValidAmount(amount: Option<Decimal>) {
    amount.Some? ==> WellFormed(amount.value) && Positive(amount.value)
  }

  predicate ValidCommand(c: Command) {
    c.TradingCommand? ==> ValidAmount(c.limitPrice) && ValidAmount(c.notional)
  }

  function AmountText(amount: Option<Decimal>): Option<NumberText> {
    if amount.Some? then Some(FingerprintText(amount.value)) else None
  }

  function FingerprintOf(c: Command): Fingerprint {
    match c
    case TradingCommand(_, symbol, side, quantity, orderType, limitPrice, notional, allowPrePost) =>
      OrderPrint(symbol, side, quantity, orderType, AmountText(limitPrice), AmountText(notional), allowPrePost)
    case CancelCommand(_, orderReference, cancelAll) => CancelPrint(orderReference, cancelAll)
  }

  predicate SameAmount(a: Option<Decimal>, b: Option<Decimal>) {
    (a.None? && b.None?) || (a.Some? && b.Some? && SameNumber(a.value, b.value))
  }

  /** The two commands ask for the same thing, whatever IDs and spellings of numbers they use. */
  predicate SameRequest(a: Command, b: Command) {
    if a.TradingCommand? && b.TradingCommand? then
      && a.symbol == b.symbol && a.side == b.side && a.quantity == b.quantity && a.orderType == b.orderType
      && a.allowPrePost == b.allowPrePost && SameAmount(a.limitPrice, b.limitPrice)
      && SameAmount(a.notional, b.notional)
    else
      a.CancelCommand? && b.CancelCommand? && a.orderReference == b.orderReference && a.cancelAll == b.cancelAll
  }

  /** Fingerprints are equal for exactly the commands that ask for the same thing. */
  lemma FingerprintIdentifiesRequest(a: Command, b: Command)
    requires ValidCommand(a) && ValidCommand(b)
    ensures FingerprintOf(a) == FingerprintOf(b) <==> SameRequest(a, b)
  {
    if a.TradingCommand? && b.TradingCommand? {
      if a.limitPrice.Some? && b.limitPrice.Some? {
        FingerprintTextComplete(a.limitPrice.value, b.limitPrice.value);
      }
      if a.notional.Some? && b.notional.Some? {
        FingerprintTextComplete(a.notional.value, b.notional.value);
      }
    }
  }
}
