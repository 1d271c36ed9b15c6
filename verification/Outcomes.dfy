/**
 What the journal must say after a command or a timer cancellation ran while nothing the service
 depends on failed: said of the calls made and the answers on the wire, not of how it is done.
 */
module Outcomes {
  import opened Common
  import opened Commands
  import opened Journal
  import opened BrokerReply
  import opened CommandProtocol
  import CancelSelection

  /**
   What one command meets before its first broker write: a client and the trading preflight, the
   planning of its order, and today's orders (`None` if they cannot be read).
   */
  datatype Surroundings = Surroundings(ready: bool, planned: bool, orders: CancelSelection.Reply)

  /** The answer accepts the order under a reference the service can use. */
  predicate Usable(wire: Wire) {
    wire.Body? && wire.reference.Some? && Names(wire, wire.reference.value)
  }

  /** The cancellation state that an answer to the timer's cancellation calls for. */
  predicate TimerRecorded(state: Option<CancelState>, wire: Wire) {
    && (Accepts(wire) ==> state == Some(Requested))
    && (Refuses(wire) ==> state == Some(CancelRejected))
    && (!Accepts(wire) && !Refuses(wire) ==> state == Some(CancelUnknown))
  }

  /** Exactly one timer cancellation, not before the due time, its answer on record. */
  predicate TimerSent(sent: seq<Call>, id: string, reference: string, row: Row) {
    && |sent| == 1 && sent[0].TimerCall? && sent[0].id == id && sent[0].reference == reference
    && row.state == Submitted && row.reference == Some(reference)
    && row.cancelDue.Some? && sent[0].at >= row.cancelDue.value && TimerRecorded(row.cancelState, sent[0].wire)
  }

  /** Exactly one order entry, and the row its answer calls for; a timed order is cancelled in its time. */
  predicate OrderRecorded(c: Command, sent: seq<Call>, row: Row)
    requires c.TradingCommand?
  {
    && sent != [] && sent[0].EntryCall? && sent[0].id == c.id && row.digest == FingerprintOf(c)
    && (row.cancelDue.Some? <==> c.orderType == FokOrder)
    && var wire := sent[0].wire;
       if !Usable(wire) then
         && |sent| == 1 && row.state == (if Refuses(wire) then Rejected else Unknown)
         && row.reference == None && row.cancelState == None
       else if c.orderType == FokOrder then TimerSent(sent[1..], c.id, wire.reference.value, row)
       else |sent| == 1 && row.state == Submitted && row.reference == wire.reference && row.cancelState == None
  }

  /** The calls are cancellations of the first references of the list, one each, in order. */
  predicate InOrder(sent: seq<Call>, id: string, references: seq<string>) {
    && |sent| <= |references|
    && forall k :: 0 <= k < |sent| ==> sent[k].CancelCall? && sent[k].id == id && sent[k].reference == references[k]
  }

  /** All are accepted, or all but the last, which decides the row. */
  predicate BatchRecorded(sent: seq<Call>, id: string, references: seq<string>, state: RowState) {
    && InOrder(sent, id, references) && sent != []
    && (forall k :: 0 <= k < |sent| - 1 ==> Accepts(sent[k].wire))
    && var last := sent[|sent| - 1].wire;
       && (Accepts(last) ==> |sent| == |references| && state == CancelRequested)
       && (Refuses(last) ==> state == Rejected)
       && (!Accepts(last) && !Refuses(last) ==> state == Unknown)
  }

  /** The row of a cancel command that selects these references. */
  predicate CancelRecorded(c: Command, references: seq<string>, sent: seq<Call>, row: Row) {
    && row == FreshRow(FingerprintOf(c)).(state := row.state)
    && if references == [] then sent == [] && row.state == NoAction
       else BatchRecorded(sent, c.id, references, row.state)
  }

  /** Nothing is sent for a command that cannot be prepared, and it is rejected. */
  predicate Unprepared(c: Command, sent: seq<Call>, row: Row) {
    sent == [] && row == FreshRow(FingerprintOf(c)).(state := Rejected)
  }

  /** A command that passed the gates. */
  predicate Performed(c: Command, around: Surroundings, sent: seq<Call>, row: Row) {
    if !around.ready then Unprepared(c, sent, row)
    else if c.CancelCommand? then
      if around.orders.None? || !CancelSelection.Accepts(c, around.orders.value) then Unprepared(c, sent, row)
      else CancelRecorded(c, References(c, around.orders.value), sent, row)
    else if !around.planned then Unprepared(c, sent, row)
    else OrderRecorded(c, sent, row)
  }

  /** A new command, by whether orders are enabled and whether an earlier row awaits reconciliation. */
  predicate Executed(c: Command, live: bool, unresolved: bool, around: Surroundings, sent: seq<Call>, row: Row) {
    if !live then sent == [] && row == FreshRow(FingerprintOf(c)).(state := Disabled)
    else if unresolved then sent == [] && row == FreshRow(FingerprintOf(c)).(state := Blocked)
    else Performed(c, around, sent, row)
  }
}
