/** What the row of a cancel command says about the cancellations it has sent, over every run. */
module CancelGuarantees {
  import opened Common
  import opened Commands
  import opened Journal
  import opened BrokerReply
  import opened CommandProtocol
  import opened CommandGuarantees
  import CancelSelection

  predicate Cancels(c: Call, id: string) {
    c.CancelCall? && c.id == id
  }

  /** The broker accepted the cancellation of this reference for this command and the rows it read. */
  ghost predicate CancelledFor(calls: seq<Call>, c: Command, read: seq<CancelSelection.OrderRow>, reference: string) {
    exists k :: 0 <= k < |calls| && Cancels(calls[k], c.id) && calls[k].request == c && calls[k].read == read
                && calls[k].reference == reference && Accepts(calls[k].wire)
  }

  /** It accepted the cancellation of every open order the command selects from those rows. */
  ghost predicate AllCancelled(calls: seq<Call>, c: Command, read: seq<CancelSelection.OrderRow>) {
    c.CancelCommand? && forall r :: r in References(c, read) ==> CancelledFor(calls, c, read, r)
  }

  ghost predicate Completed(calls: seq<Call>, id: string) {
    exists k :: 0 <= k < |calls| && Cancels(calls[k], id) && calls[k].request.id == id
                && AllCancelled(calls, calls[k].request, calls[k].read)
  }

  ghost predicate NoneRefused(calls: seq<Call>, id: string) {
    forall k :: 0 <= k < |calls| && Cancels(calls[k], id) ==> Accepts(calls[k].wire)
  }

  ghost predicate AllAnswered(calls: seq<Call>, id: string) {
    forall k :: 0 <= k < |calls| && Cancels(calls[k], id) ==> Accepts(calls[k].wire) || Refuses(calls[k].wire)
  }

  ghost predicate OneRefused(calls: seq<Call>, id: string) {
    exists k :: 0 <= k < |calls| && Cancels(calls[k], id) && Refuses(calls[k].wire)
  }

  ghost predicate NoneSent(calls: seq<Call>, id: string) {
    forall k :: 0 <= k < |calls| ==> !Cancels(calls[k], id)
  }

  /** What a state says of the cancellations sent under this ID. */
  ghost predicate StateTrue(state: RowState, calls: seq<Call>, id: string) {
    && (state == CancelRequested ==> NoneRefused(calls, id) && Completed(calls, id))
    && (state == Rejected ==> NoneSent(calls, id) || (AllAnswered(calls, id) && OneRefused(calls, id)))
  }

  /** What the phases between dispatch and record know about them. */
  ghost predicate PhaseTrue(w: World) {
    match w.phase
    case Cancelling(_, c, refs, next, read) =>
      && c.CancelCommand? && refs == References(c, read) && refs != [] && next <= |refs|
      && NoneRefused(w.calls, c.id) && forall i :: 0 <= i < next ==> CancelledFor(w.calls, c, read, refs[i])
    case CancelStopped(_, c, refused) =>
      refused ==> AllAnswered(w.calls, c.id) && OneRefused(w.calls, c.id)
    case _ => true
  }

  ghost predicate RowsTrue(w: World) {
    forall id :: id in w.rows ==> StateTrue(w.rows[id].state, w.calls, id)
  }

  // ---------------------------------------------------------------- preservation

  lemma StillCancelled(calls: seq<Call>, more: Call, c: Command, read: seq<CancelSelection.OrderRow>, reference: string)
    requires CancelledFor(calls, c, read, reference)
    ensures CancelledFor(calls + [more], c, read, reference)
  {
    var k :| 0 <= k < |calls| && Cancels(calls[k], c.id) && calls[k].request == c && calls[k].read == read
             && calls[k].reference == reference && Accepts(calls[k].wire);
    assert (calls + [more])[k] == calls[k];
  }

  /** A call for another command, or of another kind, leaves every state true. */
  lemma StateStaysTrue(state: RowState, calls: seq<Call>, more: Call, id: string)
    requires StateTrue(state, calls, id) && !Cancels(more, id)
    ensures StateTrue(state, calls + [more], id)
  {
    hide Accepts, Refuses, References;
    if state == CancelRequested {
      var k :| 0 <= k < |calls| && Cancels(calls[k], id) && calls[k].request.id == id
               && AllCancelled(calls, calls[k].request, calls[k].read);
      forall r | r in References(calls[k].request, calls[k].read)
        ensures CancelledFor(calls + [more], calls[k].request, calls[k].read, r)
      {
        StillCancelled(calls, more, calls[k].request, calls[k].read, r);
      }
      assert (calls + [more])[k] == calls[k];
    }
    if state == Rejected && !NoneSent(calls, id) {
      OneStaysRefused(calls, more, id);
    }
  }

  lemma OneStaysRefused(calls: seq<Call>, more: Call, id: string)
    requires OneRefused(calls, id)
    ensures OneRefused(calls + [more], id)
  {
    var k :| 0 <= k < |calls| && Cancels(calls[k], id) && Refuses(calls[k].wire);
    assert (calls + [more])[k] == calls[k];
  }

  lemma CallKeepsRows(w: World, a: Action)
    requires Inv(w) && IsCall(a) && EnabledCall(w, a) && RowsTrue(w)
    ensures RowsTrue(Apply(w, a))
  {
    hide StateTrue, CallsRecorded, CallsUnique, RowsSound, OneUnresolved, LogDecided, InterruptedKnown, Classify, Batch;
    forall id | id in w.rows
      ensures StateTrue(w.rows[id].state, w.calls + [CallOf(w, a)], id)
    {
      if Cancels(CallOf(w, a), id) {
        OpenStateIsTrue(w.rows[id].state, w.calls + [CallOf(w, a)], id);
      } else {
        StateStaysTrue(w.rows[id].state, w.calls, CallOf(w, a), id);
      }
    }
  }

  lemma OpenStateIsTrue(state: RowState, calls: seq<Call>, id: string)
    requires state != Rejected && state != CancelRequested
    ensures StateTrue(state, calls, id)
  {
  }

  lemma CallKeepsPhase(w: World, a: Action)
    requires IsCall(a) && EnabledCall(w, a) && PhaseTrue(w)
    ensures PhaseTrue(Apply(w, a))
  {
    hide Classify, Accepts, Refuses, References;
    if a.SendCancel? {
      var c, refs, next, read := w.phase.command, w.phase.references, w.phase.next, w.phase.read;
      var more, after := CallOf(w, a), w.calls + [CallOf(w, a)];
      ClassifyMeans(a.wire);
      assert after[|w.calls|] == more;
      forall i | 0 <= i < next
        ensures CancelledFor(after, c, read, refs[i])
      {
        StillCancelled(w.calls, more, c, read, refs[i]);
      }
    }
  }

  lemma QuietKeepsTruth(w: World, a: Action)
    requires IsQuiet(a) && EnabledQuiet(w, a) && RowsTrue(w) && PhaseTrue(w)
    ensures RowsTrue(Apply(w, a)) && PhaseTrue(Apply(w, a))
  {
    hide StateTrue, NoneRefused, AllAnswered, OneRefused, CancelledFor, References;
    QuietFrame(w, a);
  }

  /** No cancellation was sent for the row of an order, nor for one that is only received. */
  lemma OrderRowsSentNone(w: World, id: string)
    requires Inv(w) && id in w.rows && (w.rows[id].digest.OrderPrint? || w.rows[id].state == Received)
    ensures NoneSent(w.calls, id)
  {
    hide CallsUnique, RowsSound, OneUnresolved, LogDecided, InterruptedKnown, PhaseSound, Covers, Classify;
    forall k | 0 <= k < |w.calls|
      ensures !Cancels(w.calls[k], id)
    {
      assert CallRecorded(w, w.calls[k]);
    }
  }

  lemma AnsweredIsOrder(w: World)
    requires Inv(w) && w.phase.Answered?
    ensures w.phase.command.id in w.rows && w.rows[w.phase.command.id].digest.OrderPrint?
  {
    hide CallsUnique, RowsSound, OneUnresolved, LogDecided, InterruptedKnown, Covers, Classify;
    assert CallRecorded(w, w.calls[|w.calls| - 1]);
  }

  /** What a write makes of a row is true of the cancellations sent so far. */
  lemma WrittenStateIsTrue(w: World, a: Action)
    requires Inv(w) && IsWrite(a) && EnabledWrite(w, a) && RowsTrue(w) && PhaseTrue(w)
    ensures StateTrue(WriteOf(w, a).row.state, w.calls, WriteOf(w, a).id)
  {
    var id, state := WriteOf(w, a).id, WriteOf(w, a).row.state;
    if state != Rejected && state != CancelRequested {
      OpenStateIsTrue(state, w.calls, id);
    } else if a.RecordRejected? {
      AnsweredIsOrder(w);
      OrderRowsSentNone(w, id);
    } else if a.RecordCancels? {
      RecordedBatchIsTrue(w);
    } else {
      InterruptedIsTrue(w, a);
    }
  }

  lemma RecordedBatchIsTrue(w: World)
    requires Inv(w) && EnabledWrite(w, RecordCancels) && PhaseTrue(w)
    ensures StateTrue(WriteOf(w, RecordCancels).row.state, w.calls, WriteOf(w, RecordCancels).id)
  {
    hide Inv, References, Accepts, Refuses;
    if w.phase.Cancelling? {
      var c, refs, read := w.phase.command, w.phase.references, w.phase.read;
      forall r | r in References(c, read)
        ensures CancelledFor(w.calls, c, read, r)
      {
        var i :| 0 <= i < |refs| && refs[i] == r;
      }
      assert CancelledFor(w.calls, c, read, refs[0]);
      var k :| 0 <= k < |w.calls| && Cancels(w.calls[k], c.id) && w.calls[k].request == c && w.calls[k].read == read
               && w.calls[k].reference == refs[0] && Accepts(w.calls[k].wire);
      assert AllCancelled(w.calls, w.calls[k].request, w.calls[k].read);
    }
  }

  lemma InterruptedIsTrue(w: World, a: Action)
    requires Inv(w) && a == Interrupt && EnabledWrite(w, a) && RowsTrue(w)
    requires WriteOf(w, a).row.state == Rejected
    ensures StateTrue(Rejected, w.calls, WriteOf(w, a).id)
  {
    hide CallsUnique, CallsRecorded, OneUnresolved, LogDecided, InterruptedKnown, Classify, Batch, StateTrue, NoneSent;
    var id := WriteOf(w, a).id;
    assert RowSound(w, id);
    if w.rows[id].state == Received {
      OrderRowsSentNone(w, id);
      SentNothingIsTrue(w.calls, id);
    }
  }

  lemma SentNothingIsTrue(calls: seq<Call>, id: string)
    requires NoneSent(calls, id)
    ensures StateTrue(Rejected, calls, id)
  {
  }

  lemma WriteKeepsPhase(w: World, a: Action)
    requires Inv(w) && IsWrite(a) && EnabledWrite(w, a)
    ensures PhaseTrue(ApplyWrite(w, WriteOf(w, a)))
  {
    hide CallsUnique, RowsSound, OneUnresolved, LogDecided, InterruptedKnown, References, Accepts, Refuses, Classify;
    if a.DispatchCancels? {
      OrderRowsSentNone(w, w.phase.command.id);
    }
  }

  lemma TruthStep(w: World, a: Action)
    requires Inv(w) && Enabled(w, a) && RowsTrue(w) && PhaseTrue(w)
    ensures RowsTrue(Apply(w, a)) && PhaseTrue(Apply(w, a))
  {
    hide Inv, StateTrue, PhaseTrue, EnabledWrite, EnabledCall, EnabledQuiet, WriteOf;
    if IsWrite(a) {
      WrittenStateIsTrue(w, a);
      WriteKeepsPhase(w, a);
    } else if IsCall(a) {
      CallKeepsRows(w, a);
      CallKeepsPhase(w, a);
    } else {
      QuietKeepsTruth(w, a);
    }
  }

  lemma {:induction false} TruthRun(w: World, run: seq<Action>)
    requires Init(w) && Legal(w, run)
    ensures RowsTrue(After(w, run)) && PhaseTrue(After(w, run))
    decreases |run|
  {
    hide Inv, RowsTrue, PhaseTrue, Enabled, Apply, Init;
    if run == [] {
      InitTrue(w);
    } else {
      TruthRun(w, run[..|run| - 1]);
      Reachable(w, run[..|run| - 1]);
      TruthStep(After(w, run[..|run| - 1]), run[|run| - 1]);
    }
  }

  lemma InitTrue(w: World)
    requires Init(w)
    ensures RowsTrue(w) && PhaseTrue(w)
  {
  }

  // ---------------------------------------------------------------- the result

  /**
   The row of a cancel command tells the truth in every reachable state. Recorded as requested,
   the broker has accepted the cancellation of every open order the command selected, and refused
   none; recorded as rejected after a cancellation was sent, one was refused and every other
   answered; and where an answer is open, or a refusal not yet recorded, the row is unresolved.
   */
  lemma CancelRowsTellTheTruth(w: World, run: seq<Action>, id: string, k: nat)
    requires Init(w) && Legal(w, run) && id in After(w, run).rows
    requires k < |After(w, run).calls| && Cancels(After(w, run).calls[k], id)
    ensures var end, state, wire := After(w, run), After(w, run).rows[id].state, After(w, run).calls[k].wire;
      && state in {Dispatching, Unknown, Rejected, CancelRequested}
      && (state == CancelRequested ==> Accepts(wire) && Completed(end.calls, id))
      && (state == Rejected ==> OneRefused(end.calls, id) && (Accepts(wire) || Refuses(wire)))
      && (!Accepts(wire) && !Refuses(wire) ==> state in {Dispatching, Unknown})
      && (Refuses(wire) ==> state in {Dispatching, Unknown, Rejected})
  {
    hide Legal, Accepts, Refuses, Completed, CallsUnique, LogDecided, OneUnresolved, PhaseSound, RowsSound, Covers;
    TruthRun(w, run);
    Reachable(w, run);
    var end := After(w, run);
    assert CallRecorded(end, end.calls[k]);
    NotBoth(end.calls[k].wire);
  }

  lemma NotBoth(wire: Wire)
    ensures !(Accepts(wire) && Refuses(wire))
  {
  }

  /** Nothing is recorded as requested unless something was sent and accepted. */
  lemma RequestedMeansAllCancelled(w: World, run: seq<Action>, id: string)
    requires Init(w) && Legal(w, run) && id in After(w, run).rows
    requires After(w, run).rows[id].state == CancelRequested
    ensures Completed(After(w, run).calls, id) && NoneRefused(After(w, run).calls, id)
  {
    hide Legal, Completed, NoneRefused;
    TruthRun(w, run);
  }
}
