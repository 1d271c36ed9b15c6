/** What the command protocol guarantees over every run, with crashes between any two steps. */
module CommandGuarantees {
  import opened Common
  import opened Commands
  import opened Journal
  import opened BrokerReply
  import opened CommandProtocol
  import CancelSelection

  lemma Reachable(w: World, run: seq<Action>)
    requires Init(w) && Legal(w, run)
    ensures Inv(After(w, run))
  {
    InvRun(w, run);
  }

  function EntryCount(calls: seq<Call>, id: string): nat {
    if calls == [] then 0
    else
      var last := calls[|calls| - 1];
      EntryCount(calls[..|calls| - 1], id) + if last.EntryCall? && last.id == id then 1 else 0
  }

  function TimerCount(calls: seq<Call>, id: string): nat {
    if calls == [] then 0
    else
      var last := calls[|calls| - 1];
      TimerCount(calls[..|calls| - 1], id) + if last.TimerCall? && last.id == id then 1 else 0
  }

  predicate UniqueCalls(calls: seq<Call>) {
    forall i, k :: 0 <= i < k < |calls| ==> !Repeats(calls[i], calls[k])
  }

  lemma {:induction false} CountEntries(calls: seq<Call>, id: string)
    requires UniqueCalls(calls)
    ensures EntryCount(calls, id) <= 1
    ensures EntryCount(calls, id) == 1 ==> exists k :: 0 <= k < |calls| && calls[k].EntryCall? && calls[k].id == id
  {
    if calls != [] {
      CountEntries(calls[..|calls| - 1], id);
    }
  }

  lemma {:induction false} CountTimers(calls: seq<Call>, id: string)
    requires UniqueCalls(calls)
    ensures TimerCount(calls, id) <= 1
    ensures TimerCount(calls, id) == 1 ==> exists k :: 0 <= k < |calls| && calls[k].TimerCall? && calls[k].id == id
  {
    if calls != [] {
      CountTimers(calls[..|calls| - 1], id);
    }
  }

  /**
   Over every run of deliveries, redeliveries, crashes and restarts a command ID causes at
   most one order-entry call, and only a journaled command causes any call.
   */
  lemma AtMostOneOrderEntry(w: World, run: seq<Action>, id: string)
    requires Init(w) && Legal(w, run)
    ensures EntryCount(After(w, run).calls, id) <= 1
    ensures id !in After(w, run).rows ==> forall k :: 0 <= k < |After(w, run).calls| ==> After(w, run).calls[k].id != id
  {
    Reachable(w, run);
    CountEntries(After(w, run).calls, id);
    var end := After(w, run);
    forall k | 0 <= k < |end.calls|
      ensures end.calls[k].id in end.rows
    {
      assert CallRecorded(end, end.calls[k]);
    }
  }

  // ---------------------------------------------------------------- committed offsets

  ghost predicate AllDecided(w: World, from: nat, to: nat) {
    forall offset :: from <= offset < to ==> Decided(w, offset)
  }

  /** Every offset between where the reading began and the committed one has its outcome. */
  lemma CommittedOffsetsAreDecided(w: World, run: seq<Action>)
    requires Init(w) && Legal(w, run)
    ensures AllDecided(After(w, run), After(w, run).start, After(w, run).committed)
  {
    hide Legal, Decided, CallsRecorded, CallsUnique, RowsSound, OneUnresolved, PhaseSound, InterruptedKnown;
    Reachable(w, run);
  }

  /** A commit passes exactly the record in hand, and only with its outcome. */
  lemma CommitPassesADecidedRecord(w: World, run: seq<Action>)
    requires Init(w) && Legal(w, run) && Enabled(After(w, run), Commit)
    ensures var end := After(w, run);
      Decided(end, end.committed) && Apply(end, Commit).committed == end.committed + 1
  {
    hide Legal, Decided, CallsRecorded, CallsUnique, RowsSound, OneUnresolved, InterruptedKnown;
    Reachable(w, run);
  }

  /** Between records a row is left open only by a crash that cut its execution short. */
  lemma OpenRowsWereInterrupted(w: World, run: seq<Action>, id: string)
    requires Init(w) && Legal(w, run) && CurrentId(After(w, run).phase).None?
    requires id in After(w, run).rows && After(w, run).rows[id].state in {Received, Dispatching}
    ensures id in After(w, run).interrupted
  {
    hide Legal, CallsRecorded, CallsUnique, LogDecided, OneUnresolved, PhaseSound, InterruptedKnown;
    Reachable(w, run);
    assert RowSound(After(w, run), id);
  }

  lemma InitInv(w: World)
    requires Init(w)
    ensures Inv(w)
  {
  }

  lemma StartStep(w: World, a: Action)
    requires Inv(w) && Enabled(w, a)
    ensures w.start <= Apply(w, a).start
    ensures w.anchored ==> Apply(w, a).anchored && Apply(w, a).start == w.start
  {
    hide CallsRecorded, CallsUnique, RowsSound, OneUnresolved, PhaseSound, InterruptedKnown;
    hide WriteOf, CallOf, PhaseAfterCall;
  }

  /** Once the group has committed, no process moves the beginning of the reading again. */
  lemma {:induction false} StartIsFinal(w: World, run: seq<Action>)
    requires Inv(w) && Legal(w, run)
    ensures w.start <= After(w, run).start
    ensures w.anchored ==> After(w, run).anchored && After(w, run).start == w.start
    decreases |run|
  {
    hide Inv, Enabled, Apply;
    if run != [] {
      StartIsFinal(w, run[..|run| - 1]);
      InvRun(w, run[..|run| - 1]);
      StartStep(After(w, run[..|run| - 1]), run[|run| - 1]);
    }
  }

  /**
   No record is skipped if the group had a committed offset to begin with. Otherwise every lower
   offset is decided exactly when those that restarts before the first commit passed over are.
   */
  lemma NoRecordIsSkipped(w: World, run: seq<Action>)
    requires Init(w) && Legal(w, run)
    ensures var end := After(w, run);
      && (AllDecided(end, w.start, end.committed) <==> AllDecided(end, w.start, end.start))
      && (w.anchored ==> AllDecided(end, w.start, end.committed))
  {
    hide Legal, Decided, CallsRecorded, CallsUnique, RowsSound, OneUnresolved, PhaseSound, InterruptedKnown;
    CommittedOffsetsAreDecided(w, run);
    Reachable(w, run);
    InitInv(w);
    StartIsFinal(w, run);
  }

  /**
   What a process that finds no committed offset loses: it resumes at the end of the log, and
   skips nothing exactly when every record from the old position on already has its outcome.
   */
  lemma SeekSkipsExactlyTheUndecided(w: World)
    requires Inv(w) && Enabled(w, Seek)
    ensures Apply(w, Seek).start == Apply(w, Seek).committed == |w.log|
    ensures AllDecided(Apply(w, Seek), w.start, |w.log|) <==> AllDecided(w, w.committed, |w.log|)
  {
    hide CallsRecorded, CallsUnique, RowsSound, OneUnresolved, PhaseSound, InterruptedKnown;
    var next := Apply(w, Seek);
    forall offset
      ensures Decided(next, offset) <==> Decided(w, offset)
    {
    }
  }

  /** A process starts, finds nothing to recover and no committed offset, and positions itself. */
  lemma ProcessStarts(w: World, run: seq<Action>) returns (longer: seq<Action>)
    requires Legal(w, run)
    requires var end := After(w, run); end.phase == Down && end.rows == map[] && !end.anchored
    ensures Legal(w, longer)
    ensures var end := After(w, run);
      After(w, longer) ==
        end.(live := true, phase := Idle, start := |end.log|, committed := |end.log|, positioned := true)
  {
    hide Legal, After;
    var end := After(w, run);
    assert PendingIds(end.rows) == {};
    var up := end.(live := true, phase := Recovering([]), positioned := false);
    longer := Then(w, run, Restart(true, []));
    assert After(w, longer) == up;
    longer := Then(w, longer, RecoverDone);
    longer := Then(w, longer, Seek);
  }

  /** One possible quiet step, as a longer run. */
  lemma Then(w: World, run: seq<Action>, a: Action) returns (longer: seq<Action>)
    requires Legal(w, run) && IsQuiet(a) && EnabledQuiet(After(w, run), a)
    ensures longer == run + [a] && Legal(w, longer) && After(w, longer) == ApplyQuiet(After(w, run), a)
  {
    hide Legal, After, ApplyQuiet, EnabledQuiet;
    RunExtends(w, run, a, ApplyQuiet(After(w, run), a));
    longer := run + [a];
  }

  /**
   Such a loss is reachable: the first process dies holding the first record, the second
   resumes after it, and commits past it.
   */
  lemma FirstRecordCanBeSkipped(c: Command) returns (w: World, run: seq<Action>)
    ensures Init(w) && Legal(w, run) && !w.anchored && w.start == 0
    ensures var end := After(w, run);
      end.committed == 2 && end.anchored && end.log == [Parsed(c), Foreign] && !Decided(end, 0)
  {
    hide Legal, After;
    w, run := FirstRecordIsPolled(c);
    run := Then(w, run, Crash);
    run := ProcessStarts(w, run);
    run := Then(w, run, Append(Foreign));
    run := PollAndDrop(w, run);
    run := Then(w, run, Commit);
  }

  lemma FirstRecordIsPolled(c: Command) returns (w: World, run: seq<Action>)
    ensures Init(w) && Legal(w, run) && !w.anchored && w.start == 0
    ensures After(w, run) == World(0, 0, true, 0, [Parsed(c)], 0, false, true, map[], [], Handling(0), {}, {})
  {
    hide Legal, After;
    w := World(0, 0, false, 0, [], 0, false, false, map[], [], Down, {}, {});
    run := [];
    EmptyRun(w);
    run := ProcessStarts(w, run);
    run := Then(w, run, Append(Parsed(c)));
    run := Then(w, run, Poll);
  }

  lemma PollAndDrop(w: World, run: seq<Action>) returns (longer: seq<Action>)
    requires Legal(w, run)
    requires var end := After(w, run); end.phase == Idle && end.positioned && end.committed < |end.log|
    ensures Legal(w, longer)
    ensures var end := After(w, run);
      After(w, longer) == end.(phase := ToCommit(end.committed), dropped := end.dropped + {end.committed})
  {
    hide Legal, After;
    longer := Then(w, run, Poll);
    longer := Then(w, longer, Drop);
  }

  lemma EmptyRun(w: World)
    ensures Legal(w, []) && After(w, []) == w
  {
  }

  // ---------------------------------------------------------------- the truth about the broker

  /** What a row may say in view of one call made about its command. */
  predicate TrueOf(row: Row, c: Call) {
    && row.state !in {Received, Disabled, Blocked, NoAction}
    && (c.EntryCall? && row.state == Rejected ==> Refuses(c.wire) && !c.acted)
    && (c.EntryCall? && row.state == Submitted ==>
          Accepts(c.wire) && c.acted && row.reference.Some? && Names(c.wire, row.reference.value))
    && (c.EntryCall? && c.acted ==> row.state in {Dispatching, Unknown, Submitted})
    && (c.EntryCall? && !Accepts(c.wire) && !Refuses(c.wire) ==> row.state in {Dispatching, Unknown})
  }

  /** An entry of this ID was accepted under this reference. */
  ghost predicate AcceptedAs(calls: seq<Call>, id: string, reference: string) {
    exists k :: 0 <= k < |calls| && calls[k].EntryCall? && calls[k].id == id && Names(calls[k].wire, reference)
  }

  lemma AckedIsAccepted(calls: seq<Call>, id: string, reference: string)
    requires Acked(calls, id, Some(reference))
    ensures AcceptedAs(calls, id, reference)
  {
    var k :| 0 <= k < |calls| && Acks(calls[k], id, Some(reference));
    ClassifyMeans(calls[k].wire);
  }

  lemma RecordedIsTrue(w: World, c: Call)
    requires CallRecorded(w, c) && RowSound(w, c.id)
    ensures TrueOf(w.rows[c.id], c)
  {
    hide Classify, Covers, Refuses, Accepts, Names;
    if c.EntryCall? {
      ClassifyMeans(c.wire);
      var row := w.rows[c.id];
      assert row.state == Submitted ==> Classify(c.wire) == Acknowledged(row.reference.value);
    }
  }

  /**
   The journal tells the truth about the broker in every reachable state. A submitted row holds
   the reference of an acceptance; and for every call made about its command, a row never
   dispatched saw none, a rejected order was refused and not acted on, and wherever the broker
   acted, or nobody knows whether it did, the row says so.
   */
  lemma JournalTellsTheTruth(w: World, run: seq<Action>, id: string, k: nat)
    requires Init(w) && Legal(w, run) && id in After(w, run).rows
    ensures var end, row := After(w, run), After(w, run).rows[id];
      && (row.state == Submitted ==> row.reference.Some? && AcceptedAs(end.calls, id, row.reference.value))
      && (k < |end.calls| && end.calls[k].id == id ==> TrueOf(row, end.calls[k]))
  {
    hide Legal, CallsUnique, LogDecided, OneUnresolved, PhaseSound, InterruptedKnown, CallRecorded, TrueOf, Covers;
    Reachable(w, run);
    var end := After(w, run);
    assert RowSound(end, id);
    if end.rows[id].state == Submitted {
      AckedIsAccepted(end.calls, id, end.rows[id].reference.value);
    }
    if k < |end.calls| && end.calls[k].id == id {
      assert CallRecorded(end, end.calls[k]);
      RecordedIsTrue(end, end.calls[k]);
    }
  }

  /** The row as the outer handler would write it. */
  function HandledRow(row: Row): Row {
    UpdatedRow(row, OuterState(row.state), None, None, None)
  }

  /**
   If reporting "unknown" could raise, the outer handler would write over it. What that row then
   says of the order's entry is true exactly if the broker had refused it.
   */
  lemma RaisingReportWouldLoseTheTruth(w: World, run: seq<Action>, id: string, k: nat)
    requires Init(w) && Legal(w, run) && id in After(w, run).rows && After(w, run).rows[id].state == Unknown
    requires var calls := After(w, run).calls; k < |calls| && calls[k].EntryCall? && calls[k].id == id
    ensures var end := After(w, run);
      && TrueOf(end.rows[id], end.calls[k])
      && (TrueOf(HandledRow(end.rows[id]), end.calls[k]) <==> Refuses(end.calls[k].wire))
  {
    hide Legal, CallsUnique, LogDecided, OneUnresolved, PhaseSound, InterruptedKnown, RowsSound, Classify, Refuses;
    Reachable(w, run);
    assert CallRecorded(After(w, run), After(w, run).calls[k]);
    JournalTellsTheTruth(w, run, id, k);
  }

  lemma WriteThen(w: World, run: seq<Action>, a: Action) returns (longer: seq<Action>)
    requires Legal(w, run) && IsWrite(a) && EnabledWrite(After(w, run), a)
    ensures longer == run + [a] && Legal(w, longer)
    ensures After(w, longer) == ApplyWrite(After(w, run), WriteOf(After(w, run), a))
  {
    hide Legal, After, ApplyWrite, EnabledWrite, WriteOf;
    RunExtends(w, run, a, ApplyWrite(After(w, run), WriteOf(After(w, run), a)));
    longer := run + [a];
  }

  /** Up to a dispatched order, from an empty journal. */
  lemma OrderIsDispatched(c: Command) returns (w: World, run: seq<Action>)
    requires c.TradingCommand?
    ensures Init(w) && Legal(w, run)
    ensures var end := After(w, run);
      && end.phase == Dispatched(0, c) && end.calls == [] && end.rows.Keys == {c.id}
      && end.rows[c.id].state == Dispatching
  {
    hide Legal, After;
    w, run := FirstRecordIsPolled(c);
    run := WriteThen(w, run, Claim);
    assert UnresolvedIds(After(w, run).rows) == {};
    run := Then(w, run, Proceed);
    run := WriteThen(w, run, Dispatch);
  }

  /** A reachable state in which it would: the broker took the order, its answer was lost. */
  lemma LostTruthIsReachable(c: Command) returns (w: World, run: seq<Action>)
    requires c.TradingCommand?
    ensures Init(w) && Legal(w, run)
    ensures var end := After(w, run);
      && end.calls == [EntryCall(c.id, NoReply, true)] && c.id in end.rows && end.rows[c.id].state == Unknown
      && TrueOf(end.rows[c.id], end.calls[0]) && !TrueOf(HandledRow(end.rows[c.id]), end.calls[0])
  {
    hide Legal, After;
    w, run := OrderIsDispatched(c);
    var before := After(w, run);
    var entered := before.(calls := [EntryCall(c.id, NoReply, true)], phase := Answered(0, c, Uncertain));
    RunExtends(w, run, Enter(NoReply, true), entered);
    run := run + [Enter(NoReply, true)];
    assert After(w, run) == entered;
    run := WriteThen(w, run, RecordUnknown);
  }

  // ---------------------------------------------------------------- batch cancellations

  /** Every open order a cancel command names among the rows it read. */
  ghost predicate NamesOpenOrder(request: Command, read: seq<CancelSelection.OrderRow>, reference: string)
    requires request.CancelCommand?
  {
    exists row :: row in read && row.us && CancelSelection.Open(row) && row.reference == CancelSelection.Text(reference)
                  && (request.cancelAll || request.orderReference == Some(reference))
  }

  lemma CoveredNamesOpenOrder(request: Command, read: seq<CancelSelection.OrderRow>, reference: string)
    requires Covers(request, read, reference)
    ensures NamesOpenOrder(request, read, reference)
  {
    CancelSelection.CancelsExactlyTheOpenOrders(request, read);
    assert reference in CancelSelection.OpenReferences(CancelSelection.Selected(request, read));
    var row :| row in read && row.us && CancelSelection.Open(row) && row.reference == CancelSelection.Text(reference)
               && (request.cancelAll || request.orderReference == Some(reference));
  }

  /**
   Over every run a cancel command cancels only open orders that it selects from the rows it
   read, and sends each of them at most one cancellation, across crashes and redeliveries.
   */
  lemma CancelsSelectedOrdersOnce(w: World, run: seq<Action>, j: nat, k: nat)
    requires Init(w) && Legal(w, run) && j < k < |After(w, run).calls| && After(w, run).calls[k].CancelCall?
    ensures var c, b := After(w, run).calls[k], After(w, run).calls[j];
      && c.id in After(w, run).rows && c.request.CancelCommand? && c.request.id == c.id
      && After(w, run).rows[c.id].digest == FingerprintOf(c.request)
      && NamesOpenOrder(c.request, c.read, c.reference)
      && (b.CancelCall? && b.id == c.id ==> b.reference != c.reference)
  {
    hide Legal, LogDecided, OneUnresolved, PhaseSound, InterruptedKnown, RowsSound, Classify, Covers, NamesOpenOrder;
    Reachable(w, run);
    var end := After(w, run);
    assert CallRecorded(end, end.calls[k]) && !Repeats(end.calls[j], end.calls[k]);
    assert end.calls[k].request.CancelCommand? by {
      assert Covers(end.calls[k].request, end.calls[k].read, end.calls[k].reference);
      CoveredIsCancel(end.calls[k].request, end.calls[k].read, end.calls[k].reference);
    }
    CoveredNamesOpenOrder(end.calls[k].request, end.calls[k].read, end.calls[k].reference);
  }

  lemma CoveredIsCancel(request: Command, read: seq<CancelSelection.OrderRow>, reference: string)
    requires Covers(request, read, reference)
    ensures request.CancelCommand?
  {
  }

  // ---------------------------------------------------------------- timer cancellations

  /** The only moves a cancellation state makes in one step. */
  predicate CancelMoves(before: Option<CancelState>, after: Option<CancelState>) {
    || before == after
    || (before == None && after == Some(Pending))
    || (before == Some(Pending) && after == Some(CancelDispatching))
    || (before == Some(CancelDispatching) && (CancelSettled(after) || after == Some(CancelUnknown)))
  }

  function CancelRank(s: Option<CancelState>): nat {
    match s
    case None => 0
    case Some(Pending) => 1
    case Some(CancelDispatching) => 2
    case Some(_) => 3
  }

  /** Any number of such moves: forward only, and a final state is final. */
  predicate CancelProgress(before: Option<CancelState>, after: Option<CancelState>) {
    CancelRank(before) <= CancelRank(after) && (CancelRank(before) == CancelRank(after) ==> before == after)
  }

  /** What no step takes back from a row. */
  predicate RowProgress(before: Row, after: Row) {
    && after.digest == before.digest
    && (before.reference.Some? ==> after.reference == before.reference)
    && (before.cancelDue.Some? ==> after.cancelDue == before.cancelDue)
    && CancelProgress(before.cancelState, after.cancelState)
  }

  lemma RowStep(w: World, a: Action, id: string)
    requires Inv(w) && Enabled(w, a) && id in w.rows
    ensures id in Apply(w, a).rows && RowProgress(w.rows[id], Apply(w, a).rows[id])
    ensures CancelMoves(w.rows[id].cancelState, Apply(w, a).rows[id].cancelState)
  {
    if IsWrite(a) {
      if WriteOf(w, a).id == id { WrittenRowStep(w, a); }
    } else if IsQuiet(a) {
      QuietFrame(w, a);
    }
  }

  lemma WrittenRowStep(w: World, a: Action)
    requires Inv(w) && IsWrite(a) && EnabledWrite(w, a)
    ensures var write := WriteOf(w, a); write.id in w.rows ==>
      RowProgress(w.rows[write.id], write.row) && CancelMoves(w.rows[write.id].cancelState, write.row.cancelState)
  {
    var id := WriteOf(w, a).id;
    if id in w.rows { assert RowSound(w, id); }
    WritePhases(w, a);
    if BeforeDispatch(w.phase) {
      EarlyWriteRow(w, a);
    } else if w.phase.Cancelling? || w.phase.CancelStopped? || w.phase.Reporting? {
      LateWriteRow(w, a);
    }
  }

  /** A row's digest, reference and due time never change; its cancel state only moves forward. */
  lemma {:induction false} RowsOnlyMoveForward(w: World, run: seq<Action>, id: string)
    requires Inv(w) && Legal(w, run) && id in w.rows
    ensures id in After(w, run).rows && RowProgress(w.rows[id], After(w, run).rows[id])
    decreases |run|
  {
    if run != [] {
      RowsOnlyMoveForward(w, run[..|run| - 1], id);
      InvRun(w, run[..|run| - 1]);
      RowStep(After(w, run[..|run| - 1]), run[|run| - 1], id);
    }
  }

  /** The order's own row makes this timer call legitimate. */
  predicate TimelyTimer(rows: Rows, c: Call)
    requires c.TimerCall?
  {
    && c.id in rows && TimedPrint(rows[c.id].digest)
    && rows[c.id].cancelDue.Some? && c.at >= rows[c.id].cancelDue.value && rows[c.id].reference == Some(c.reference)
  }

  /**
   A timed order is cancelled by its timer at most once over all restarts, never before its
   journaled due time, and through the reference the broker acknowledged.
   */
  lemma TimerCancelsOnce(w: World, run: seq<Action>, id: string, k: nat)
    requires Init(w) && Legal(w, run)
    ensures TimerCount(After(w, run).calls, id) <= 1
    ensures var end := After(w, run);
      k < |end.calls| && end.calls[k].TimerCall? ==> TimelyTimer(end.rows, end.calls[k])
  {
    Reachable(w, run);
    var end := After(w, run);
    CountTimers(end.calls, id);
    if k < |end.calls| && end.calls[k].TimerCall? {
      assert CallRecorded(end, end.calls[k]);
      assert RowSound(end, end.calls[k].id);
    }
  }

  /** The timed order with this ID is settled, or one of the journal's two open lists has it. */
  predicate SettledOrListed(rows: Rows, id: string) {
    && id in rows
    && (|| !TimedPrint(rows[id].digest)
        || CancelSettled(rows[id].cancelState)
        || id in PendingIds(rows)
        || id in UnresolvedIds(rows))
  }

  lemma AckedOrderListed(w: World, c: Call)
    requires CallRecorded(w, c) && c.EntryCall? && Accepts(c.wire) && RowSound(w, c.id)
    ensures SettledOrListed(w.rows, c.id)
  {
    hide Classify, Accepts, Refuses;
    ClassifyMeans(c.wire);
    var row := w.rows[c.id];
    if row.state == Submitted {
      if TimedPrint(row.digest) && !CancelSettled(row.cancelState) {
        match row.cancelState.value {
          case Pending =>
          case CancelDispatching =>
          case CancelUnknown =>
          case _ => assert false;
        }
        assert c.id in PendingIds(w.rows);
      }
    } else {
      assert IsUnresolved(row);
      assert c.id in UnresolvedIds(w.rows);
    }
  }

  /**
   An acknowledged timed order whose cancellation is not known to be requested or rejected is
   still reported by `pending_cancellations` or `unresolved`.
   */
  lemma OpenTimersAreListed(w: World, run: seq<Action>, c: Call)
    requires Init(w) && Legal(w, run)
    requires c in After(w, run).calls && c.EntryCall? && Accepts(c.wire)
    ensures SettledOrListed(After(w, run).rows, c.id)
  {
    Reachable(w, run);
    var end := After(w, run);
    assert CallRecorded(end, c) && RowSound(end, c.id);
    AckedOrderListed(end, c);
  }

  /** A timer cancellation of this ID was accepted, or refused. */
  ghost predicate TimerAnsweredAs(calls: seq<Call>, id: string, outcome: CancelState) {
    exists k :: 0 <= k < |calls| && calls[k].TimerCall? && calls[k].id == id
                && if outcome == Requested then Accepts(calls[k].wire) else Refuses(calls[k].wire)
  }

  /** A cancellation recorded as requested or rejected was answered that way by the broker. */
  lemma TimerOutcomesAreReplies(w: World, run: seq<Action>, id: string)
    requires Init(w) && Legal(w, run) && id in After(w, run).rows
    requires CancelSettled(After(w, run).rows[id].cancelState)
    ensures TimerAnsweredAs(After(w, run).calls, id, After(w, run).rows[id].cancelState.value)
  {
    hide Legal, CallsUnique, LogDecided, OneUnresolved, PhaseSound, InterruptedKnown, CallsRecorded;
    hide Classify, Accepts, Refuses;
    Reachable(w, run);
    assert RowSound(After(w, run), id);
    var calls, outcome := After(w, run).calls, After(w, run).rows[id].cancelState.value;
    var k :| 0 <= k < |calls| && TimerResult(calls[k], id, outcome);
    ClassifyMeans(calls[k].wire);
  }

  // ---------------------------------------------------------------- waiting at start-up

  datatype Wait = Ready | Sleep(delay: nat) | NegativeSleep

  /** The wait of start-up recovery, whose test and whose delay read the clock one after the other. */
  function RecoveryWait(due: int, first: int, second: int): Wait {
    if due <= first then Ready else if due < second then NegativeSleep else Sleep(due - second)
  }

  /**
   A clock that passes the due time between its two readings, and no other, makes the sleep
   negative. The process then dies as by a crash: no cancellation was sent, and the next start
   lists the row as pending again.
   */
  lemma NegativeSleepLosesNothing(w: World, run: seq<Action>, first: int, second: int)
    requires Init(w) && Legal(w, run) && After(w, run).phase.TimerWait? && After(w, run).phase.owner.Recovery?
    ensures var end := After(w, run); var id := end.phase.id;
      && id in end.rows && end.rows[id].cancelDue.Some?
      && (RecoveryWait(end.rows[id].cancelDue.value, first, second) == NegativeSleep <==>
          first < end.rows[id].cancelDue.value < second)
      && Apply(end, Crash).calls == end.calls && NoTimerYet(end.calls, id) && id in PendingIds(Apply(end, Crash).rows)
  {
    hide Legal, LogDecided, OneUnresolved, InterruptedKnown, Classify, CallsUnique;
    Reachable(w, run);
    var end := After(w, run);
    forall k | 0 <= k < |end.calls| && end.calls[k].TimerCall?
      ensures end.calls[k].id != end.phase.id
    {
      assert CallRecorded(end, end.calls[k]);
    }
  }

  ghost predicate NoTimerYet(calls: seq<Call>, id: string) {
    forall k :: 0 <= k < |calls| && calls[k].TimerCall? ==> calls[k].id != id
  }

  // ---------------------------------------------------------------- the reconciliation stop

  lemma AtMostOneUnresolved(w: World, run: seq<Action>, a: string, b: string)
    requires Init(w) && Legal(w, run)
    requires a in UnresolvedIds(After(w, run).rows) && b in UnresolvedIds(After(w, run).rows)
    ensures a == b
  {
    Reachable(w, run);
  }

  /** The command in hand, if any, has passed the unresolved check. */
  predicate PastGate(phase: Phase) {
    match phase
    case Preparing(_, _) => true
    case Dispatched(_, _) => true
    case Answered(_, _, _) => true
    case TimerWait(Live(_, _), _, _) => true
    case TimerReady(Live(_, _), _, _) => true
    case TimerAnswered(Live(_, _), _, _, _) => true
    case Cancelling(_, _, _, _, _) => true
    case CancelStopped(_, _, _) => true
    case Reporting(_, _) => true
    case _ => false
  }

  predicate Stopped(w: World, id: string) {
    !PastGate(w.phase) && id in w.rows && IsUnresolved(w.rows[id])
  }

  lemma StoppedStep(w: World, a: Action, id: string)
    requires Inv(w) && Enabled(w, a) && Stopped(w, id)
    ensures Stopped(Apply(w, a), id) && Apply(w, a).rows[id] == w.rows[id]
    ensures Apply(w, a).calls == w.calls || a.TimerCancel?
    ensures a.TimerCancel? ==>
      Apply(w, a).calls == w.calls + [TimerCall(w.phase.id, w.phase.reference, a.wire, w.clock)]
  {
    assert id in UnresolvedIds(w.rows);
    if IsWrite(a) {
      StoppedWrite(w, a, id);
    } else if IsQuiet(a) {
      QuietFrame(w, a);
      StoppedQuiet(w, a, id);
    }
  }

  lemma StoppedWrite(w: World, a: Action, id: string)
    requires Inv(w) && IsWrite(a) && EnabledWrite(w, a) && Stopped(w, id) && id in UnresolvedIds(w.rows)
    ensures WriteOf(w, a).id != id && !PastGate(WriteOf(w, a).next)
  {
  }

  lemma StoppedQuiet(w: World, a: Action, id: string)
    requires IsQuiet(a) && EnabledQuiet(w, a) && Stopped(w, id) && id in UnresolvedIds(w.rows)
    ensures !PastGate(ApplyQuiet(w, a).phase)
  {
  }

  /**
   Once a finished command or a crash leaves an unresolved row, no later command from the log
   makes any broker write in any continuation, across restarts: the row keeps its state and
   the only calls still made are timer cancellations of orders already acknowledged.
   */
  lemma {:induction false} UnresolvedStopsTrading(w: World, run: seq<Action>, id: string)
    requires Inv(w) && Stopped(w, id) && Legal(w, run)
    ensures var end := After(w, run);
      && Stopped(end, id) && end.rows[id] == w.rows[id]
      && |w.calls| <= |end.calls| && end.calls[..|w.calls|] == w.calls
      && forall k :: |w.calls| <= k < |end.calls| ==> end.calls[k].TimerCall?
    decreases |run|
  {
    hide Inv, Enabled, Apply, IsUnresolved;
    if run != [] {
      var before := After(w, run[..|run| - 1]);
      UnresolvedStopsTrading(w, run[..|run| - 1], id);
      InvRun(w, run[..|run| - 1]);
      StoppedStep(before, run[|run| - 1], id);
    }
  }

  /** One more possible step makes a longer run. */
  lemma RunExtends(w: World, run: seq<Action>, a: Action, next: World)
    requires Legal(w, run) && Enabled(After(w, run), a) && next == Apply(After(w, run), a)
    ensures Legal(w, run + [a]) && After(w, run + [a]) == next
  {
    assert (run + [a])[..|run|] == run;
  }

  // ---------------------------------------------------------------- crash anywhere

  lemma {:induction false} PrefixLegal(w: World, run: seq<Action>, k: nat)
    requires Legal(w, run) && k <= |run|
    ensures Legal(w, run[..k])
    decreases |run|
  {
    if k == |run| {
      assert run[..k] == run;
    } else {
      PrefixLegal(w, run[..|run| - 1], k);
      assert run[..|run| - 1][..k] == run[..k];
    }
  }

  /**
   A process may die after any number of steps of any run. So whatever is proved of all runs
   covers a crash at every point of the steps the executor takes.
   */
  lemma CrashAnywhere(w: World, run: seq<Action>, k: nat)
    requires Legal(w, run) && k <= |run|
    ensures Legal(w, run[..k])
    ensures After(w, run[..k]).phase != Down ==> Legal(w, run[..k] + [Crash])
  {
    PrefixLegal(w, run, k);
    if After(w, run[..k]).phase != Down {
      RunExtends(w, run[..k], Crash, ApplyQuiet(After(w, run[..k]), Crash));
    }
  }
}
