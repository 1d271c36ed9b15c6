/**
 The executor and its consume loop. Every journal write, broker call and commit below is
 recorded as a protocol step and proved to be one the machine allows, so the guarantees over
 all runs hold of this code, whichever replies, failures and delays it meets.

 Replies and elapsed time are arbitrary (`*`), and so is what fails: a journal write, a commit,
 the report of a session error. Where a method is told that it runs `calm`, none of that fails.
 `emit` and `holdings.request` do not raise and change none of this state, so they are absent.
 */
module Execution {
  import opened Common
  import opened Commands
  import opened Journal
  import opened BrokerReply
  import opened CommandProtocol
  import opened CommandGuarantees
  import opened Outcomes
  import CancelSelection

  /** How a call ends: normally, by an `ApiError`, or by an exception that stops the process. */
  datatype Exit = Returned | ApiErrorRaised | Died

  class CommandExecutor {
    const journal: CommandJournal
    const cancelAfter: nat
    var live: bool
    var clock: int
    var log: seq<Record>
    var committed: nat
    var anchored: bool      // the group has a committed offset
    var positioned: bool    // this process knows where it reads
    ghost var start: nat
    ghost var calls: seq<Call>
    ghost var phase: Phase
    ghost var dropped: set<nat>
    ghost var interrupted: set<string>
    ghost const origin: World
    ghost var run: seq<Action>

    ghost function Abs(): World
      reads this, journal
    {
      World(cancelAfter, start, live, clock, log, committed, anchored, positioned, journal.rows, calls, phase,
            dropped, interrupted)
    }

    /** All that happened so far is a legal run of the protocol that ends in the present state. */
    ghost predicate Valid()
      reads this, journal
    {
      Init(origin) && Legal(origin, run) && Abs() == After(origin, run)
    }

    /** What a command in progress never changes. */
    twostate predicate Steady()
      reads this, journal
    {
      && (forall id :: id in old(journal.rows) ==> id in journal.rows)
      && log == old(log) && committed == old(committed) && live == old(live)
      && dropped == old(dropped) && interrupted == old(interrupted) && Placed()
    }

    /** At most one row is written. */
    twostate predicate OnlyRow(id: string)
      reads this, journal
    {
      id in journal.rows && journal.rows == old(journal.rows)[id := journal.rows[id]]
    }

    /** The calls made since. */
    twostate function Sent(): seq<Call>
      reads this
    {
      if old(calls) <= calls then calls[|old(calls)|..] else []
    }

    /** The position in the log does not move. */
    twostate predicate Placed()
      reads this
    {
      start == old(start) && committed == old(committed) && anchored == old(anchored) && positioned == old(positioned)
    }

    /** The first process of a group: with no committed offset, or with one at the end of the log. */
    constructor (journal: CommandJournal, cancelAfter: nat, clock: int, log: seq<Record>, anchored: bool)
      requires journal.rows == map[]
      ensures Valid() && phase == Down && run == [] && this.journal == journal && this.anchored == anchored
        && fresh(this)
    {
      this.anchored, positioned, start := anchored, false, |log|;
      this.journal, this.cancelAfter, this.clock, this.log := journal, cancelAfter, clock, log;
      live, committed, calls, phase, dropped, interrupted := false, |log|, [], Down, {}, {};
      run := [];
      origin := World(cancelAfter, |log|, false, clock, log, |log|, anchored, false, map[], [], Down, {}, {});
    }

    /** Records a step whose durable effects have just been made by real code. */
    ghost method Note(before: World, a: Action, next: World)
      requires Init(origin) && Legal(origin, run) && before == After(origin, run)
      requires Enabled(before, a) && next == Apply(before, a)
      requires Abs().(phase := next.phase, dropped := next.dropped, interrupted := next.interrupted) == next
      modifies `phase, `dropped, `interrupted, `run
      ensures Valid() && Abs() == next && run == old(run) + [a]
    {
      hide Legal, After, Init, Enabled, Apply;
      RunExtends(origin, run, a, next);
      phase, dropped, interrupted := next.phase, next.dropped, next.interrupted;
      run := run + [a];
    }

    lemma Sound()
      requires Valid()
      ensures Inv(Abs())
    {
      InvRun(origin, run);
    }

    /** Time passes while something else is awaited. */
    method Elapse()
      requires Valid()
      modifies this
      ensures Valid() && clock >= old(clock) && run == old(run) + [Tick(clock - old(clock))]
      ensures Abs() == old(Abs()).(clock := clock)
      ensures Steady() && phase == old(phase) && calls == old(calls) && journal.rows == old(journal.rows)
    {
      hide Legal, After, Init;
      ghost var before := Abs();
      var delay: nat :| true;
      clock := clock + delay;
      Note(before, Tick(delay), before.(clock := clock));
    }

    /** Time passes, but not beyond a limit. */
    method Pause(most: nat)
      requires Valid()
      modifies this
      ensures Valid() && old(clock) <= clock <= old(clock) + most && Abs() == old(Abs()).(clock := clock)
      ensures Steady() && phase == old(phase) && calls == old(calls) && journal.rows == old(journal.rows)
    {
      hide Legal, After, Init;
      ghost var before := Abs();
      var delay: nat :| delay <= most;
      clock := clock + delay;
      Note(before, Tick(delay), before.(clock := clock));
    }

    /** `sleep(d)` returns when at least `d` has passed. */
    method Sleep(delay: nat)
      requires Valid()
      modifies this
      ensures Valid() && clock >= old(clock) + delay && Abs() == old(Abs()).(clock := clock)
      ensures Steady() && phase == old(phase) && calls == old(calls) && journal.rows == old(journal.rows)
    {
      hide Legal, After, Init;
      ghost var before := Abs();
      var over: nat :| true;
      clock := clock + (delay + over);
      Note(before, Tick(delay + over), before.(clock := clock));
    }

    /** One journal update. It may fail, and then it changes nothing. */
    method Write(calm: bool, ghost a: Action, ghost next: Phase, id: string, state: RowState,
                 reference: Option<string> := None, due: Option<int> := None, cancelState: Option<CancelState> := None)
      returns (ok: bool)
      requires Valid() && id in journal.rows && IsWrite(a) && EnabledWrite(Abs(), a)
      requires WriteOf(Abs(), a) == RowWrite(id, UpdatedRow(journal.rows[id], state, reference, due, cancelState), next)
      modifies this, journal
      ensures Valid()
      ensures ok ==>
        Abs() == ApplyWrite(old(Abs()),
                            RowWrite(id, UpdatedRow(old(journal.rows[id]), state, reference, due, cancelState), next))
      ensures !ok ==> Abs() == old(Abs()) && run == old(run)
      ensures calm ==> ok
    {
      hide Legal, After, Init;
      ok := *;
      ok := ok || calm;
      if ok {
        ghost var before := Abs();
        journal.Update(id, state, reference, due, cancelState);
        Note(before, a, Apply(before, a));
      }
    }

    /** A submission attempt. What the broker really did is not visible to the program. */
    method SubmitOrder(ghost offset: nat, ghost c: Command) returns (wire: Wire)
      requires Valid() && phase == Dispatched(offset, c)
      modifies this
      ensures Valid() && phase == Answered(offset, c, Classify(wire))
      ensures Steady() && clock == old(clock) && journal.rows == old(journal.rows)
      ensures exists acted :: calls == old(calls) + [EntryCall(c.id, wire, acted)]
    {
      hide Legal, After, Init;
      wire := *;
      ghost var before := Abs();
      ghost var acted: bool := *;
      if Accepts(wire) || Refuses(wire) { acted := Accepts(wire); }
      calls := calls + [EntryCall(c.id, wire, acted)];
      Note(before, Enter(wire, acted), Apply(before, Enter(wire, acted)));
    }

    method CancelOnTimer(ghost owner: Owner, id: string, reference: string) returns (wire: Wire)
      requires Valid() && phase == TimerReady(owner, id, reference)
      modifies this
      ensures Valid() && phase == TimerAnswered(owner, id, reference, Classify(wire))
      ensures Steady() && clock == old(clock) && journal.rows == old(journal.rows)
      ensures calls == old(calls) + [TimerCall(id, reference, wire, clock)]
    {
      hide Legal, After, Init;
      wire := *;
      ghost var before := Abs();
      calls := calls + [TimerCall(id, reference, wire, clock)];
      Note(before, TimerCancel(wire), Apply(before, TimerCancel(wire)));
    }

    ghost method FinishReport(offset: nat, c: Command)
      requires Valid() && phase == Reporting(offset, c)
      modifies this
      ensures Valid() && Abs() == old(Abs()).(phase := ToCommit(offset))
    {
      hide Legal, After, Init;
      Note(Abs(), Reported, Abs().(phase := ToCommit(offset)));
    }

    /** A session error is reported to the provider, which may fail to save its state. */
    method ReportSessionError(calm: bool) returns (raises: bool)
      ensures calm ==> !raises
    {
      raises := *;
      raises := raises && !calm;
    }

    // -------------------------------------------------------------- submission

    /** The handler of an explicit refusal: recorded, then reported to the session provider. */
    method RecordRefusal(calm: bool, offset: nat, c: Command) returns (raised: bool)
      requires Valid() && phase == Answered(offset, c, Refused) && c.id in journal.rows
      modifies this, journal
      ensures Valid() && Steady() && clock == old(clock) && calls == old(calls)
      ensures if raised then Interruptible(phase) == Some((offset, c)) else phase == ToCommit(offset)
      ensures calm ==> !raised && journal.rows == old(journal.rows)[c.id := old(journal.rows[c.id]).(state := Rejected)]
    {
      hide Legal, After, Init;
      var ok := Write(calm, RecordRejected, Reporting(offset, c), c.id, Rejected);
      if !ok { return true; }
      raised := ReportSessionError(calm);
      if !raised { FinishReport(offset, c); }
    }

    method RecordAcknowledgement(calm: bool, offset: nat, c: Command, timed: bool, result: WriteResult)
      returns (ok: bool)
      requires Valid() && phase == Answered(offset, c, result) && c.id in journal.rows && result.Acknowledged?
      requires timed <==> journal.rows[c.id].cancelDue.Some?
      modifies this, journal
      ensures Valid() && Steady() && clock == old(clock) && calls == old(calls)
      ensures calm ==> ok
      ensures !ok ==> phase == old(phase) && journal.rows == old(journal.rows)
      ensures ok ==> phase == if timed then TimerWait(Live(offset, c), c.id, result.reference) else ToCommit(offset)
      ensures ok ==>
        var row := old(journal.rows[c.id]);
        journal.rows == old(journal.rows)[c.id :=
          row.(state := Submitted, reference := Some(result.reference),
               cancelState := if timed then Some(Pending) else row.cancelState)]
    {
      hide Legal, After, Init;
      ghost var next := if timed then TimerWait(Live(offset, c), c.id, result.reference) else ToCommit(offset);
      ok := Write(calm, RecordSubmitted, next, c.id, Submitted, Some(result.reference), None,
                  if timed then Some(Pending) else None);
    }

    /** The `try` body of `submit` from the reply on, with its two handlers. */
    method RecordAnswer(calm: bool, offset: nat, c: Command, timed: bool, result: WriteResult)
      returns (raised: bool, acknowledged: bool)
      requires Valid() && phase == Answered(offset, c, result) && c.id in journal.rows
      requires timed <==> journal.rows[c.id].cancelDue.Some?
      modifies this, journal
      ensures Valid() && Steady() && clock == old(clock)
      ensures calls == old(calls)
      ensures raised ==> !acknowledged && Interruptible(phase) == Some((offset, c))
      ensures acknowledged ==> result.Acknowledged?
      ensures !raised ==>
        phase == if timed && acknowledged then TimerWait(Live(offset, c), c.id, result.reference) else ToCommit(offset)
      ensures acknowledged ==> c.id in journal.rows && journal.rows[c.id].cancelDue == old(journal.rows[c.id].cancelDue)
      ensures calm ==> !raised && (acknowledged <==> result.Acknowledged?)
      ensures calm ==>
        var row := old(journal.rows[c.id]);
        journal.rows == old(journal.rows)[c.id :=
          if result.Acknowledged?
          then row.(state := Submitted, reference := Some(result.reference),
                    cancelState := if timed then Some(Pending) else row.cancelState)
          else row.(state := if result.Refused? then Rejected else Unknown)]
    {
      hide Legal, After, Init;
      raised, acknowledged := false, false;
      if result.Refused? {
        raised := RecordRefusal(calm, offset, c);
        return;
      }
      if result.Acknowledged? {
        acknowledged := RecordAcknowledgement(calm, offset, c, timed, result);
        if acknowledged { return; }
      }
      var ok := Write(calm, RecordUnknown, ToCommit(offset), c.id, Unknown);
      raised := !ok;
    }

    lemma PreparedRow(offset: nat, c: Command)
      requires Valid() && phase == Preparing(offset, c)
      ensures c.id in journal.rows && journal.rows[c.id] == FreshRow(FingerprintOf(c))
    {
      InvRun(origin, run);
    }

    /** Persists the dispatch and the cancellation's due time, before anything is sent. */
    method BeginDispatch(calm: bool, offset: nat, c: Command, timed: bool) returns (ok: bool)
      requires Valid() && phase == Preparing(offset, c) && c.TradingCommand? && timed == (c.orderType == FokOrder)
      modifies this, journal
      ensures Valid() && Steady() && clock == old(clock)
      ensures calls == old(calls) && phase == if ok then Dispatched(offset, c) else Preparing(offset, c)
      ensures calm ==> ok
      ensures !ok ==> journal.rows == old(journal.rows)
      ensures ok ==> c.id in old(journal.rows)
      ensures ok ==> journal.rows == old(journal.rows)[c.id :=
        FreshRow(FingerprintOf(c)).(state := Dispatching,
                                    cancelDue := if timed then Some(clock + cancelAfter) else None)]
    {
      hide Legal, After, Init;
      PreparedRow(offset, c);
      ok := Write(calm, Dispatch, Dispatched(offset, c), c.id, Dispatching, None,
                  if timed then Some(clock + cancelAfter) else None);
    }

    /** The dispatch is on disk before the order is sent; without it nothing is. */
    method SendOrder(calm: bool, offset: nat, c: Command, timed: bool)
      returns (ok: bool, wire: Wire, started: int, ghost due: Option<int>)
      requires Valid() && phase == Preparing(offset, c) && c.TradingCommand? && timed == (c.orderType == FokOrder)
      modifies this, journal
      ensures Valid() && Steady() && old(clock) <= started <= clock && (due.Some? <==> timed)
      ensures timed ==> old(clock) + cancelAfter <= due.value <= started + cancelAfter
      ensures calm ==> ok
      ensures c.id in old(journal.rows)
      ensures !ok ==> phase == old(phase) && calls == old(calls) && journal.rows == old(journal.rows)
      ensures ok ==> phase == Answered(offset, c, Classify(wire))
      ensures ok ==> exists acted :: calls == old(calls) + [EntryCall(c.id, wire, acted)]
      ensures ok ==>
        journal.rows == old(journal.rows)[c.id := FreshRow(FingerprintOf(c)).(state := Dispatching, cancelDue := due)]
    {
      hide Valid, Abs, FingerprintOf, Classify;
      PreparedRow(offset, c);
      wire, started := NoReply, clock;
      due := if timed then Some(clock + cancelAfter) else None;
      ok := BeginDispatch(calm, offset, c, timed);
      if !ok { return; }
      Elapse();
      started := clock;
      wire := SubmitOrder(offset, c);
      Elapse();
    }

    /** `submit` from the dispatch to the recorded answer. */
    method EnterOrder(calm: bool, offset: nat, c: Command, timed: bool)
      returns (raised: bool, acknowledged: bool, wire: Wire, started: int, ghost due: Option<int>)
      requires Valid() && phase == Preparing(offset, c) && c.TradingCommand? && timed == (c.orderType == FokOrder)
      modifies this, journal
      ensures Valid() && Steady() && old(calls) <= calls && c.id in journal.rows
      ensures old(clock) <= started <= clock && (due.Some? <==> timed)
      ensures timed ==> old(clock) + cancelAfter <= due.value <= started + cancelAfter
      ensures raised ==> !acknowledged && Interruptible(phase) == Some((offset, c))
      ensures acknowledged ==> Usable(wire) && journal.rows[c.id].cancelDue == due
      ensures !raised ==>
        phase == if timed && acknowledged then TimerWait(Live(offset, c), c.id, wire.reference.value)
                 else ToCommit(offset)
      ensures calm ==> !raised && (acknowledged <==> Usable(wire))
      ensures calm ==> exists acted :: calls == old(calls) + [EntryCall(c.id, wire, acted)]
      ensures calm ==> journal.rows == old(journal.rows)[c.id := AnsweredRow(c, wire, due)]
    {
      hide Valid, Abs, FingerprintOf, Accepts, Refuses, Classify, Names;
      var ok;
      ok, wire, started, due := SendOrder(calm, offset, c, timed);
      raised, acknowledged := true, false;
      if !ok { return; }
      AnswerMeans(wire);
      raised, acknowledged := RecordAnswer(calm, offset, c, timed, Classify(wire));
    }

    /** The rest of the configured second passes, then the order is cancelled. */
    method CancelInTime(calm: bool, offset: nat, c: Command, reference: string, started: int) returns (raised: bool)
      requires Valid() && phase == TimerWait(Live(offset, c), c.id, reference) && c.id in journal.rows
      requires journal.rows[c.id].cancelDue.Some? && journal.rows[c.id].cancelDue.value <= started + cancelAfter
      modifies this, journal
      ensures Valid() && Steady() && clock >= old(clock) && OnlyRow(c.id) && old(calls) <= calls
      ensures if raised then Interruptible(phase) == Some((offset, c)) else phase == ToCommit(offset)
      ensures calm ==>
        && !raised && |calls| == |old(calls)| + 1 && calls[|old(calls)|].TimerCall?
        && calls[|old(calls)|] == TimerCall(c.id, reference, calls[|old(calls)|].wire, clock)
        && clock >= old(journal.rows[c.id]).cancelDue.value
        && TimerRecorded(journal.rows[c.id].cancelState, calls[|old(calls)|].wire)
        && journal.rows[c.id] ==
           old(journal.rows[c.id]).(state := Submitted, cancelState := journal.rows[c.id].cancelState)
    {
      hide Valid, Abs, TimerRecorded;
      var remaining := started + cancelAfter - clock;
      if remaining > 0 { Sleep(remaining); }
      raised := TimedCancel(calm, Live(offset, c), c.id, reference);
    }

    /**
     `submit`. Nothing is sent for an order that cannot be planned. Otherwise, while nothing fails,
     it is entered exactly once and its row says what the answer says.
     */
    method Submit(calm: bool, offset: nat, c: Command, planned: bool) returns (raised: bool)
      requires Valid() && phase == Preparing(offset, c) && c.TradingCommand?
      modifies this, journal
      ensures Valid() && Steady() && old(calls) <= calls
      ensures if raised then Interruptible(phase) == Some((offset, c)) else phase == ToCommit(offset)
      ensures !planned ==> raised && calls == old(calls) && journal.rows == old(journal.rows)
      ensures calm && planned ==> !raised && OnlyRow(c.id) && OrderRecorded(c, Sent(), journal.rows[c.id])
      ensures calm && planned && journal.rows[c.id].cancelDue.Some? ==>
        old(clock) + cancelAfter <= journal.rows[c.id].cancelDue.value <= clock + cancelAfter
    {
      hide Valid, Abs, FingerprintOf, Names, Refuses, OrderRecorded, TimerRecorded;
      if !planned { return true; }    // market preparation or order planning refused
      Elapse();
      var timed := c.orderType == FokOrder;
      var acknowledged, wire, started;
      ghost var due;
      raised, acknowledged, wire, started, due := EnterOrder(calm, offset, c, timed);
      ghost var entered := calls;
      if acknowledged && timed {
        raised := CancelInTime(calm, offset, c, wire.reference.value, started);
        if calm {
          TimedOrderIsRecorded(c, entered[|old(calls)|], wire, due, calls[|entered|], journal.rows[c.id]);
          assert Sent() == [entered[|old(calls)|], calls[|entered|]];
        }
      } else if calm {
        OrderIsRecorded(c, entered[|old(calls)|], wire, due);
        assert Sent() == [entered[|old(calls)|]];
      }
    }

    /** The cancellation is on disk as dispatched before it is sent. */
    method BeginTimer(calm: bool, owner: Owner, id: string, reference: string) returns (ok: bool)
      requires Valid() && phase == TimerWait(owner, id, reference) && id in journal.rows
      requires journal.rows[id].cancelDue.Some? && clock >= journal.rows[id].cancelDue.value
      modifies this, journal
      ensures Valid() && Steady() && clock == old(clock) && calls == old(calls)
      ensures calm ==> ok
      ensures !ok ==> phase == old(phase) && journal.rows == old(journal.rows)
      ensures ok ==> phase == TimerReady(owner, id, reference)
      ensures ok ==>
        journal.rows ==
        old(journal.rows)[id := old(journal.rows[id]).(state := Submitted, cancelState := Some(CancelDispatching))]
    {
      hide Legal, After, Init;
      ok := Write(calm, StartTimer, TimerReady(owner, id, reference), id, Submitted, None, None,
                  Some(CancelDispatching));
    }

    /** For an order just placed, or for one found pending at start-up. */
    method TimedCancel(calm: bool, owner: Owner, id: string, reference: string) returns (raised: bool)
      requires Valid() && phase == TimerWait(owner, id, reference) && id in journal.rows
      requires journal.rows[id].cancelDue.Some? && clock >= journal.rows[id].cancelDue.value
      modifies this, journal
      ensures Valid() && Steady() && clock == old(clock) && OnlyRow(id)
      ensures calls == old(calls) || exists wire, at :: calls == old(calls) + [TimerCall(id, reference, wire, at)]
      ensures owner.Live? ==>
        if raised then Interruptible(phase) == Some((owner.offset, owner.command)) else phase == ToCommit(owner.offset)
      ensures owner.Recovery? && !raised ==> phase == Recovering(owner.todo)
      ensures phase != Down
      ensures calm ==>
        && !raised && old(calls) <= calls && |calls| == |old(calls)| + 1
        && calls[|old(calls)|].TimerCall?
        && calls[|old(calls)|] == TimerCall(id, reference, calls[|old(calls)|].wire, clock)
        && TimerRecorded(journal.rows[id].cancelState, calls[|old(calls)|].wire)
        && journal.rows[id] == old(journal.rows[id]).(state := Submitted, cancelState := journal.rows[id].cancelState)
    {
      hide Valid, Abs, Accepts, Refuses;
      var ok := BeginTimer(calm, owner, id, reference);
      if !ok { return true; }
      var wire := CancelOnTimer(owner, id, reference);
      ClassifyMeans(wire);
      raised := RecordTimerAnswer(calm, owner, id, reference, Classify(wire));
    }

    method WriteTimer(calm: bool, owner: Owner, id: string, reference: string, result: WriteResult,
                      outcome: CancelState)
      returns (ok: bool)
      requires Valid() && phase == TimerAnswered(owner, id, reference, result) && id in journal.rows
      requires outcome in {Requested, CancelRejected, CancelUnknown}
      requires outcome == Requested ==> result.Acknowledged? || result.AcknowledgedBlank?
      requires outcome == CancelRejected ==> result.Refused?
      modifies this, journal
      ensures Valid() && Steady() && calls == old(calls) && clock == old(clock) && OnlyRow(id)
      ensures calm ==> ok
      ensures !ok ==> phase == old(phase) && journal.rows == old(journal.rows)
      ensures ok ==>
        journal.rows ==
          old(journal.rows)[id := old(journal.rows[id]).(state := Submitted, cancelState := Some(outcome))]
      ensures ok && owner.Recovery? ==> phase == Recovering(owner.todo)
      ensures ok && owner.Live? ==>
        phase == if outcome == CancelRejected then Reporting(owner.offset, owner.command) else ToCommit(owner.offset)
    {
      hide Legal, After, Init;
      ok := Write(calm, RecordTimer(outcome), AfterTimer(owner, outcome), id, Submitted, None, None, Some(outcome));
    }

    /** A refused timer cancellation: recorded, then reported to the session provider. */
    method RecordTimerRefusal(calm: bool, owner: Owner, id: string, reference: string) returns (raised: bool)
      requires Valid() && phase == TimerAnswered(owner, id, reference, Refused) && id in journal.rows
      modifies this, journal
      ensures Valid() && Steady() && calls == old(calls) && clock == old(clock) && OnlyRow(id)
      ensures owner.Live? ==>
        if raised then Interruptible(phase) == Some((owner.offset, owner.command)) else phase == ToCommit(owner.offset)
      ensures owner.Recovery? && !raised ==> phase == Recovering(owner.todo)
      ensures phase != Down
      ensures calm ==> !raised
      ensures calm ==>
        journal.rows ==
        old(journal.rows)[id := old(journal.rows[id]).(state := Submitted, cancelState := Some(CancelRejected))]
    {
      hide Legal, After, Init;
      var ok := WriteTimer(calm, owner, id, reference, Refused, CancelRejected);
      if !ok { return true; }
      raised := ReportSessionError(calm);
      if !raised && owner.Live? { FinishReport(owner.offset, owner.command); }
    }

    /** The `try` body of `timed_cancel` from the reply on, with its two handlers. */
    method RecordTimerAnswer(calm: bool, owner: Owner, id: string, reference: string, result: WriteResult)
      returns (raised: bool)
      requires Valid() && phase == TimerAnswered(owner, id, reference, result) && id in journal.rows
      modifies this, journal
      ensures Valid() && Steady() && calls == old(calls) && clock == old(clock) && OnlyRow(id)
      ensures owner.Live? ==>
        if raised then Interruptible(phase) == Some((owner.offset, owner.command)) else phase == ToCommit(owner.offset)
      ensures owner.Recovery? && !raised ==> phase == Recovering(owner.todo)
      ensures phase != Down
      ensures calm ==> !raised
      ensures calm ==>
        journal.rows ==
        old(journal.rows)[id := old(journal.rows[id]).(state := Submitted, cancelState := Some(
          if result.Refused? then CancelRejected else if result.Uncertain? then CancelUnknown else Requested))]
    {
      hide Legal, After, Init, Inv, Apply, ApplyWrite, Enabled, EnabledWrite;
      if result.Refused? {
        raised := RecordTimerRefusal(calm, owner, id, reference);
        return;
      }
      if result.Acknowledged? || result.AcknowledgedBlank? {
        var ok := WriteTimer(calm, owner, id, reference, result, Requested);
        if ok { return false; }
      }
      var ok := WriteTimer(calm, owner, id, reference, result, CancelUnknown);
      return !ok;
    }

    // -------------------------------------------------------------- cancel commands

    /** One cancellation of a cancel command's batch. */
    method SendBatchCancel(ghost offset: nat, ghost c: Command, references: seq<string>, next: nat,
                           ghost read: seq<CancelSelection.OrderRow>) returns (wire: Wire)
      requires Valid() && phase == Cancelling(offset, c, references, next, read) && next < |references|
      modifies this
      ensures Valid() && Steady()
      ensures calls == old(calls) + [CancelCall(c.id, references[next], wire, c, read)]
      ensures phase == AfterBatchCancel(offset, c, references, next, read, Classify(wire))
      ensures journal.rows == old(journal.rows)
    {
      hide Legal, After, Init;
      wire := *;
      ghost var before := Abs();
      calls := calls + [CancelCall(c.id, references[next], wire, c, read)];
      Note(before, SendCancel(wire),
           Abs().(phase := AfterBatchCancel(offset, c, references, next, read, Classify(wire))));
    }

    /** A cancellation of the batch was refused or is uncertain: no further one is sent. */
    method StopBatch(calm: bool, offset: nat, c: Command, refused: bool) returns (raised: bool)
      requires Valid() && phase == CancelStopped(offset, c, refused) && c.id in journal.rows
      modifies this, journal
      ensures Valid() && Steady() && calls == old(calls)
      ensures if raised then Interruptible(phase) == Some((offset, c)) else phase == ToCommit(offset)
      ensures calm ==> !raised
      ensures calm ==>
        journal.rows ==
        old(journal.rows)[c.id := old(journal.rows[c.id]).(state := if refused then Rejected else Unknown)]
    {
      hide Legal, After, Init;
      if refused {
        var ok := Write(calm, RecordCancels, Reporting(offset, c), c.id, Rejected);
        if !ok { return true; }
        raised := ReportSessionError(calm);
        if !raised { FinishReport(offset, c); }
      } else {
        var ok := Write(calm, RecordCancels, ToCommit(offset), c.id, Unknown);
        raised := !ok;
      }
    }

    /** Every cancellation of the batch was acknowledged. */
    method CloseBatch(calm: bool, offset: nat, c: Command, refs: seq<string>,
                      ghost read: seq<CancelSelection.OrderRow>) returns (raised: bool)
      requires Valid() && phase == Cancelling(offset, c, refs, |refs|, read) && c.id in journal.rows
      modifies this, journal
      ensures Valid() && Steady() && calls == old(calls)
      ensures if raised then Interruptible(phase) == Some((offset, c)) else phase == ToCommit(offset)
      ensures calm ==> !raised
      ensures calm ==> journal.rows == old(journal.rows)[c.id := old(journal.rows[c.id]).(state := CancelRequested)]
    {
      hide Legal, After, Init;
      var ok := Write(calm, RecordCancels, ToCommit(offset), c.id, CancelRequested);
      return !ok;
    }

    /** The cancellation loop: it ends at the first answer that is not an acknowledgement. */
    method SendBatch(calm: bool, offset: nat, c: Command, refs: seq<string>,
                     ghost read: seq<CancelSelection.OrderRow>) returns (raised: bool)
      requires Valid() && phase == Cancelling(offset, c, refs, 0, read) && c.id in journal.rows
      modifies this, journal
      ensures Valid() && Steady() && old(calls) <= calls && InOrder(Sent(), c.id, refs)
      ensures if raised then Interruptible(phase) == Some((offset, c)) else phase == ToCommit(offset)
      ensures calm && refs != [] ==> !raised && BatchRecorded(Sent(), c.id, refs, journal.rows[c.id].state)
      ensures calm ==>
        OnlyRow(c.id) && journal.rows[c.id] == old(journal.rows[c.id]).(state := journal.rows[c.id].state)
    {
      hide Legal, After, Init, Inv, Apply, ApplyWrite, Enabled, EnabledWrite, Accepts, Refuses, Classify;
      hide InOrder, BatchRecorded, AllAccepted;
      ghost var sent: seq<Call> := [];
      NoneInOrder(c.id, refs);
      for k := 0 to |refs|
        invariant Valid() && phase == Cancelling(offset, c, refs, k, read) && journal.rows == old(journal.rows)
        invariant Steady() && calls == old(calls) + sent && |sent| == k
        invariant InOrder(sent, c.id, refs) && AllAccepted(sent)
      {
        var wire := SendBatchCancel(offset, c, refs, k, read);
        ClassifyMeans(wire);
        BatchGrows(sent, CancelCall(c.id, refs[k], wire, c, read), c.id, refs);
        sent := sent + [CancelCall(c.id, refs[k], wire, c, read)];
        assert Sent() == sent;
        if Classify(wire).Refused? || Classify(wire).Uncertain? {
          raised := StopBatch(calm, offset, c, Classify(wire).Refused?);
          assert Sent() == sent;
          return;
        }
      }
      if refs != [] { BatchEnds(sent, c.id, refs); }
      raised := CloseBatch(calm, offset, c, refs, read);
      assert Sent() == sent;
    }

    /**
     `cancel_command` on today's orders, `None` if they could not be read. Only the open orders
     the command selects from them are cancelled, each at most once and in their order.
     */
    method ExecuteCancel(calm: bool, offset: nat, c: Command, reply: CancelSelection.Reply) returns (raised: bool)
      requires Valid() && phase == Preparing(offset, c) && c.CancelCommand?
      modifies this, journal
      ensures Valid() && Steady() && old(calls) <= calls
      ensures if raised then Interruptible(phase) == Some((offset, c)) else phase == ToCommit(offset)
      ensures var accepted := reply.Some? && CancelSelection.Accepts(c, reply.value);
        && (!accepted ==> raised && calls == old(calls) && journal.rows == old(journal.rows))
        && (accepted ==> InOrder(Sent(), c.id, References(c, reply.value)))
        && (calm && accepted ==>
            && !raised && OnlyRow(c.id)
            && CancelRecorded(c, References(c, reply.value), Sent(), journal.rows[c.id]))
    {
      hide Legal, After, Init, CancelSelection.Accepts, References, BatchRecorded, InOrder, FingerprintOf;
      PreparedRow(offset, c);
      var selected := CancelSelection.CancelReferences(reply, c);
      if selected.Failure? { return true; }
      var refs := selected.value;
      assert refs == References(c, reply.value) by { SelectedReferences(c, reply.value, refs); }
      if refs == [] {
        NoneInOrder(c.id, refs);
        var ok := Write(calm, FindNothing, ToCommit(offset), c.id, NoAction);
        assert Sent() == [];
        return !ok;
      }
      raised := CancelAll(calm, offset, c, refs, reply.value);
    }

    /** The batch from its dispatch on. */
    method CancelAll(calm: bool, offset: nat, c: Command, refs: seq<string>, read: seq<CancelSelection.OrderRow>)
      returns (raised: bool)
      requires Valid() && phase == Preparing(offset, c) && c.CancelCommand? && c.id in journal.rows
      requires CancelSelection.Accepts(c, read) && refs == References(c, read) && refs != []
      modifies this, journal
      ensures Valid() && Steady() && old(calls) <= calls && InOrder(Sent(), c.id, refs)
      ensures if raised then Interruptible(phase) == Some((offset, c)) else phase == ToCommit(offset)
      ensures calm ==> !raised && BatchRecorded(Sent(), c.id, refs, journal.rows[c.id].state)
      ensures calm ==>
        OnlyRow(c.id) && journal.rows[c.id] == old(journal.rows[c.id]).(state := journal.rows[c.id].state)
    {
      hide Legal, After, Init, CancelSelection.Accepts, References, BatchRecorded, InOrder;
      var ok := Write(calm, DispatchCancels(read), Cancelling(offset, c, refs, 0, read), c.id, Dispatching);
      if !ok {
        NoneInOrder(c.id, refs);
        assert Sent() == [];
        return true;
      }
      raised := SendBatch(calm, offset, c, refs, read);
    }

    // -------------------------------------------------------------- one command

    /** The outer `except Exception` handler: by the state it finds, unknown or rejected. */
    method OuterHandler(calm: bool, offset: nat, c: Command) returns (died: bool)
      requires Valid() && Interruptible(phase) == Some((offset, c)) && c.id in journal.rows
      modifies this, journal
      ensures Valid() && Steady() && calls == old(calls)
      ensures phase != Down && (!died ==> phase == ToCommit(offset))
      ensures calm ==> !died
      ensures !died ==> journal.rows == old(journal.rows)[c.id := old(journal.rows[c.id]).(
        state := if old(journal.rows[c.id]).state in {Dispatching, Submitted} then Unknown else Rejected)]
    {
      hide Legal, After, Init;
      died := ReportSessionError(calm);
      if died { return; }
      var found := journal.rows[c.id].state;
      var state := if found == Dispatching || found == Submitted then Unknown else Rejected;
      var ok := Write(calm, Interrupt, ToCommit(offset), c.id, state);
      died := !ok;
    }

    /** `execute` past the reconciliation check: preflight, then the order or the cancellations. */
    method Perform(calm: bool, offset: nat, c: Command, around: Surroundings) returns (died: bool)
      requires Valid() && phase == Preparing(offset, c) && c.id in journal.rows
      modifies this, journal
      ensures Valid() && Steady() && old(calls) <= calls
      ensures phase != Down && (!died ==> phase == ToCommit(offset))
      ensures calm ==> !died && OnlyRow(c.id) && Performed(c, around, Sent(), journal.rows[c.id])
    {
      hide Valid, Abs, CancelSelection.Accepts, References, OrderRecorded, CancelRecorded, FingerprintOf;
      PreparedRow(offset, c);
      var raised;
      if !around.ready {           // no client, or the trading preflight failed
        raised := true;
      } else if c.CancelCommand? {
        raised := ExecuteCancel(calm, offset, c, around.orders);
      } else {
        raised := Submit(calm, offset, c, around.planned);
      }
      died := false;
      if raised {
        died := OuterHandler(calm, offset, c);
      }
    }

    /** A command that orders being disabled, or an earlier open one, keeps from the broker. */
    method CloseGate(calm: bool, offset: nat, c: Command, state: RowState) returns (died: bool)
      requires Valid() && phase == Claimed(offset, c) && c.id in journal.rows
      requires if live then state == Blocked && UnresolvedIds(journal.rows) != {} else state == Disabled
      modifies this, journal
      ensures Valid() && Steady() && calls == old(calls)
      ensures phase != Down && (!died ==> phase == ToCommit(offset))
      ensures calm ==> !died && journal.rows == old(journal.rows)[c.id := old(journal.rows[c.id]).(state := state)]
    {
      hide Legal, After, Init;
      var ok := Write(calm, if live then Block else Disable, ToCommit(offset), c.id, state);
      died := !ok;
    }

    ghost method OpenGate(offset: nat, c: Command)
      requires Valid() && phase == Claimed(offset, c) && live && UnresolvedIds(journal.rows) == {}
      modifies this
      ensures Valid() && Steady() && calls == old(calls) && journal.rows == old(journal.rows)
      ensures phase == Preparing(offset, c)
    {
      hide Legal, After, Init;
      Note(Abs(), Proceed, Abs().(phase := Preparing(offset, c)));
    }

    /** `execute` from the journal checks on, for a command just claimed. */
    method ExecuteClaimed(calm: bool, offset: nat, c: Command, around: Surroundings) returns (died: bool)
      requires Valid() && phase == Claimed(offset, c) && c.id in journal.rows
      requires journal.rows[c.id] == FreshRow(FingerprintOf(c))
      modifies this, journal
      ensures Valid() && Steady() && old(calls) <= calls
      ensures phase != Down && (!died ==> phase == ToCommit(offset))
      ensures !live || UnresolvedIds(old(journal.rows)) != {} ==> calls == old(calls)
      ensures calm ==>
        && !died && OnlyRow(c.id)
        && Executed(c, live, UnresolvedIds(old(journal.rows)) != {}, around, Sent(), journal.rows[c.id])
    {
      hide Valid, Abs, Performed, FingerprintOf;
      if !live {
        died := CloseGate(calm, offset, c, Disabled);
        return;
      }
      var unresolved := journal.HasUnresolved();
      if unresolved {
        died := CloseGate(calm, offset, c, Blocked);
        return;
      }
      OpenGate(offset, c);
      died := Perform(calm, offset, c, around);
    }

    /** The claim at the head of `execute`; `Died` is a database error. */
    method ClaimCommand(calm: bool, offset: nat, c: Command) returns (exit: Exit)
      requires Valid() && phase == Handling(offset) && offset < |log| && log[offset] == Parsed(c)
      modifies this, journal
      ensures Valid() && Steady() && calls == old(calls)
      ensures exit == Returned && c.id !in old(journal.rows) ==>
        phase == Claimed(offset, c) && journal.rows == old(journal.rows)[c.id := FreshRow(FingerprintOf(c))]
      ensures c.id in old(journal.rows) || exit != Returned ==> journal.rows == old(journal.rows)
      ensures exit == Returned && c.id in old(journal.rows) ==> phase == ToCommit(offset)
      ensures exit != Returned ==> phase == old(phase)
      ensures exit == ApiErrorRaised ==> c.id in old(journal.rows)
      ensures calm ==> exit != Died
      ensures calm && c.id in old(journal.rows) ==>
        (exit == Returned <==> old(journal.rows)[c.id].digest == FingerprintOf(c))
    {
      hide Legal, After, Init, Inv, FingerprintOf;
      var failed: bool := *;
      if failed && !calm { return Died; }
      ghost var before := Abs();
      var answer := journal.Claim(c.id, FingerprintOf(c));
      if answer.Failure? { return ApiErrorRaised; }
      if answer.value {
        Note(before, Claim, Abs().(phase := Claimed(offset, c)));
      } else {
        Note(before, Duplicate, Abs().(phase := ToCommit(offset)));
      }
      return Returned;
    }

    lemma UninterruptedRowIsDecided(id: string)
      requires Valid() && CurrentId(phase).None? && id in journal.rows && id !in interrupted
      ensures journal.rows[id].state !in {Received, Dispatching}
    {
      InvRun(origin, run);
      assert RowSound(Abs(), id);
    }

    /**
     `execute`. The row of a new command is decided when this returns, and the broker is called
     only for a new command while orders are enabled and nothing awaits reconciliation. While
     nothing fails, a new command's row says exactly what became of it, a redelivery does nothing,
     and another use of a recorded ID is refused.
     */
    method Execute(calm: bool, offset: nat, c: Command, around: Surroundings) returns (exit: Exit)
      requires Valid() && phase == Handling(offset) && offset < |log| && log[offset] == Parsed(c)
      modifies this, journal
      ensures Valid() && Steady() && phase != Down
      ensures exit == Returned ==> phase == ToCommit(offset)
      ensures exit == ApiErrorRaised ==> phase == Handling(offset) && c.id in old(journal.rows)
      ensures c.id in old(journal.rows) ==> calls == old(calls) && journal.rows == old(journal.rows)
      ensures !live || UnresolvedIds(old(journal.rows)) != {} ==> calls == old(calls)
      ensures exit == Returned && c.id !in old(journal.rows) ==>
        c.id in journal.rows && journal.rows[c.id].state !in {Received, Dispatching}
      ensures calm ==> exit != Died
      ensures calm && c.id in old(journal.rows) ==>
        (exit == Returned <==> old(journal.rows)[c.id].digest == FingerprintOf(c))
      ensures calm && c.id !in old(journal.rows) ==>
        && old(calls) <= calls && OnlyRow(c.id)
        && Executed(c, live, UnresolvedIds(old(journal.rows)) != {}, around, Sent(), journal.rows[c.id])
    {
      hide Legal, After, Init, CallsUnique, CallsRecorded, RowsSound, OneUnresolved, LogDecided;
      hide Executed, FingerprintOf;
      Sound();
      var known := c.id in journal.rows;
      exit := ClaimCommand(calm, offset, c);
      if exit == Returned && !known {
        assert UnresolvedIds(journal.rows) == UnresolvedIds(old(journal.rows)) by {
          FreshIsResolved(old(journal.rows), c);
        }
        var died := ExecuteClaimed(calm, offset, c, around);
        if died { return Died; }
        UninterruptedRowIsDecided(c.id);
      }
    }

    // -------------------------------------------------------------- start-up recovery

    /** A process starts with its configuration and reads the pending cancellations, if orders are enabled. */
    method Start(liveOrders: bool) returns (todo: seq<string>)
      requires Valid() && phase == Down
      modifies this
      ensures Valid() && phase == Recovering(todo) && live == liveOrders && journal.rows == old(journal.rows)
      ensures log == old(log) && calls == old(calls) && positioned == anchored
      ensures forall i, k :: 0 <= i < k < |todo| ==> todo[i] != todo[k]
      ensures start == old(start) && committed == old(committed) && anchored == old(anchored)
    {
      hide Legal, After, Init;
      todo := [];
      if liveOrders {
        todo := journal.PendingCancellations();
      }
      ghost var before := Abs();
      live, positioned := liveOrders, anchored;
      Note(before, Restart(liveOrders, todo), Abs().(phase := Recovering(todo)));
    }

    lemma PendingRow(todo: seq<string>)
      requires Valid() && phase == Recovering(todo) && todo != []
      ensures todo[0] in journal.rows && journal.rows[todo[0]].cancelDue.Some? && journal.rows[todo[0]].reference.Some?
    {
      Sound();
      assert RowSound(Abs(), todo[0]);
    }

    ghost method Skip(todo: seq<string>)
      requires Valid() && phase == Recovering(todo) && todo != []
      modifies this
      ensures Valid() && Abs() == old(Abs()).(phase := Recovering(todo[1..]))
    {
      Note(Abs(), RecoverSkip, Abs().(phase := Recovering(todo[1..])));
    }

    ghost method Begin(todo: seq<string>, reference: string)
      requires Valid() && phase == Recovering(todo) && todo != [] && todo[0] in journal.rows
      requires journal.rows[todo[0]].cancelState == Some(Pending) && journal.rows[todo[0]].reference == Some(reference)
      modifies this
      ensures Valid() && Abs() == old(Abs()).(phase := TimerWait(Recovery(todo[1..]), todo[0], reference))
    {
      Note(Abs(), RecoverBegin, Abs().(phase := TimerWait(Recovery(todo[1..]), todo[0], reference)));
    }

    ghost method FinishRecovery()
      requires Valid() && phase == Recovering([])
      modifies this
      ensures Valid() && Abs() == old(Abs()).(phase := Idle) && Steady() && phase == Idle
    {
      Note(Abs(), RecoverDone, Abs().(phase := Idle));
    }

    /** Waits for the due time; `died` is the negative sleep of a clock that passes it in between. */
    method AwaitDue(calm: bool, due: int) returns (died: bool)
      requires Valid()
      modifies this
      ensures Valid() && Abs() == old(Abs()).(clock := clock) && (!died ==> clock >= due)
      ensures calm ==> !died
    {
      hide Legal, After, Init;
      Elapse();
      died := false;
      var first := clock;
      if due > first {
        if calm { Pause(due - first); } else { Elapse(); }
        var wait := RecoveryWait(due, first, clock);
        if wait.NegativeSleep? { return true; }
        Sleep(wait.delay);
      }
    }

    /**
     One pending cancellation at start-up. While nothing fails, one that was not begun before and
     whose preflight passes is sent once, in its time, and any other is left as it is.
     */
    method RecoverOne(calm: bool, todo: seq<string>, preflight: Exit) returns (died: bool)
      requires Valid() && phase == Recovering(todo) && todo != []
      modifies this, journal
      ensures Valid() && phase != Down && (!died ==> phase == Recovering(todo[1..]))
      ensures log == old(log) && Placed() && live == old(live)
      ensures old(calls) <= calls && todo[0] in old(journal.rows) && (!died ==> OnlyRow(todo[0]))
      ensures calm && preflight != Died ==> !died
      ensures calm && preflight != Died ==>
        var row := old(journal.rows)[todo[0]];
        if row.cancelState == Some(Pending) && preflight == Returned
        then row.reference.Some? && TimerSent(Sent(), todo[0], row.reference.value, journal.rows[todo[0]])
        else calls == old(calls) && journal.rows == old(journal.rows)
    {
      hide Valid, Inv, RowSound, TimerRecorded;
      PendingRow(todo);
      var id := todo[0];
      var row := journal.rows[id];
      if row.cancelState != Some(Pending) {
        Skip(todo);
        return false;
      }
      if preflight == Died { return true; }
      if preflight == ApiErrorRaised {
        died := ReportSessionError(calm);
        if !died { Skip(todo); }
        return;
      }
      Begin(todo, row.reference.value);
      died := AwaitDue(calm, row.cancelDue.value);
      if died { return; }
      died := TimedCancel(calm, Recovery(todo[1..]), id, row.reference.value);
      if calm { assert Sent() == [calls[|old(calls)|]]; }
    }

    method RecoverPendingCancellations(calm: bool, todo: seq<string>, preflights: seq<Exit>) returns (died: bool)
      requires Valid() && phase == Recovering(todo) && |preflights| == |todo|
      requires forall i, k :: 0 <= i < k < |todo| ==> todo[i] != todo[k]
      modifies this, journal
      ensures Valid() && phase != Down && (!died ==> phase == Idle)
      ensures log == old(log) && Placed() && live == old(live)
      ensures calm && Died !in preflights ==> !died
      ensures calm && Died !in preflights ==> forall k :: 0 <= k < |todo| ==>
        && todo[k] in old(journal.rows) && todo[k] in journal.rows
        && if Resumes(old(journal.rows), todo[k], preflights[k])
           then
             || CancelSettled(journal.rows[todo[k]].cancelState)
             || journal.rows[todo[k]].cancelState == Some(CancelUnknown)
           else journal.rows[todo[k]] == old(journal.rows)[todo[k]]
    {
      hide Valid, Abs, TimerRecorded;
      for k := 0 to |todo|
        invariant Valid() && phase == Recovering(todo[k..])
        invariant log == old(log) && Placed() && live == old(live)
        invariant forall i :: k <= i < |todo| ==> SameRow(old(journal.rows), journal.rows, todo[i])
        invariant calm && Died !in preflights ==> forall i :: 0 <= i < k ==>
          Recovered(old(journal.rows), journal.rows, todo[i], preflights[i])
      {
        ghost var rows := journal.rows;
        label Before:
        died := RecoverOne(calm, todo[k..], preflights[k]);
        if died { return; }
        assert todo[k..][1..] == todo[k + 1..] && todo[k..][0] == todo[k];
        assert preflights[k] in preflights;
        if calm && Died !in preflights {
          OneRecovered(rows, journal.rows, todo[k], preflights[k], Sent@Before());
          assert SameRow(old(journal.rows), rows, todo[k]);
          forall i | 0 <= i < k
            ensures Recovered(old(journal.rows), journal.rows, todo[i], preflights[i])
          {
            assert todo[i] != todo[k] && Recovered(old(journal.rows), rows, todo[i], preflights[i]);
          }
        }
      }
      FinishRecovery();
      died := false;
    }

    // -------------------------------------------------------------- the consume loop

    /**
     `handle_record`: malformed, foreign and stale records and reused IDs end in a local rejection,
     every other command is executed.
     */
    method HandleRecord(calm: bool, offset: nat, acceptable: bool, around: Surroundings) returns (died: bool)
      requires Valid() && phase == Handling(offset) && offset < |log|
      modifies this, journal
      ensures Valid() && log == old(log) && Placed() && live == old(live)
      ensures phase != Down && (!died ==> phase == ToCommit(offset))
      ensures !(log[offset].Parsed? && acceptable) ==>
        !died && calls == old(calls) && journal.rows == old(journal.rows) && dropped == old(dropped) + {offset}
      ensures log[offset].Parsed? && acceptable && calm ==>
        var c := log[offset].command;
        && !died
        && (c.id in old(journal.rows) ==>
            && calls == old(calls) && journal.rows == old(journal.rows)
            && dropped == old(dropped) + if old(journal.rows)[c.id].digest == FingerprintOf(c) then {} else {offset})
        && (c.id !in old(journal.rows) ==>
            && dropped == old(dropped) && old(calls) <= calls && OnlyRow(c.id)
            && Executed(c, live, UnresolvedIds(old(journal.rows)) != {}, around, Sent(), journal.rows[c.id]))
    {
      hide Legal, After, Init, Executed, FingerprintOf;
      var exit := ApiErrorRaised;
      if log[offset].Parsed? && acceptable {    // record timestamp and command age
        exit := Execute(calm, offset, log[offset].command, around);
      }
      if exit == ApiErrorRaised {
        Note(Abs(), Drop, Abs().(phase := ToCommit(offset), dropped := dropped + {offset}));
      }
      died := exit == Died;
    }

    /** Other processes append to the log at any time. */
    method Arrivals()
      requires Valid()
      modifies this
      ensures Valid() && phase == old(phase) && |log| >= |old(log)| && Placed()
    {
      hide Legal, After, Init;
      ghost var before := Abs();
      var arrives: bool := *;
      if arrives {
        var record: Record := *;
        log := log + [record];
        Note(before, Append(record), before.(log := log));
      }
    }

    /** The first poll of a process without a committed offset takes the end of the log. */
    method Position()
      requires Valid() && phase == Idle
      modifies this
      ensures Valid() && phase == Idle && positioned && log == old(log) && journal.rows == old(journal.rows)
      ensures anchored == old(anchored) && committed == if old(positioned) then old(committed) else |log|
      ensures start == if old(positioned) then old(start) else |log|
    {
      hide Legal, After, Init;
      if !positioned {
        ghost var before := Abs();
        start, committed, positioned := |log|, |log|, true;
        Note(before, Seek, Abs());
      }
    }

    /** Poll, handle, commit. The offset is committed last, and only for a decided record. */
    method ConsumeOne(calm: bool, acceptable: bool, around: Surroundings) returns (died: bool)
      requires Valid() && phase == Idle
      modifies this, journal
      ensures Valid() && phase != Down && (!died ==> phase == Idle)
      ensures var next := if old(positioned) then old(committed) else |old(log)|;
        committed == if !died && next < |old(log)| then next + 1 else next
      ensures start == if old(positioned) then old(start) else |old(log)|
      ensures positioned && (old(anchored) ==> anchored)
      ensures calm ==> !died
    {
      hide Legal, After, Init;
      Position();
      if committed >= |log| { return false; }
      var offset := committed;
      Note(Abs(), Poll, Abs().(phase := Handling(committed)));
      died := HandleRecord(calm, offset, acceptable, around);
      if died { return; }
      died := CommitOffset(calm, offset);
    }

    /** The commit itself may fail, and then the record is delivered again. */
    method CommitOffset(calm: bool, offset: nat) returns (failed: bool)
      requires Valid() && phase == ToCommit(offset)
      modifies this
      ensures Valid() && phase == if failed then ToCommit(offset) else Idle
      ensures committed == if failed then old(committed) else offset + 1
      ensures start == old(start) && positioned == old(positioned) && anchored == (old(anchored) || !failed)
      ensures calm ==> !failed
    {
      hide Legal, After, Init;
      failed := *;
      failed := failed && !calm;
      if !failed {
        ghost var before := Abs();
        committed, anchored := offset + 1, true;
        Note(before, Commit, Abs().(phase := Idle));
      }
    }

    /** One process from start to its end, however it ends. */
    method Process(liveOrders: bool, rounds: nat)
      requires Valid() && phase == Down
      modifies this, journal
      ensures Valid() && phase == Down
      ensures old(anchored) ==> anchored && start == old(start) && committed >= old(committed)
    {
      hide Legal, After, Init;
      var todo := Start(liveOrders);
      var calm: bool := *;
      var preflights := new Exit[|todo|];
      var died := RecoverPendingCancellations(calm, todo, preflights[..]);
      var round := 0;
      while !died && round < rounds
        invariant Valid() && phase != Down && (!died ==> phase == Idle)
        invariant old(anchored) ==> anchored && positioned && start == old(start) && committed >= old(committed)
        decreases rounds - round
      {
        Arrivals();
        var acceptable: bool, around: Surroundings := *, *;
        calm := *;
        died := ConsumeOne(calm, acceptable, around);
        round := round + 1;
      }
      Note(Abs(), Crash, Apply(Abs(), Crash));
    }

    /**
     Any number of processes, each ending at any point of its work. Whatever happened, no
     command was entered twice, no timer fired twice, and every offset committed since the
     reading began is decided; that beginning is the first one if the group had an offset then.
     */
    method Service(processes: nat)
      requires Valid() && phase == Down
      modifies this, journal
      ensures Valid()
      ensures forall id :: EntryCount(calls, id) <= 1 && TimerCount(calls, id) <= 1
      ensures AllDecided(Abs(), start, committed)
      ensures old(anchored) ==> start == old(start)
    {
      hide Legal, After, Init;
      for k := 0 to processes
        invariant Valid() && phase == Down
        invariant old(anchored) ==> anchored && start == old(start)
      {
        var liveOrders: bool := *;
        var rounds: nat :| true;
        Process(liveOrders, rounds);
      }
      Sound();
      forall id
        ensures EntryCount(calls, id) <= 1 && TimerCount(calls, id) <= 1
      {
        CountEntries(calls, id);
        CountTimers(calls, id);
      }
    }
  }

  /** A cancellation that an earlier process had not begun, and whose preflight passes. */
  predicate Resumes(rows: Rows, id: string, preflight: Exit) {
    id in rows && rows[id].cancelState == Some(Pending) && preflight == Returned
  }

  predicate SameRow(before: Rows, after: Rows, id: string) {
    (id in before <==> id in after) && (id in before ==> after[id] == before[id])
  }

  /** What start-up recovery leaves of a row. */
  ghost predicate Recovered(before: Rows, after: Rows, id: string, preflight: Exit) {
    && id in before && id in after
    && if Resumes(before, id, preflight)
       then CancelSettled(after[id].cancelState) || after[id].cancelState == Some(CancelUnknown)
       else after[id] == before[id]
  }

  lemma OneRecovered(before: Rows, after: Rows, id: string, preflight: Exit, sent: seq<Call>)
    requires id in before && id in after
    requires if before[id].cancelState == Some(Pending) && preflight == Returned
             then before[id].reference.Some? && TimerSent(sent, id, before[id].reference.value, after[id])
             else after == before
    ensures Recovered(before, after, id, preflight)
  {
  }

  lemma FreshIsResolved(rows: Rows, c: Command)
    requires c.id !in rows
    ensures UnresolvedIds(rows[c.id := FreshRow(FingerprintOf(c))]) == UnresolvedIds(rows)
  {
  }

  /** The row of an order right after its answer was recorded. */
  function AnsweredRow(c: Command, wire: Wire, due: Option<int>): Row {
    if Usable(wire)
    then Row(FingerprintOf(c), Submitted, wire.reference, due, if due.Some? then Some(Pending) else None)
    else Row(FingerprintOf(c), if Refuses(wire) then Rejected else Unknown, None, due, None)
  }

  lemma OrderIsRecorded(c: Command, entry: Call, wire: Wire, due: Option<int>)
    requires c.TradingCommand? && entry.EntryCall? && entry.id == c.id && entry.wire == wire
    requires due.Some? <==> c.orderType == FokOrder
    requires Usable(wire) ==> due.None?
    ensures OrderRecorded(c, [entry], AnsweredRow(c, wire, due))
  {
    hide FingerprintOf, Names, Refuses;
  }

  lemma TimedOrderIsRecorded(c: Command, entry: Call, wire: Wire, due: Option<int>, timer: Call, row: Row)
    requires c.TradingCommand? && entry.EntryCall? && entry.id == c.id && entry.wire == wire && Usable(wire)
    requires c.orderType == FokOrder && due.Some?
    requires timer.TimerCall? && timer.id == c.id && timer.reference == wire.reference.value && timer.at >= due.value
    requires row == AnsweredRow(c, wire, due).(state := Submitted, cancelState := row.cancelState)
    requires TimerRecorded(row.cancelState, timer.wire)
    ensures OrderRecorded(c, [entry, timer], row)
  {
    hide FingerprintOf, Names, Refuses, TimerRecorded;
    assert [entry, timer][1..] == [timer];
  }

  predicate AllAccepted(sent: seq<Call>) {
    forall k :: 0 <= k < |sent| ==> sent[k].CancelCall? && Accepts(sent[k].wire)
  }

  /** One more cancellation of a batch whose earlier ones were all accepted. */
  lemma BatchGrows(sent: seq<Call>, more: Call, id: string, references: seq<string>)
    requires InOrder(sent, id, references) && AllAccepted(sent) && |sent| < |references|
    requires more.CancelCall? && more.id == id && more.reference == references[|sent|]
    ensures InOrder(sent + [more], id, references)
    ensures Accepts(more.wire) ==> AllAccepted(sent + [more])
    ensures !Accepts(more.wire) ==>
      BatchRecorded(sent + [more], id, references, if Refuses(more.wire) then Rejected else Unknown)
  {
    hide Refuses;
  }

  lemma BatchEnds(sent: seq<Call>, id: string, references: seq<string>)
    requires InOrder(sent, id, references) && AllAccepted(sent) && sent != [] && |sent| == |references|
    ensures BatchRecorded(sent, id, references, CancelRequested)
  {
    assert Accepts(sent[|sent| - 1].wire);
  }

  lemma NoneInOrder(id: string, references: seq<string>)
    ensures InOrder([], id, references) && AllAccepted([])
  {
  }

  /** A usable acceptance, a refusal and everything else, as the client classifies them. */
  lemma AnswerMeans(wire: Wire)
    ensures Classify(wire).Refused? <==> Refuses(wire)
    ensures Classify(wire).Acknowledged? <==> Usable(wire)
    ensures Usable(wire) ==> Classify(wire).reference == wire.reference.value && !Refuses(wire)
  {
    ClassifyMeans(wire);
  }

  lemma SelectedReferences(c: Command, read: seq<CancelSelection.OrderRow>, references: seq<string>)
    requires c.CancelCommand? && references == CancelSelection.OpenReferences(CancelSelection.Selected(c, read))
    ensures references == References(c, read)
  {
  }
}
