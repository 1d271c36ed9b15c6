/**
 The durable command protocol as a step machine. A step is one journal transaction, one
 broker call, one Kafka action or the passing of time; a crash is possible between any two.
 The executor's own code is proved to take only these steps in `Execution`.
 */
module CommandProtocol {
  import opened Common
  import opened Commands
  import opened Journal
  import opened BrokerReply
  import CancelSelection

  /** A log record: not for this worker or malformed, or a command addressed to it. */
  datatype Record = Foreign | Parsed(command: Command)

  /** What the outside world has seen. `acted` is the broker's truth, unknown to the program. */
  datatype Call =
    | EntryCall(id: string, wire: Wire, acted: bool)
    | TimerCall(id: string, reference: string, wire: Wire, at: int)
    | CancelCall(id: string, reference: string, wire: Wire, request: Command, read: seq<CancelSelection.OrderRow>)

  /** Who runs a timer cancellation: the command that placed the order, or start-up recovery. */
  datatype Owner = Live(offset: nat, command: Command) | Recovery(todo: seq<string>)

  /** Where the one consumer thread stands. `Down` between processes. */
  datatype Phase =
    | Down
    | Recovering(todo: seq<string>)
    | Idle
    | Handling(offset: nat)
    | Claimed(offset: nat, command: Command)
    | Preparing(offset: nat, command: Command)
    | Dispatched(offset: nat, command: Command)
    | Answered(offset: nat, command: Command, result: WriteResult)
    | TimerWait(owner: Owner, id: string, reference: string)
    | TimerReady(owner: Owner, id: string, reference: string)
    | TimerAnswered(owner: Owner, id: string, reference: string, result: WriteResult)
    | Cancelling(offset: nat, command: Command, references: seq<string>, next: nat, read: seq<CancelSelection.OrderRow>)
    | CancelStopped(offset: nat, command: Command, refused: bool)
    | Reporting(offset: nat, command: Command)   // a session error is being reported, which may raise
    | ToCommit(offset: nat)

  /**
   `log`, `committed`, `anchored`, `rows` and `calls` survive crashes. `committed` is the next
   offset to deliver; until the group has committed once (`anchored`) each process takes the end
   of the log instead, when it first polls (`positioned`). `start` (where the reading that led to
   `committed` began), `dropped` (offsets refused before execution) and `interrupted` (IDs whose
   execution a crash cut short) exist for the proofs.
   */
  datatype World = World(
    cancelAfter: nat, start: nat, live: bool, clock: int,
    log: seq<Record>, committed: nat, anchored: bool, positioned: bool, rows: Rows, calls: seq<Call>,
    phase: Phase, dropped: set<nat>, interrupted: set<string>)

  datatype Action =
    | Tick(delay: nat)
    | Append(record: Record)
    | Crash
    | Restart(liveOrders: bool, todo: seq<string>)
    | RecoverSkip
    | RecoverBegin
    | RecoverDone
    | Seek
    | Poll
    | Drop
    | Claim
    | Duplicate
    | Disable
    | Block
    | Proceed
    | Dispatch
    | FindNothing
    | DispatchCancels(read: seq<CancelSelection.OrderRow>)
    | Enter(wire: Wire, acted: bool)
    | RecordSubmitted
    | RecordRejected
    | RecordUnknown
    | StartTimer
    | TimerCancel(wire: Wire)
    | RecordTimer(outcome: CancelState)
    | SendCancel(wire: Wire)
    | RecordCancels
    | Interrupt
    | Reported
    | Commit

  function CurrentId(phase: Phase): Option<string> {
    match phase
    case Claimed(_, c) => Some(c.id)
    case Preparing(_, c) => Some(c.id)
    case Dispatched(_, c) => Some(c.id)
    case Answered(_, c, _) => Some(c.id)
    case Cancelling(_, c, _, _, _) => Some(c.id)
    case CancelStopped(_, c, _) => Some(c.id)
    case _ => None
  }

  /** The command of a phase in which the outer `except Exception` handler can run. */
  function Interruptible(phase: Phase): Option<(nat, Command)> {
    match phase
    case Preparing(o, c) => Some((o, c))
    case Answered(o, c, _) => Some((o, c))
    case TimerWait(Live(o, c), _, _) => Some((o, c))
    case TimerAnswered(Live(o, c), _, _, _) => Some((o, c))
    case Cancelling(o, c, refs, next, _) => if next == |refs| then Some((o, c)) else None
    case CancelStopped(o, c, _) => Some((o, c))
    case Reporting(o, c) => Some((o, c))
    case _ => None
  }

  /** What the outer handler writes, by the state it finds. */
  function OuterState(found: RowState): RowState {
    if found in {Dispatching, Submitted} then Unknown else Rejected
  }

  function Due(w: World, c: Command): Option<int> {
    if TimedPrint(FingerprintOf(c)) then Some(w.clock + w.cancelAfter) else None
  }

  /** A batch goes on only after an acknowledged cancellation. */
  function AfterBatchCancel(offset: nat, c: Command, references: seq<string>, next: nat,
                            read: seq<CancelSelection.OrderRow>, result: WriteResult): Phase {
    if result.Refused? || result.Uncertain? then CancelStopped(offset, c, result.Refused?)
    else Cancelling(offset, c, references, next + 1, read)
  }

  /** The references a cancel command selects from the rows it has read. */
  function References(c: Command, read: seq<CancelSelection.OrderRow>): seq<string>
    requires c.CancelCommand?
  {
    CancelSelection.OpenReferences(CancelSelection.Selected(c, read))
  }

  /** The command accepts the rows read, and this is the reference of one of its open orders there. */
  predicate Covers(c: Command, read: seq<CancelSelection.OrderRow>, reference: string) {
    c.CancelCommand? && CancelSelection.Accepts(c, read) && reference in References(c, read)
  }

  /** Steps that write one journal row. */
  predicate IsWrite(a: Action) {
    || a.Claim? || a.Disable? || a.Block? || a.Dispatch? || a.FindNothing? || a.DispatchCancels? || a.RecordSubmitted?
    || a.RecordRejected? || a.RecordUnknown? || a.StartTimer? || a.RecordTimer? || a.RecordCancels? || a.Interrupt?
  }

  /** Steps that call the broker. */
  predicate IsCall(a: Action) {
    a.Enter? || a.TimerCancel? || a.SendCancel?
  }

  /** The command of the record being handled. */
  function Handled(w: World): Option<Command> {
    if w.phase.Handling? && w.phase.offset < |w.log| && w.log[w.phase.offset].Parsed?
    then Some(w.log[w.phase.offset].command) else None
  }

  predicate EnabledQuiet(w: World, a: Action) {
    match a
    case Tick(_) => true
    case Append(_) => true
    case Crash => w.phase != Down
    case Restart(liveOrders, todo) =>
      w.phase == Down && if liveOrders then Lists(todo, PendingIds(w.rows)) else todo == []
    case RecoverSkip => w.phase.Recovering? && w.phase.todo != []
    case RecoverBegin =>
      && w.phase.Recovering? && w.phase.todo != [] && w.phase.todo[0] in w.rows
      && w.rows[w.phase.todo[0]].cancelState == Some(Pending) && w.rows[w.phase.todo[0]].reference.Some?
    case RecoverDone => w.phase == Recovering([])
    case Seek => w.phase == Idle && !w.positioned
    case Poll => w.phase == Idle && w.positioned && w.committed < |w.log|
    case Drop => w.phase.Handling? && w.phase.offset < |w.log|
    case Duplicate =>
      Handled(w).Some? && var c := Handled(w).value; c.id in w.rows && w.rows[c.id].digest == FingerprintOf(c)
    case Proceed => w.phase.Claimed? && w.live && UnresolvedIds(w.rows) == {}
    case Reported => w.phase.Reporting?
    case Commit => w.phase.ToCommit?
    case _ => false
  }

  predicate EnabledWrite(w: World, a: Action) {
    match a
    case Claim => Handled(w).Some? && Handled(w).value.id !in w.rows
    case Disable => w.phase.Claimed? && w.phase.command.id in w.rows && !w.live
    case Block => w.phase.Claimed? && w.phase.command.id in w.rows && w.live && UnresolvedIds(w.rows) != {}
    case Dispatch => w.phase.Preparing? && w.phase.command.TradingCommand? && w.phase.command.id in w.rows
    case FindNothing => w.phase.Preparing? && w.phase.command.CancelCommand? && w.phase.command.id in w.rows
    case DispatchCancels(read) =>
      && w.phase.Preparing? && w.phase.command.CancelCommand? && w.phase.command.id in w.rows
      && CancelSelection.Accepts(w.phase.command, read) && References(w.phase.command, read) != []
    case RecordSubmitted => w.phase.Answered? && w.phase.result.Acknowledged? && w.phase.command.id in w.rows
    case RecordRejected => w.phase.Answered? && w.phase.result.Refused? && w.phase.command.id in w.rows
    case RecordUnknown => w.phase.Answered? && w.phase.command.id in w.rows
    case StartTimer =>
      && w.phase.TimerWait? && w.phase.id in w.rows && w.rows[w.phase.id].cancelDue.Some?
      && w.clock >= w.rows[w.phase.id].cancelDue.value
    case RecordTimer(outcome) =>
      && w.phase.TimerAnswered? && w.phase.id in w.rows
      && outcome in {Requested, CancelRejected, CancelUnknown}
      && (outcome == Requested ==> w.phase.result.Acknowledged? || w.phase.result.AcknowledgedBlank?)
      && (outcome == CancelRejected ==> w.phase.result.Refused?)
    case RecordCancels =>
      || (w.phase.Cancelling? && w.phase.next == |w.phase.references| && w.phase.command.id in w.rows)
      || (w.phase.CancelStopped? && w.phase.command.id in w.rows)
    case Interrupt => Interruptible(w.phase).Some? && Interruptible(w.phase).value.1.id in w.rows
    case _ => false
  }

  predicate EnabledCall(w: World, a: Action) {
    match a
    case Enter(wire, acted) => w.phase.Dispatched? && Honest(wire, acted)
    case TimerCancel(_) => w.phase.TimerReady?
    case SendCancel(_) => w.phase.Cancelling? && w.phase.next < |w.phase.references|
    case _ => false
  }

  predicate Enabled(w: World, a: Action) {
    if IsWrite(a) then EnabledWrite(w, a) else if IsCall(a) then EnabledCall(w, a) else EnabledQuiet(w, a)
  }

  /** One journal row as a write leaves it, and where the thread goes on. */
  datatype RowWrite = RowWrite(id: string, row: Row, next: Phase)

  function StateWrite(w: World, id: string, state: RowState, next: Phase): RowWrite
    requires id in w.rows
  {
    RowWrite(id, UpdatedRow(w.rows[id], state, None, None, None), next)
  }

  function WriteOf(w: World, a: Action): RowWrite
    requires IsWrite(a) && EnabledWrite(w, a)
  {
    var p := w.phase;
    match a
    case Claim =>
      var c := Handled(w).value;
      RowWrite(c.id, FreshRow(FingerprintOf(c)), Claimed(p.offset, c))
    case Disable => StateWrite(w, p.command.id, Disabled, ToCommit(p.offset))
    case Block => StateWrite(w, p.command.id, Blocked, ToCommit(p.offset))
    case Dispatch =>
      RowWrite(p.command.id, UpdatedRow(w.rows[p.command.id], Dispatching, None, Due(w, p.command), None),
               Dispatched(p.offset, p.command))
    case FindNothing => StateWrite(w, p.command.id, NoAction, ToCommit(p.offset))
    case DispatchCancels(read) =>
      StateWrite(w, p.command.id, Dispatching, Cancelling(p.offset, p.command, References(p.command, read), 0, read))
    case RecordSubmitted =>
      var timed := w.rows[p.command.id].cancelDue.Some?;
      RowWrite(p.command.id,
               UpdatedRow(w.rows[p.command.id], Submitted, Some(p.result.reference), None,
                          if timed then Some(Pending) else None),
               if timed then TimerWait(Live(p.offset, p.command), p.command.id, p.result.reference)
               else ToCommit(p.offset))
    case RecordRejected => StateWrite(w, p.command.id, Rejected, Reporting(p.offset, p.command))
    case RecordUnknown => StateWrite(w, p.command.id, Unknown, ToCommit(p.offset))
    case StartTimer =>
      RowWrite(p.id, UpdatedRow(w.rows[p.id], Submitted, None, None, Some(CancelDispatching)),
               TimerReady(p.owner, p.id, p.reference))
    case RecordTimer(outcome) =>
      RowWrite(p.id, UpdatedRow(w.rows[p.id], Submitted, None, None, Some(outcome)), AfterTimer(p.owner, outcome))
    case RecordCancels =>
      if p.Cancelling? then StateWrite(w, p.command.id, CancelRequested, ToCommit(p.offset))
      else if p.refused then StateWrite(w, p.command.id, Rejected, Reporting(p.offset, p.command))
      else StateWrite(w, p.command.id, Unknown, ToCommit(p.offset))
    case Interrupt =>
      var (o, c) := Interruptible(p).value;
      StateWrite(w, c.id, OuterState(w.rows[c.id].state), ToCommit(o))
  }

  function AfterTimer(owner: Owner, outcome: CancelState): Phase {
    match owner
    case Recovery(todo) => Recovering(todo)
    case Live(o, c) => if outcome == CancelRejected then Reporting(o, c) else ToCommit(o)
  }

  function CallOf(w: World, a: Action): Call
    requires IsCall(a) && EnabledCall(w, a)
  {
    match a
    case Enter(wire, acted) => EntryCall(w.phase.command.id, wire, acted)
    case TimerCancel(wire) => TimerCall(w.phase.id, w.phase.reference, wire, w.clock)
    case SendCancel(wire) =>
      CancelCall(w.phase.command.id, w.phase.references[w.phase.next], wire, w.phase.command, w.phase.read)
  }

  function PhaseAfterCall(w: World, a: Action): Phase
    requires IsCall(a) && EnabledCall(w, a)
  {
    var p := w.phase;
    match a
    case Enter(wire, _) => Answered(p.offset, p.command, Classify(wire))
    case TimerCancel(wire) => TimerAnswered(p.owner, p.id, p.reference, Classify(wire))
    case SendCancel(wire) => AfterBatchCancel(p.offset, p.command, p.references, p.next, p.read, Classify(wire))
  }

  function ApplyQuiet(w: World, a: Action): World
    requires EnabledQuiet(w, a)
  {
    match a
    case Tick(delay) => w.(clock := w.clock + delay)
    case Append(record) => w.(log := w.log + [record])
    case Crash =>
      w.(phase := Down,
         interrupted := w.interrupted + if CurrentId(w.phase).Some? then {CurrentId(w.phase).value} else {})
    case Restart(liveOrders, todo) => w.(live := liveOrders, phase := Recovering(todo), positioned := w.anchored)
    case RecoverSkip => w.(phase := Recovering(w.phase.todo[1..]))
    case RecoverBegin =>
      var id := w.phase.todo[0];
      w.(phase := TimerWait(Recovery(w.phase.todo[1..]), id, w.rows[id].reference.value))
    case RecoverDone => w.(phase := Idle)
    case Seek => w.(start := |w.log|, committed := |w.log|, positioned := true)
    case Poll => w.(phase := Handling(w.committed))
    case Drop => w.(phase := ToCommit(w.phase.offset), dropped := w.dropped + {w.phase.offset})
    case Duplicate => w.(phase := ToCommit(w.phase.offset))
    case Proceed => w.(phase := Preparing(w.phase.offset, w.phase.command))
    case Reported => w.(phase := ToCommit(w.phase.offset))
    case Commit => w.(committed := w.phase.offset + 1, anchored := true, phase := Idle)
  }

  function ApplyWrite(w: World, write: RowWrite): World {
    w.(rows := w.rows[write.id := write.row], phase := write.next)
  }

  function Apply(w: World, a: Action): World
    requires Enabled(w, a)
  {
    if IsWrite(a) then ApplyWrite(w, WriteOf(w, a))
    else if IsCall(a) then w.(calls := w.calls + [CallOf(w, a)], phase := PhaseAfterCall(w, a))
    else ApplyQuiet(w, a)
  }

  predicate Init(w: World) {
    && w.start == w.committed <= |w.log| && w.rows == map[] && w.calls == [] && w.phase == Down
    && w.dropped == {} && w.interrupted == {}
  }

  /** Every action of the run is possible where it happens. */
  predicate Legal(w: World, run: seq<Action>)
    decreases |run|, 0
  {
    run != [] ==> Legal(w, run[..|run| - 1]) && Enabled(After(w, run[..|run| - 1]), run[|run| - 1])
  }

  function After(w: World, run: seq<Action>): World
    requires Legal(w, run)
    decreases |run|, 1
  {
    if run == [] then w else Apply(After(w, run[..|run| - 1]), run[|run| - 1])
  }

  // ---------------------------------------------------------------- the invariant

  predicate Acks(c: Call, id: string, reference: Option<string>) {
    c.EntryCall? && c.id == id && Classify(c.wire).Acknowledged? && reference == Some(Classify(c.wire).reference)
  }

  predicate TimerResult(c: Call, id: string, outcome: CancelState) {
    && c.TimerCall? && c.id == id
    && (outcome == Requested ==> Classify(c.wire).Acknowledged? || Classify(c.wire).AcknowledgedBlank?)
    && (outcome == CancelRejected ==> Classify(c.wire).Refused?)
  }

  /** A success reply to this ID's order entry carried this reference. */
  predicate Acked(calls: seq<Call>, id: string, reference: Option<string>) {
    exists k :: 0 <= k < |calls| && Acks(calls[k], id, reference)
  }

  /** A reply to this ID's timer cancellation settled it this way. */
  predicate TimerSettled(calls: seq<Call>, id: string, outcome: CancelState) {
    exists k :: 0 <= k < |calls| && TimerResult(calls[k], id, outcome)
  }

  /** What the journal must say about one call that the broker has received. */
  predicate CallRecorded(w: World, c: Call) {
    && c.id in w.rows
    && var row := w.rows[c.id];
       match c
       case EntryCall(_, wire, acted) =>
         && row.digest.OrderPrint? && Honest(wire, acted)
         && (|| row.state in {Dispatching, Unknown}
             || (row.state == Submitted && Classify(wire).Acknowledged?
                 && row.reference == Some(Classify(wire).reference))
             || (row.state == Rejected && Classify(wire).Refused?))
       case TimerCall(_, reference, _, at) =>
         && row.cancelState.Some? && row.cancelState.value != Pending
         && row.cancelDue.Some? && at >= row.cancelDue.value && row.reference == Some(reference)
       case CancelCall(_, reference, _, request, read) =>
         && request.id == c.id && row.digest == FingerprintOf(request) && row.digest.CancelPrint?
         && Covers(request, read, reference) && row.state in {Dispatching, Unknown, Rejected, CancelRequested}
  }

  predicate CallsRecorded(w: World) {
    forall k :: 0 <= k < |w.calls| ==> CallRecorded(w, w.calls[k])
  }

  /** Two calls that must not both be made: the same entry, timer or batch cancellation twice. */
  predicate Repeats(a: Call, b: Call) {
    && a.id == b.id
    && (|| (a.EntryCall? && b.EntryCall?)
        || (a.TimerCall? && b.TimerCall?)
        || (a.CancelCall? && b.CancelCall? && a.reference == b.reference))
  }

  predicate CallsUnique(w: World) {
    forall i, k :: 0 <= i < k < |w.calls| ==> !Repeats(w.calls[i], w.calls[k])
  }

  /** A batch in progress: distinct covered references, of which only the first `next` were sent. */
  predicate Batch(w: World, c: Command, references: seq<string>, next: nat, read: seq<CancelSelection.OrderRow>) {
    && next <= |references|
    && (forall k :: 0 <= k < |references| ==> Covers(c, read, references[k]))
    && (forall i, k :: 0 <= i < k < |references| ==> references[i] != references[k])
    && (forall k :: 0 <= k < |w.calls| && w.calls[k].CancelCall? && w.calls[k].id == c.id ==>
          w.calls[k].reference in references[..next])
  }

  /** What one journal row promises by itself and about the calls made. */
  predicate RowSound(w: World, id: string)
    requires id in w.rows
  {
    var row := w.rows[id];
    && (row.state == Submitted ==> row.reference.Some?)
    && (row.reference.Some? ==> Acked(w.calls, id, row.reference))
    && (row.cancelState.Some? ==> row.cancelDue.Some? && row.reference.Some? && row.state in {Submitted, Unknown})
    && (row.state == Submitted && row.cancelDue.Some? ==> row.cancelState.Some?)
    && (row.state in {Dispatching, Submitted, Unknown} ==> (row.cancelDue.Some? <==> TimedPrint(row.digest)))
    && (CancelSettled(row.cancelState) ==> TimerSettled(w.calls, id, row.cancelState.value))
    && (row.state in {Received, Dispatching} ==> id in w.interrupted || CurrentId(w.phase) == Some(id))
  }

  predicate RowsSound(w: World) {
    forall id :: id in w.rows ==> RowSound(w, id)
  }

  predicate OneUnresolved(w: World) {
    forall a, b :: a in w.rows && b in w.rows && IsUnresolved(w.rows[a]) && IsUnresolved(w.rows[b]) ==> a == b
  }

  /** No row but this one awaits reconciliation. */
  predicate Alone(w: World, id: string) {
    forall x :: x in w.rows && IsUnresolved(w.rows[x]) ==> x == id
  }

  predicate AtRecord(w: World, offset: nat, c: Command) {
    && w.positioned && offset == w.committed < |w.log| && w.log[offset] == Parsed(c)
    && c.id in w.rows && w.rows[c.id].digest == FingerprintOf(c)
  }

  predicate NoEntry(w: World, id: string) {
    forall k :: 0 <= k < |w.calls| && w.calls[k].EntryCall? ==> w.calls[k].id != id
  }

  predicate NoTimer(w: World, id: string) {
    forall k :: 0 <= k < |w.calls| && w.calls[k].TimerCall? ==> w.calls[k].id != id
  }

  predicate TodoSound(w: World, todo: seq<string>) {
    && (forall k :: 0 <= k < |todo| ==> todo[k] in w.rows && IsPendingCancellation(w.rows[todo[k]]))
    && (forall i, k :: 0 <= i < k < |todo| ==> todo[i] != todo[k])
  }

  predicate OwnerSound(w: World, owner: Owner, id: string) {
    match owner
    case Live(o, c) => AtRecord(w, o, c) && c.id == id && Alone(w, id)
    case Recovery(todo) => TodoSound(w, todo) && id !in todo
  }

  predicate TimerRow(w: World, id: string, reference: string, state: CancelState) {
    && id in w.rows && w.rows[id].state == Submitted && w.rows[id].reference == Some(reference)
    && w.rows[id].cancelDue.Some? && w.rows[id].cancelState == Some(state)
  }

  /**
   The record at this offset has an outcome: it was refused before execution, or its command
   is in the journal under its own fingerprint.
   */
  predicate Decided(w: World, offset: nat) {
    && offset < |w.log|
    && (offset in w.dropped || (w.log[offset].Parsed? && var c := w.log[offset].command;
                                c.id in w.rows && w.rows[c.id].digest == FingerprintOf(c)))
  }

  predicate PhaseSound(w: World) {
    match w.phase
    case Down => true
    case Idle => true
    case Recovering(todo) => TodoSound(w, todo)
    case Handling(o) => w.positioned && o == w.committed < |w.log|
    case Claimed(o, c) => AtRecord(w, o, c) && w.rows[c.id] == FreshRow(FingerprintOf(c))
    case Preparing(o, c) => AtRecord(w, o, c) && w.rows[c.id] == FreshRow(FingerprintOf(c)) && Alone(w, c.id)
    case Dispatched(o, c) =>
      && AtRecord(w, o, c) && Alone(w, c.id) && c.TradingCommand? && NoEntry(w, c.id)
      && w.rows[c.id].state == Dispatching && w.rows[c.id].reference.None? && w.rows[c.id].cancelState.None?
    case Answered(o, c, result) =>
      && AtRecord(w, o, c) && Alone(w, c.id)
      && w.rows[c.id].state == Dispatching && w.rows[c.id].reference.None? && w.rows[c.id].cancelState.None?
      && |w.calls| > 0 && var last := w.calls[|w.calls| - 1];
         last.EntryCall? && last.id == c.id && Classify(last.wire) == result
    case TimerWait(owner, id, reference) =>
      OwnerSound(w, owner, id) && TimerRow(w, id, reference, Pending)
    case TimerReady(owner, id, reference) =>
      && OwnerSound(w, owner, id) && TimerRow(w, id, reference, CancelDispatching) && NoTimer(w, id)
      && w.clock >= w.rows[id].cancelDue.value
    case TimerAnswered(owner, id, reference, result) =>
      && OwnerSound(w, owner, id) && TimerRow(w, id, reference, CancelDispatching)
      && |w.calls| > 0 && var last := w.calls[|w.calls| - 1];
         last.TimerCall? && last.id == id && Classify(last.wire) == result
    case Cancelling(o, c, refs, next, read) =>
      && AtRecord(w, o, c) && Alone(w, c.id) && c.CancelCommand? && w.rows[c.id].state == Dispatching
      && Batch(w, c, refs, next, read)
    case CancelStopped(o, c, _) =>
      AtRecord(w, o, c) && Alone(w, c.id) && c.CancelCommand? && w.rows[c.id].state == Dispatching
    case Reporting(o, c) =>
      AtRecord(w, o, c) && Alone(w, c.id) && w.rows[c.id].state in {Rejected, Submitted}
    case ToCommit(o) => w.positioned && o == w.committed && Decided(w, o)
  }

  predicate LogDecided(w: World) {
    && w.start <= w.committed <= |w.log| && (!w.anchored ==> w.start == w.committed)
    && (w.anchored && w.phase != Down ==> w.positioned)
    && forall o :: w.start <= o < w.committed ==> Decided(w, o)
  }

  predicate InterruptedKnown(w: World) {
    forall id :: id in w.interrupted ==> id in w.rows
  }

  predicate Inv(w: World) {
    && InterruptedKnown(w) && CallsRecorded(w) && CallsUnique(w) && RowsSound(w) && OneUnresolved(w) && LogDecided(w)
    && PhaseSound(w)
  }

  // ---------------------------------------------------------------- preservation

  predicate IsQuiet(a: Action) {
    !IsWrite(a) && !IsCall(a)
  }

  lemma QuietFrame(w: World, a: Action)
    requires IsQuiet(a) && EnabledQuiet(w, a)
    ensures var w' := ApplyQuiet(w, a);
      && w'.rows == w.rows && w'.calls == w.calls && (a != Seek ==> w'.start == w.start)
      && |w.log| <= |w'.log| && w'.log[..|w.log|] == w.log
      && w.dropped <= w'.dropped && w.interrupted <= w'.interrupted
      && (a != Commit && a != Seek ==> w'.committed == w.committed)
  {
  }

  /** A write makes a fresh row or keeps the digest of the one it changes. */
  lemma WriteKeepsDigest(w: World, a: Action)
    requires IsWrite(a) && EnabledWrite(w, a)
    ensures var write := WriteOf(w, a);
      if a == Claim then write.id !in w.rows else write.id in w.rows && write.row.digest == w.rows[write.id].digest
  {
  }

  lemma DecidedStep(w: World, a: Action, offset: nat)
    requires Enabled(w, a) && Decided(w, offset)
    ensures Decided(Apply(w, a), offset)
  {
    if IsWrite(a) {
      WriteKeepsDigest(w, a);
    } else if IsQuiet(a) {
      QuietFrame(w, a);
      assert Apply(w, a).log[offset] == w.log[offset];
    }
  }

  lemma LogDecidedStep(w: World, a: Action)
    requires Inv(w) && Enabled(w, a)
    ensures LogDecided(Apply(w, a))
  {
    var w' := Apply(w, a);
    if IsQuiet(a) { QuietFrame(w, a); }
    forall o | w'.start <= o < w'.committed
      ensures Decided(w', o)
    {
      assert Decided(w, o);
      DecidedStep(w, a, o);
    }
  }

  lemma InterruptedKnownStep(w: World, a: Action)
    requires Inv(w) && Enabled(w, a)
    ensures InterruptedKnown(Apply(w, a))
  {
    if IsQuiet(a) {
      QuietFrame(w, a);
      if a != Crash { assert Apply(w, a).interrupted == w.interrupted; }
    }
  }

  /** A row becomes unresolved only while no other row is. */
  lemma WriteAlone(w: World, a: Action)
    requires Inv(w) && IsWrite(a) && EnabledWrite(w, a) && IsUnresolved(WriteOf(w, a).row)
    ensures Alone(w, WriteOf(w, a).id)
  {
    hide CallsRecorded, CallsUnique, RowsSound, LogDecided, InterruptedKnown, Batch;
  }

  lemma OneUnresolvedStep(w: World, a: Action)
    requires Inv(w) && Enabled(w, a)
    ensures OneUnresolved(Apply(w, a))
  {
    hide CallsRecorded, CallsUnique, RowsSound, LogDecided, InterruptedKnown, PhaseSound;
    if IsWrite(a) {
      if IsUnresolved(WriteOf(w, a).row) { WriteAlone(w, a); }
    } else if IsQuiet(a) {
      QuietFrame(w, a);
    }
  }

  lemma NewCallUnique(w: World, a: Action, k: nat)
    requires Inv(w) && IsCall(a) && EnabledCall(w, a) && k < |w.calls|
    ensures !Repeats(w.calls[k], CallOf(w, a))
  {
    hide Covers;
  }

  lemma CallsUniqueStep(w: World, a: Action)
    requires Inv(w) && Enabled(w, a)
    ensures CallsUnique(Apply(w, a))
  {
    if IsCall(a) {
      forall k | 0 <= k < |w.calls|
        ensures !Repeats(w.calls[k], CallOf(w, a))
      {
        NewCallUnique(w, a, k);
      }
    } else if IsQuiet(a) {
      QuietFrame(w, a);
    }
  }

  // ------------------------------------------------ calls stay recorded

  /** Until a command is dispatched no call about it has been made. */
  lemma NoCallsYet(w: World, id: string, k: nat)
    requires CallsRecorded(w) && k < |w.calls|
    requires id in w.rows ==> w.rows[id].state == Received && w.rows[id].cancelState.None?
    ensures w.calls[k].id != id
  {
    assert CallRecorded(w, w.calls[k]);
  }

  predicate BeforeDispatch(phase: Phase) {
    phase.Handling? || phase.Claimed? || phase.Preparing?
  }

  lemma EarlyWriteFresh(w: World, a: Action)
    requires Inv(w) && IsWrite(a) && EnabledWrite(w, a) && BeforeDispatch(w.phase)
    ensures var id := WriteOf(w, a).id; id in w.rows ==> w.rows[id].state == Received && w.rows[id].cancelState.None?
  {
  }

  lemma AnsweredCallRecorded(w: World, a: Action, k: nat)
    requires Inv(w) && IsWrite(a) && EnabledWrite(w, a) && w.phase.Answered?
    requires k < |w.calls| && WriteOf(w, a).id == w.calls[k].id
    ensures CallRecorded(ApplyWrite(w, WriteOf(w, a)), w.calls[k])
  {
    var c, last := w.calls[k], w.calls[|w.calls| - 1];
    assert CallRecorded(w, c) && CallRecorded(w, last);
    assert c.EntryCall? ==> k == |w.calls| - 1;
  }

  lemma TimerRowCallRecorded(w: World, a: Action, k: nat)
    requires Inv(w) && IsWrite(a) && EnabledWrite(w, a) && (w.phase.TimerWait? || w.phase.TimerAnswered?)
    requires k < |w.calls| && WriteOf(w, a).id == w.calls[k].id
    ensures CallRecorded(ApplyWrite(w, WriteOf(w, a)), w.calls[k])
  {
    assert CallRecorded(w, w.calls[k]);
  }

  lemma LateRowCallRecorded(w: World, a: Action, k: nat)
    requires Inv(w) && IsWrite(a) && EnabledWrite(w, a)
    requires w.phase.Cancelling? || w.phase.CancelStopped? || w.phase.Reporting?
    requires k < |w.calls| && WriteOf(w, a).id == w.calls[k].id
    ensures CallRecorded(ApplyWrite(w, WriteOf(w, a)), w.calls[k])
  {
    assert CallRecorded(w, w.calls[k]);
    assert RowSound(w, w.calls[k].id);
    LateWriteRow(w, a);
  }

  lemma WritePhases(w: World, a: Action)
    requires IsWrite(a) && EnabledWrite(w, a)
    ensures BeforeDispatch(w.phase) || w.phase.Answered? || w.phase.TimerWait? || w.phase.TimerAnswered?
      || w.phase.Cancelling? || w.phase.CancelStopped? || w.phase.Reporting?
  {
  }

  lemma WrittenCallRecorded(w: World, a: Action, k: nat)
    requires Inv(w) && IsWrite(a) && EnabledWrite(w, a) && k < |w.calls|
    ensures CallRecorded(ApplyWrite(w, WriteOf(w, a)), w.calls[k])
  {
    hide CallsUnique, RowsSound, LogDecided, InterruptedKnown, OneUnresolved, Batch, Covers;
    WritePhases(w, a);
    if WriteOf(w, a).id != w.calls[k].id {
      assert CallRecorded(w, w.calls[k]);
    } else if BeforeDispatch(w.phase) {
      EarlyWriteFresh(w, a);
      NoCallsYet(w, WriteOf(w, a).id, k);
    } else if w.phase.Answered? {
      AnsweredCallRecorded(w, a, k);
    } else if w.phase.TimerWait? || w.phase.TimerAnswered? {
      TimerRowCallRecorded(w, a, k);
    } else {
      LateRowCallRecorded(w, a, k);
    }
  }

  lemma NewCallRecorded(w: World, a: Action)
    requires Inv(w) && IsCall(a) && EnabledCall(w, a)
    ensures CallRecorded(w, CallOf(w, a))
  {
  }

  lemma CallsRecordedStep(w: World, a: Action)
    requires Inv(w) && Enabled(w, a)
    ensures CallsRecorded(Apply(w, a))
  {
    hide CallsUnique, RowsSound, LogDecided, InterruptedKnown, OneUnresolved, PhaseSound, Covers;
    var w' := Apply(w, a);
    forall k | 0 <= k < |w'.calls|
      ensures CallRecorded(w', w'.calls[k])
    {
      if IsWrite(a) {
        WrittenCallRecorded(w, a, k);
      } else if IsCall(a) {
        NewCallRecorded(w, a);
        assert k < |w.calls| ==> CallRecorded(w, w.calls[k]);
      } else {
        QuietFrame(w, a);
        assert CallRecorded(w, w.calls[k]);
      }
    }
  }

  // ------------------------------------------------ rows stay sound

  /** A row promises the same to a longer list of calls. */
  lemma EvidenceKept(calls: seq<Call>, c: Call, id: string, reference: Option<string>, outcome: CancelState)
    ensures Acked(calls, id, reference) ==> Acked(calls + [c], id, reference)
    ensures TimerSettled(calls, id, outcome) ==> TimerSettled(calls + [c], id, outcome)
  {
    if Acked(calls, id, reference) {
      var k :| 0 <= k < |calls| && Acks(calls[k], id, reference);
      assert Acks((calls + [c])[k], id, reference);
    }
    if TimerSettled(calls, id, outcome) {
      var k :| 0 <= k < |calls| && TimerResult(calls[k], id, outcome);
      assert TimerResult((calls + [c])[k], id, outcome);
    }
  }

  /** A command in hand is left by writing its row, unless a crash is noted. */
  lemma CurrentKept(w: World, a: Action, id: string)
    requires Enabled(w, a) && CurrentId(w.phase) == Some(id) && (IsWrite(a) ==> WriteOf(w, a).id != id)
    ensures CurrentId(Apply(w, a).phase) == Some(id) || id in Apply(w, a).interrupted
  {
  }

  lemma CallRowSound(w: World, a: Action, id: string)
    requires Enabled(w, a) && IsCall(a) && id in w.rows && RowSound(w, id)
    ensures RowSound(Apply(w, a), id)
  {
    hide Acked, TimerSettled, Classify, References, EnabledWrite, WriteOf, TimedPrint;
    var row := w.rows[id];
    var outcome := if row.cancelState.Some? then row.cancelState.value else Pending;
    EvidenceKept(w.calls, CallOf(w, a), id, row.reference, outcome);
    if CurrentId(w.phase) == Some(id) { CurrentKept(w, a, id); }
  }

  lemma QuietRowSound(w: World, a: Action, id: string)
    requires Enabled(w, a) && IsQuiet(a) && id in w.rows && RowSound(w, id)
    ensures id in Apply(w, a).rows && RowSound(Apply(w, a), id)
  {
    QuietFrame(w, a);
    if CurrentId(w.phase) == Some(id) { CurrentKept(w, a, id); }
  }

  lemma OtherRowSound(w: World, a: Action, id: string)
    requires Enabled(w, a) && IsWrite(a) && id in w.rows && RowSound(w, id) && WriteOf(w, a).id != id
    ensures RowSound(Apply(w, a), id)
  {
    if CurrentId(w.phase) == Some(id) { CurrentKept(w, a, id); }
  }

  /** A row that names no reference and no cancellation makes few promises. */
  lemma PlainRowSound(w: World, id: string)
    requires id in w.rows && w.rows[id].reference.None? && w.rows[id].cancelState.None? && w.rows[id].state != Submitted
    requires w.rows[id].state in {Dispatching, Unknown} ==>
      (w.rows[id].cancelDue.Some? <==> TimedPrint(w.rows[id].digest))
    requires w.rows[id].state in {Received, Dispatching} ==> CurrentId(w.phase) == Some(id)
    ensures RowSound(w, id)
  {
  }

  lemma EarlyWriteRow(w: World, a: Action)
    requires Inv(w) && IsWrite(a) && EnabledWrite(w, a) && BeforeDispatch(w.phase)
    ensures var row := WriteOf(w, a).row;
      && row.reference.None? && row.cancelState.None? && row.state !in {Submitted, Unknown}
      && (row.state == Dispatching ==> (row.cancelDue.Some? <==> TimedPrint(row.digest)))
      && (row.state in {Received, Dispatching} ==> CurrentId(WriteOf(w, a).next) == Some(WriteOf(w, a).id))
  {
  }

  lemma EarlyRowSound(w: World, a: Action)
    requires Inv(w) && IsWrite(a) && EnabledWrite(w, a) && BeforeDispatch(w.phase)
    ensures RowSound(ApplyWrite(w, WriteOf(w, a)), WriteOf(w, a).id)
  {
    EarlyWriteRow(w, a);
    PlainRowSound(ApplyWrite(w, WriteOf(w, a)), WriteOf(w, a).id);
  }

  lemma AnsweredRowSound(w: World, a: Action)
    requires Inv(w) && IsWrite(a) && EnabledWrite(w, a) && w.phase.Answered?
    ensures RowSound(ApplyWrite(w, WriteOf(w, a)), WriteOf(w, a).id)
  {
    var id := WriteOf(w, a).id;
    assert RowSound(w, id);
    if a == RecordSubmitted {
      assert Acks(w.calls[|w.calls| - 1], id, WriteOf(w, a).row.reference);
    }
  }

  lemma TimerRowSound(w: World, a: Action)
    requires Inv(w) && IsWrite(a) && EnabledWrite(w, a) && (w.phase.TimerAnswered? || w.phase.TimerWait?)
    ensures RowSound(ApplyWrite(w, WriteOf(w, a)), WriteOf(w, a).id)
  {
    var id := WriteOf(w, a).id;
    assert RowSound(w, id);
    if a.RecordTimer? {
      assert TimerResult(w.calls[|w.calls| - 1], id, a.outcome);
    }
  }

  lemma LateRowSound(w: World, a: Action)
    requires Inv(w) && IsWrite(a) && EnabledWrite(w, a)
    requires w.phase.Cancelling? || w.phase.CancelStopped? || w.phase.Reporting?
    ensures RowSound(ApplyWrite(w, WriteOf(w, a)), WriteOf(w, a).id)
  {
    hide CallsUnique, LogDecided, InterruptedKnown, CallsRecorded, OneUnresolved, Batch;
    assert RowSound(w, WriteOf(w, a).id);
    LateWriteRow(w, a);
  }

  /** The last writes of a command change nothing but its state, which is then decided. */
  lemma LateWriteRow(w: World, a: Action)
    requires IsWrite(a) && EnabledWrite(w, a)
    requires w.phase.Cancelling? || w.phase.CancelStopped? || w.phase.Reporting?
    ensures var write := WriteOf(w, a);
      && write.id in w.rows && write.row == w.rows[write.id].(state := write.row.state)
      && write.row.state == (if a == Interrupt then OuterState(w.rows[write.id].state)
                             else if w.phase.Cancelling? then CancelRequested
                             else if w.phase.refused then Rejected else Unknown)
  {
  }

  lemma WrittenRowSound(w: World, a: Action)
    requires Inv(w) && IsWrite(a) && EnabledWrite(w, a)
    ensures RowSound(ApplyWrite(w, WriteOf(w, a)), WriteOf(w, a).id)
  {
    WritePhases(w, a);
    if BeforeDispatch(w.phase) {
      EarlyRowSound(w, a);
    } else if w.phase.Answered? {
      AnsweredRowSound(w, a);
    } else if w.phase.TimerAnswered? || w.phase.TimerWait? {
      TimerRowSound(w, a);
    } else {
      LateRowSound(w, a);
    }
  }

  lemma RowsSoundStep(w: World, a: Action)
    requires Inv(w) && Enabled(w, a)
    ensures RowsSound(Apply(w, a))
  {
    if IsQuiet(a) { QuietFrame(w, a); }
    forall id | id in Apply(w, a).rows
      ensures RowSound(Apply(w, a), id)
    {
      if IsWrite(a) && WriteOf(w, a).id == id {
        WrittenRowSound(w, a);
      } else {
        assert RowSound(w, id);
        if IsWrite(a) {
          OtherRowSound(w, a, id);
        } else if IsCall(a) {
          CallRowSound(w, a, id);
        } else {
          QuietRowSound(w, a, id);
        }
      }
    }
  }

  // ------------------------------------------------ the thread stays where the journal says

  lemma TodoSoundKept(w: World, write: RowWrite, todo: seq<string>)
    requires TodoSound(w, todo) && write.id !in todo
    ensures TodoSound(ApplyWrite(w, write), todo)
  {
  }

  predicate IsAmbient(a: Action) {
    a.Tick? || a.Append?
  }

  lemma LaterPhaseSound(w: World, clock: int)
    requires PhaseSound(w) && clock >= w.clock
    ensures PhaseSound(w.(clock := clock))
  {
  }

  lemma LongerPhaseSound(w: World, record: Record)
    requires PhaseSound(w)
    ensures PhaseSound(w.(log := w.log + [record]))
  {
  }

  lemma AmbientPhaseSound(w: World, a: Action)
    requires Inv(w) && Enabled(w, a) && IsAmbient(a)
    ensures PhaseSound(Apply(w, a))
  {
    hide CallsUnique, RowsSound, LogDecided, InterruptedKnown, CallsRecorded, OneUnresolved, PhaseSound;
    if a.Tick? {
      LaterPhaseSound(w, w.clock + a.delay);
    } else {
      LongerPhaseSound(w, a.record);
    }
  }

  lemma RecoverBeginPhaseSound(w: World)
    requires Inv(w) && Enabled(w, RecoverBegin)
    ensures PhaseSound(Apply(w, RecoverBegin))
  {
    hide CallsUnique, CallsRecorded, InterruptedKnown, OneUnresolved, LogDecided, Batch, Covers, Classify;
    assert RowSound(w, w.phase.todo[0]);
  }

  lemma ProceedPhaseSound(w: World)
    requires Inv(w) && Enabled(w, Proceed)
    ensures PhaseSound(Apply(w, Proceed))
  {
    hide CallsUnique, CallsRecorded, InterruptedKnown, OneUnresolved, LogDecided, RowsSound, Batch, Covers, Classify;
    assert forall x :: x in w.rows && IsUnresolved(w.rows[x]) ==> x in UnresolvedIds(w.rows);
  }

  lemma QuietPhaseSound(w: World, a: Action)
    requires Inv(w) && Enabled(w, a) && IsQuiet(a) && !IsAmbient(a)
    ensures PhaseSound(Apply(w, a))
  {
    hide CallsUnique, CallsRecorded, InterruptedKnown, RowsSound, OneUnresolved, Batch, Covers;
    if a.RecoverBegin? {
      RecoverBeginPhaseSound(w);
    } else if a.Proceed? {
      ProceedPhaseSound(w);
    }
  }

  lemma DispatchPhaseSound(w: World, a: Action)
    requires Inv(w) && EnabledWrite(w, a) && a == Dispatch
    ensures PhaseSound(ApplyWrite(w, WriteOf(w, a)))
  {
    forall k | 0 <= k < |w.calls|
      ensures w.calls[k].id != w.phase.command.id
    {
      NoCallsYet(w, w.phase.command.id, k);
    }
  }

  lemma EarlyPhaseSound(w: World, a: Action)
    requires Inv(w) && IsWrite(a) && EnabledWrite(w, a) && BeforeDispatch(w.phase)
    ensures PhaseSound(ApplyWrite(w, WriteOf(w, a)))
  {
    if a == Dispatch {
      DispatchPhaseSound(w, a);
    } else if a.DispatchCancels? {
      BatchStarts(w, a.read);
    }
  }

  lemma BatchStarts(w: World, read: seq<CancelSelection.OrderRow>)
    requires Inv(w) && EnabledWrite(w, DispatchCancels(read))
    ensures PhaseSound(ApplyWrite(w, WriteOf(w, DispatchCancels(read))))
  {
    hide RowsSound, CallsUnique, LogDecided, InterruptedKnown, OneUnresolved;
    var c := w.phase.command;
    CancelSelection.OpenAreDistinct(CancelSelection.Selected(c, read));
    forall k | 0 <= k < |w.calls|
      ensures w.calls[k].id != c.id
    {
      NoCallsYet(w, c.id, k);
    }
  }

  lemma AnsweredPhaseSound(w: World, a: Action)
    requires Inv(w) && IsWrite(a) && EnabledWrite(w, a) && w.phase.Answered?
    ensures PhaseSound(ApplyWrite(w, WriteOf(w, a)))
  {
  }

  lemma StartTimerPhaseSound(w: World)
    requires Inv(w) && EnabledWrite(w, StartTimer)
    ensures PhaseSound(ApplyWrite(w, WriteOf(w, StartTimer)))
  {
    hide CallsUnique, LogDecided, InterruptedKnown, Batch, Covers, Classify, OneUnresolved;
    if w.phase.owner.Recovery? {
      TodoSoundKept(w, WriteOf(w, StartTimer), w.phase.owner.todo);
    }
    forall k | 0 <= k < |w.calls| && w.calls[k].TimerCall?
      ensures w.calls[k].id != w.phase.id
    {
      assert CallRecorded(w, w.calls[k]);
    }
  }

  lemma RecordTimerPhaseSound(w: World, outcome: CancelState)
    requires Inv(w) && EnabledWrite(w, RecordTimer(outcome))
    ensures PhaseSound(ApplyWrite(w, WriteOf(w, RecordTimer(outcome))))
  {
    hide CallsUnique, RowsSound, LogDecided, InterruptedKnown, CallsRecorded, Batch, Classify, Acked, TimerSettled;
    if w.phase.owner.Recovery? {
      TodoSoundKept(w, WriteOf(w, RecordTimer(outcome)), w.phase.owner.todo);
    } else {
      LiveTimerPhaseSound(w, outcome);
    }
  }

  lemma LiveTimerPhaseSound(w: World, outcome: CancelState)
    requires Inv(w) && EnabledWrite(w, RecordTimer(outcome)) && w.phase.owner.Live?
    ensures PhaseSound(ApplyWrite(w, WriteOf(w, RecordTimer(outcome))))
  {
    hide CallsUnique, RowsSound, LogDecided, InterruptedKnown, CallsRecorded, Batch, Classify, Acked, TimerSettled;
  }

  lemma InterruptPhaseSound(w: World)
    requires Inv(w) && EnabledWrite(w, Interrupt)
    ensures PhaseSound(ApplyWrite(w, WriteOf(w, Interrupt)))
  {
  }

  lemma CancelPhaseSound(w: World)
    requires Inv(w) && EnabledWrite(w, RecordCancels)
    ensures PhaseSound(ApplyWrite(w, WriteOf(w, RecordCancels)))
  {
  }

  lemma WritePhaseSound(w: World, a: Action)
    requires Inv(w) && IsWrite(a) && EnabledWrite(w, a)
    ensures PhaseSound(ApplyWrite(w, WriteOf(w, a)))
  {
    if a == Interrupt {
      InterruptPhaseSound(w);
    } else if BeforeDispatch(w.phase) {
      EarlyPhaseSound(w, a);
    } else if w.phase.Answered? {
      AnsweredPhaseSound(w, a);
    } else if a == StartTimer {
      StartTimerPhaseSound(w);
    } else if a.RecordTimer? {
      RecordTimerPhaseSound(w, a.outcome);
    } else {
      CancelPhaseSound(w);
    }
  }

  lemma CallPhaseSound(w: World, a: Action)
    requires Inv(w) && IsCall(a) && EnabledCall(w, a)
    ensures PhaseSound(Apply(w, a))
  {
    hide CallsUnique, RowsSound, LogDecided, InterruptedKnown, CallsRecorded, OneUnresolved, Covers;
  }

  lemma PhaseSoundStep(w: World, a: Action)
    requires Inv(w) && Enabled(w, a)
    ensures PhaseSound(Apply(w, a))
  {
    if IsWrite(a) {
      WritePhaseSound(w, a);
    } else if IsCall(a) {
      CallPhaseSound(w, a);
    } else if IsAmbient(a) {
      AmbientPhaseSound(w, a);
    } else {
      QuietPhaseSound(w, a);
    }
  }

  /** Every possible step, crashes included, keeps the invariant. */
  lemma InvStep(w: World, a: Action)
    requires Inv(w) && Enabled(w, a)
    ensures Inv(Apply(w, a))
  {
    hide CallsUnique, RowsSound, LogDecided, InterruptedKnown, OneUnresolved, PhaseSound, CallsRecorded, Apply, Enabled;
    InterruptedKnownStep(w, a);
    LogDecidedStep(w, a);
    OneUnresolvedStep(w, a);
    CallsUniqueStep(w, a);
    CallsRecordedStep(w, a);
    RowsSoundStep(w, a);
    PhaseSoundStep(w, a);
  }

  lemma {:induction false} InvRun(w: World, run: seq<Action>)
    requires Inv(w) && Legal(w, run)
    ensures Inv(After(w, run))
    decreases |run|
  {
    if run != [] {
      InvRun(w, run[..|run| - 1]);
      InvStep(After(w, run[..|run| - 1]), run[|run| - 1]);
    }
  }
}
