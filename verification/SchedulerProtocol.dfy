/**
 The publication scheduler as a step machine: a FIFO inbox that any thread may fill, a heap of
 deadlines, a periodic deadline and a draining shutdown. `heapq` is taken at its contract, so
 the heap is a bag from which the least entry is popped. Times are integer ticks.
 */
module SchedulerProtocol {
  import opened Common

  datatype Message = Request(readyAt: int, reason: string) | StopMarker

  datatype Entry = Entry(readyAt: int, arrival: nat, reason: string)

  datatype Publication = Publication(entry: Entry, at: int)

  /** Where the worker thread stands in its loop. */
  datatype Phase = Top | InPeriodic | InRequest | Waiting(wakeAt: int) | Finished

  /**
   `requests` (all requests in queueing order), `stopAfter` (how many of them precede the first
   stop marker), `done` and `dues` exist for the proofs.
   */
  datatype Scheduler = Scheduler(
    interval: int, now: int, inbox: seq<Message>, pending: seq<Entry>, due: int, sequence: nat,
    stopping: bool, phase: Phase,
    requests: seq<Message>, stopAfter: Option<nat>, done: seq<Publication>, dues: seq<int>)

  datatype Step =
    | Tick(elapsed: nat)
    | Arrive(delay: int, reason: string)   // `request`, by any thread
    | Close                                // the stop marker
    | Decide
    | EndPeriodic(between: nat)            // time between the two clock readings
    | EndRequest
    | Get
    | Timeout

  /** Tuple order of heap entries; arrival numbers are distinct, so reasons never decide. */
  predicate Before(a: Entry, b: Entry) {
    a.readyAt < b.readyAt || (a.readyAt == b.readyAt && a.arrival <= b.arrival)
  }

  function Least(pending: seq<Entry>): (k: nat)
    requires pending != []
    ensures k < |pending|
  {
    if |pending| == 1 then 0
    else
      var k := Least(pending[..|pending| - 1]);
      if Before(pending[k], pending[|pending| - 1]) then k else |pending| - 1
  }

  function Without(pending: seq<Entry>, k: nat): seq<Entry>
    requires k < |pending|
  {
    pending[..k] + pending[k + 1..]
  }

  predicate EntryReady(s: Scheduler) {
    s.pending != [] && s.pending[Least(s.pending)].readyAt <= s.now
  }

  predicate PeriodicDue(s: Scheduler) {
    !s.stopping && s.due <= s.now
  }

  /** The earlier of the periodic deadline, unless stopping, and the first heap deadline. */
  function WakeAt(s: Scheduler): int {
    if s.pending == [] then s.due
    else
      var first := s.pending[Least(s.pending)].readyAt;
      if s.stopping then first else Min(s.due, first)
  }

  predicate Possible(s: Scheduler, a: Step) {
    match a
    case Tick(_) => true
    case Arrive(_, _) => true
    case Close => true
    case Decide => s.phase == Top
    case EndPeriodic(_) => s.phase == InPeriodic
    case EndRequest => s.phase == InRequest
    case Get => s.phase.Waiting? && s.inbox != []
    case Timeout => s.phase.Waiting? && s.inbox == [] && s.now >= s.phase.wakeAt
  }

  function Decided(s: Scheduler): Scheduler {
    if PeriodicDue(s) then s.(phase := InPeriodic, dues := s.dues + [s.due])
    else if EntryReady(s) then
      var k := Least(s.pending);
      s.(phase := InRequest, pending := Without(s.pending, k), done := s.done + [Publication(s.pending[k], s.now)])
    else if s.stopping && s.pending == [] then s.(phase := Finished)
    else s.(phase := Waiting(WakeAt(s)))
  }

  /** A late periodic deadline restarts from a second reading of the clock. */
  function AfterPeriodic(s: Scheduler, between: nat): Scheduler {
    if s.due + s.interval <= s.now then s.(now := s.now + between, due := s.now + between + s.interval)
    else s.(due := s.due + s.interval)
  }

  function Read(s: Scheduler): Scheduler
    requires s.inbox != []
  {
    match s.inbox[0]
    case StopMarker => s.(inbox := s.inbox[1..], stopping := true)
    case Request(readyAt, reason) =>
      s.(inbox := s.inbox[1..], pending := s.pending + [Entry(readyAt, s.sequence, reason)], sequence := s.sequence + 1)
  }

  function Next(s: Scheduler, a: Step): Scheduler
    requires Possible(s, a)
  {
    match a
    case Tick(elapsed) => s.(now := s.now + elapsed)
    case Arrive(delay, reason) =>
      var message := Request(s.now + delay, reason);
      s.(inbox := s.inbox + [message], requests := s.requests + [message])
    case Close =>
      s.(inbox := s.inbox + [StopMarker], stopAfter := if s.stopAfter.Some? then s.stopAfter else Some(|s.requests|))
    case Decide => Decided(s)
    case EndPeriodic(between) => AfterPeriodic(s, between).(phase := Top)
    case EndRequest => s.(phase := Top)
    case Get => Read(s).(phase := Top)
    case Timeout => s.(phase := Top)
  }

  predicate Initial(s: Scheduler) {
    && s.interval > 0 && s.inbox == [] && s.pending == [] && s.due == s.now && s.sequence == 0 && !s.stopping
    && s.phase == Top
    && s.requests == [] && s.stopAfter.None? && s.done == [] && s.dues == []
  }

  predicate Legal(s: Scheduler, run: seq<Step>)
    decreases |run|, 0
  {
    run != [] ==> Legal(s, run[..|run| - 1]) && Possible(After(s, run[..|run| - 1]), run[|run| - 1])
  }

  function After(s: Scheduler, run: seq<Step>): Scheduler
    requires Legal(s, run)
    decreases |run|, 1
  {
    if run == [] then s else Next(After(s, run[..|run| - 1]), run[|run| - 1])
  }

  // ---------------------------------------------------------------- the invariant

  function RequestsIn(messages: seq<Message>): seq<Message> {
    if messages == [] then []
    else (if messages[0].Request? then [messages[0]] else []) + RequestsIn(messages[1..])
  }

  /** How many requests come before the first stop marker. */
  function RequestsBeforeStop(messages: seq<Message>): Option<nat> {
    if messages == [] then None
    else if messages[0].StopMarker? then Some(0)
    else
      var rest := RequestsBeforeStop(messages[1..]);
      if rest.Some? then Some(rest.value + 1) else None
  }

  /** The heap entries that reading the first `count` requests makes. */
  function EntriesOf(requests: seq<Message>, count: nat): seq<Entry>
    requires count <= |requests| && forall k :: 0 <= k < |requests| ==> requests[k].Request?
  {
    seq(count, k requires 0 <= k < count => Entry(requests[k].readyAt, k, requests[k].reason))
  }

  function Entries(done: seq<Publication>): seq<Entry> {
    seq(|done|, k requires 0 <= k < |done| => done[k].entry)
  }

  /** Every request read so far is in the heap or published, in exactly one of the two, once. */
  predicate Accounted(s: Scheduler) {
    && s.sequence <= |s.requests| && (forall k :: 0 <= k < |s.requests| ==> s.requests[k].Request?)
    && RequestsIn(s.inbox) == s.requests[s.sequence..]
    && multiset(s.pending) + multiset(Entries(s.done)) == multiset(EntriesOf(s.requests, s.sequence))
  }

  predicate StopAccounted(s: Scheduler) {
    if s.stopping then s.stopAfter.Some? && s.stopAfter.value <= s.sequence
    else
      match RequestsBeforeStop(s.inbox)
      case None => s.stopAfter.None?
      case Some(count) => s.stopAfter == Some(s.sequence + count)
  }

  predicate NeverEarly(s: Scheduler) {
    forall k :: 0 <= k < |s.done| ==> s.done[k].at >= s.done[k].entry.readyAt
  }

  predicate DuesApart(s: Scheduler) {
    && s.interval > 0
    && (forall k :: 0 <= k < |s.dues| - 1 ==> s.dues[k + 1] >= s.dues[k] + s.interval)
    && (s.dues != [] && s.phase != InPeriodic ==> s.due >= s.dues[|s.dues| - 1] + s.interval)
    && (s.phase == InPeriodic ==> s.dues != [] && s.due == s.dues[|s.dues| - 1] && s.due <= s.now)
  }

  predicate FinishedDrained(s: Scheduler) {
    s.phase == Finished ==> s.stopping && s.pending == []
  }

  predicate Inv(s: Scheduler) {
    Accounted(s) && StopAccounted(s) && NeverEarly(s) && DuesApart(s) && FinishedDrained(s)
  }

  // ---------------------------------------------------------------- preservation

  lemma {:induction false} LeastIsLeast(pending: seq<Entry>, k: nat)
    requires k < |pending|
    ensures Before(pending[Least(pending)], pending[k])
  {
    if |pending| > 1 {
      var shorter := pending[..|pending| - 1];
      if k < |shorter| { LeastIsLeast(shorter, k); }
    }
  }

  lemma WithoutMultiset(pending: seq<Entry>, k: nat)
    requires k < |pending|
    ensures multiset(pending) == multiset(Without(pending, k)) + multiset{pending[k]}
  {
    assert pending == pending[..k] + [pending[k]] + pending[k + 1..];
  }

  lemma {:induction false} RequestsAppend(messages: seq<Message>, m: Message)
    ensures RequestsIn(messages + [m]) == RequestsIn(messages) + if m.Request? then [m] else []
    ensures RequestsBeforeStop(messages + [m]) ==
      if RequestsBeforeStop(messages).Some? then RequestsBeforeStop(messages)
      else if m.StopMarker? then Some(|RequestsIn(messages)|) else None
  {
    if messages != [] {
      RequestsAppend(messages[1..], m);
      assert (messages + [m])[1..] == messages[1..] + [m];
    }
  }

  lemma ArriveAccounted(s: Scheduler, m: Message)
    requires Accounted(s) && m.Request?
    ensures Accounted(s.(inbox := s.inbox + [m], requests := s.requests + [m]))
  {
    RequestsAppend(s.inbox, m);
    assert (s.requests + [m])[s.sequence..] == s.requests[s.sequence..] + [m];
    assert EntriesOf(s.requests + [m], s.sequence) == EntriesOf(s.requests, s.sequence);
  }

  lemma ArriveInv(s: Scheduler, delay: int, reason: string)
    requires Inv(s)
    ensures Inv(Next(s, Arrive(delay, reason)))
  {
    hide Least, Without;
    ArriveAccounted(s, Request(s.now + delay, reason));
    RequestsAppend(s.inbox, Request(s.now + delay, reason));
  }

  lemma CloseInv(s: Scheduler)
    requires Inv(s)
    ensures Inv(Next(s, Close))
  {
    RequestsAppend(s.inbox, StopMarker);
  }

  lemma PopAccounted(s: Scheduler)
    requires Accounted(s) && s.phase == Top && !PeriodicDue(s) && EntryReady(s)
    ensures Accounted(Next(s, Decide))
  {
    var k := Least(s.pending);
    WithoutMultiset(s.pending, k);
    var p := Publication(s.pending[k], s.now);
    assert Entries(s.done + [p]) == Entries(s.done) + [p.entry];
  }

  lemma PopInv(s: Scheduler)
    requires Inv(s) && s.phase == Top && !PeriodicDue(s) && EntryReady(s)
    ensures Inv(Next(s, Decide))
  {
    hide Accounted;
    PopAccounted(s);
  }

  lemma ReadAccounted(s: Scheduler)
    requires Accounted(s) && s.inbox != [] && s.inbox[0].Request?
    ensures Accounted(Read(s))
  {
    assert RequestsIn(s.inbox)[0] == s.inbox[0] == s.requests[s.sequence];
    assert RequestsIn(s.inbox[1..]) == RequestsIn(s.inbox)[1..];
    var e := Entry(s.inbox[0].readyAt, s.sequence, s.inbox[0].reason);
    assert EntriesOf(s.requests, s.sequence + 1) == EntriesOf(s.requests, s.sequence) + [e];
  }

  lemma ReadStop(s: Scheduler)
    requires StopAccounted(s) && s.inbox != []
    ensures StopAccounted(Read(s))
  {
  }

  lemma ReadInv(s: Scheduler)
    requires Inv(s) && Possible(s, Get)
    ensures Inv(Next(s, Get))
  {
    ReadStop(s);
    if s.inbox[0].Request? { ReadAccounted(s); }
  }

  /** Steps that move no request. */
  lemma FrameInv(s: Scheduler, t: Scheduler)
    requires Inv(s) && DuesApart(t) && FinishedDrained(t)
    requires t == s.(now := t.now, due := t.due, phase := t.phase, dues := t.dues)
    ensures Inv(t)
  {
  }

  lemma DecideInv(s: Scheduler)
    requires Inv(s) && Possible(s, Decide)
    ensures Inv(Next(s, Decide))
  {
    if !PeriodicDue(s) && EntryReady(s) {
      PopInv(s);
    } else {
      FrameInv(s, Next(s, Decide));
    }
  }

  lemma ClockInv(s: Scheduler, a: Step)
    requires Inv(s) && Possible(s, a) && (a.EndPeriodic? || a.EndRequest? || a.Timeout? || a.Tick?)
    ensures Inv(Next(s, a))
  {
    FrameInv(s, Next(s, a));
  }

  lemma InvStep(s: Scheduler, a: Step)
    requires Inv(s) && Possible(s, a)
    ensures Inv(Next(s, a))
  {
    match a {
      case Arrive(delay, reason) => ArriveInv(s, delay, reason);
      case Close => CloseInv(s);
      case Get => ReadInv(s);
      case Decide => DecideInv(s);
      case _ => ClockInv(s, a);
    }
  }

  lemma {:induction false} InvRun(s: Scheduler, run: seq<Step>)
    requires Initial(s) && Legal(s, run)
    ensures Inv(After(s, run))
    decreases |run|
  {
    if run != [] {
      InvRun(s, run[..|run| - 1]);
      InvStep(After(s, run[..|run| - 1]), run[|run| - 1]);
    }
  }

  // ---------------------------------------------------------------- guarantees over every run

  /**
   No request read is ever lost or doubled, none is published before its deadline, and periodic
   due points are at least one interval apart.
   */
  lemma EveryRequestOnceAndOnTime(s: Scheduler, run: seq<Step>)
    requires Initial(s) && Legal(s, run)
    ensures var end := After(s, run);
      && Accounted(end)
      && (forall k :: 0 <= k < |end.done| ==> end.done[k].at >= end.done[k].entry.readyAt)
      && (forall k :: 0 <= k < |end.dues| - 1 ==> end.dues[k + 1] >= end.dues[k] + end.interval)
  {
    InvRun(s, run);
  }

  /** The request with this arrival number has been published exactly once. */
  predicate PublishedOnce(s: Scheduler, arrival: nat) {
    && arrival < |s.requests| && s.requests[arrival].Request?
    && multiset(Entries(s.done))[Entry(s.requests[arrival].readyAt, arrival, s.requests[arrival].reason)] == 1
  }

  /** Nothing is left to publish of what was queued before the stop marker. */
  predicate Drained(s: Scheduler) {
    s.stopAfter.Some? && s.pending == [] && forall arrival: nat :: arrival < s.stopAfter.value ==>
      PublishedOnce(s, arrival)
  }

  /** The worker returns only when drained: all requests queued before the stop marker are out, once each. */
  lemma ReturnsOnlyWhenDrained(s: Scheduler, run: seq<Step>)
    requires Initial(s) && Legal(s, run) && After(s, run).phase == Finished
    ensures Drained(After(s, run))
  {
    InvRun(s, run);
    var end := After(s, run);
    assert multiset(end.pending) == multiset{};
    forall arrival: nat | arrival < end.stopAfter.value
      ensures PublishedOnce(end, arrival)
    {
      OnceEach(end.requests, end.sequence, arrival);
    }
  }

  lemma RunExtends(s: Scheduler, run: seq<Step>, a: Step, next: Scheduler)
    requires Legal(s, run) && Possible(After(s, run), a) && next == Next(After(s, run), a)
    ensures Legal(s, run + [a]) && After(s, run + [a]) == next
  {
    assert (run + [a])[..|run|] == run;
  }

  lemma {:induction false} OnceEach(requests: seq<Message>, count: nat, arrival: nat)
    requires arrival < count <= |requests| && forall k :: 0 <= k < |requests| ==> requests[k].Request?
    ensures var request := requests[arrival];
      multiset(EntriesOf(requests, count))[Entry(request.readyAt, arrival, request.reason)] == 1
  {
    var all, e := EntriesOf(requests, count), Entry(requests[arrival].readyAt, arrival, requests[arrival].reason);
    assert all == all[..arrival] + [e] + all[arrival + 1..];
    assert e !in all[..arrival] && e !in all[arrival + 1..];
  }

  /** A request is published only when no entry with an earlier (deadline, arrival) is in the heap. */
  lemma PublishesTheLeast(s: Scheduler, k: nat)
    requires Possible(s, Decide) && Next(s, Decide).phase == InRequest && k < |s.pending|
    ensures var p := Next(s, Decide).done[|Next(s, Decide).done| - 1];
      && p.entry in s.pending && p.at == s.now >= p.entry.readyAt
      && (p.entry.readyAt < s.pending[k].readyAt ||
          (p.entry.readyAt == s.pending[k].readyAt && p.entry.arrival <= s.pending[k].arrival))
  {
    LeastIsLeast(s.pending, k);
  }

  /** Waiting always has a finite end, and nothing is ready when it starts. */
  lemma WaitsOnlyForTheFuture(s: Scheduler)
    requires Possible(s, Decide) && Next(s, Decide).phase.Waiting?
    ensures Next(s, Decide).phase.wakeAt > s.now && !(s.stopping && s.pending == [])
  {
  }

  predicate TimeStands(phase: Phase) {
    phase == Top
  }

  /** Time moves only inside a publication or a wait. */
  predicate Timely(s: Scheduler, run: seq<Step>)
    requires Legal(s, run)
    decreases |run|
  {
    run != [] ==>
      Timely(s, run[..|run| - 1]) && (run[|run| - 1].Tick? ==> !TimeStands(After(s, run[..|run| - 1]).phase))
  }

  /** A periodic publication has ended and nothing has been decided since. */
  predicate PeriodicEnded(run: seq<Step>) {
    run != [] &&
    var last := run[|run| - 1];
    last.EndPeriodic? || ((last.Tick? || last.Arrive? || last.Close?) && PeriodicEnded(run[..|run| - 1]))
  }

  lemma {:induction false} DueAfterPeriodic(s: Scheduler, run: seq<Step>)
    requires Initial(s) && Legal(s, run) && Timely(s, run)
    ensures PeriodicEnded(run) ==> After(s, run).phase == Top && After(s, run).due > After(s, run).now
    decreases |run|
  {
    if run != [] {
      DueAfterPeriodic(s, run[..|run| - 1]);
      InvRun(s, run[..|run| - 1]);
    }
  }

  /**
   A ready entry is never passed over by two periodic publications in a row, when time moves
   only in publish and wait: after a periodic publication the next decision takes the entry.
   */
  lemma ReadyEntryIsNotStarved(s: Scheduler, run: seq<Step>)
    requires Initial(s) && Legal(s, run) && Timely(s, run)
    requires Possible(After(s, run), Decide) && PeriodicEnded(run) && EntryReady(After(s, run))
    ensures Next(After(s, run), Decide).phase == InRequest
  {
    DueAfterPeriodic(s, run);
  }
}
