/** The publisher's worker loop, proved to take only the scheduler's steps. */
module SchedulerLoop {
  import opened Common
  import opened SchedulerProtocol
  import opened SchedulerCadence

  class HoldingsPublisher {
    const interval: int
    var clock: int
    var requests: seq<Message>     // the inbox queue
    var pending: seq<Entry>        // the heap, a local of `_run`
    var due: int
    var sequence: nat
    var stopping: bool
    ghost var phase: Phase
    ghost var arrived: seq<Message>
    ghost var stopAfter: Option<nat>
    ghost var done: seq<Publication>
    ghost var dues: seq<int>
    ghost const origin: Scheduler
    ghost var run: seq<Step>

    ghost function Abs(): Scheduler
      reads this
    {
      Scheduler(interval, clock, requests, pending, due, sequence, stopping, phase, arrived, stopAfter, done, dues)
    }

    ghost predicate Valid()
      reads this
    {
      Initial(origin) && Legal(origin, run) && Abs() == After(origin, run)
    }

    /** The head of `_run`: the first periodic publication is due at once. */
    constructor (interval: int, clock: int)
      requires interval > 0
      ensures Valid() && phase == Top && arrived == []
    {
      this.interval, this.clock, due := interval, clock, clock;
      requests, pending, sequence, stopping := [], [], 0, false;
      phase, arrived, stopAfter, done, dues := Top, [], None, [], [];
      run := [];
      origin := Scheduler(interval, clock, [], [], clock, 0, false, Top, [], None, [], []);
    }

    ghost method Note(before: Scheduler, a: Step)
      requires Initial(origin) && Legal(origin, run) && before == After(origin, run) && Possible(before, a)
      requires var next := Next(before, a);
        && interval == next.interval && clock == next.now && requests == next.inbox && pending == next.pending
        && due == next.due
        && sequence == next.sequence && stopping == next.stopping
      modifies `phase, `arrived, `stopAfter, `done, `dues, `run
      ensures Valid() && Abs() == Next(before, a) && run == old(run) + [a]
    {
      hide Next, Possible, Legal, After;
      var next := Next(before, a);
      RunExtends(origin, run, a, next);
      phase, arrived, stopAfter := next.phase, next.requests, next.stopAfter;
      done, dues := next.done, next.dues;
      run := run + [a];
    }

    /** `request`, from any thread: the deadline is fixed when the request is made. */
    method Request(reason: string, delay: int)
      requires Valid()
      modifies this
      ensures Valid() && Abs() == Next(old(Abs()), Arrive(delay, reason))
      ensures requests == old(requests) + [Message.Request(old(clock) + delay, reason)]
    {
      ghost var before := Abs();
      requests := requests + [Message.Request(clock + delay, reason)];
      Note(before, Arrive(delay, reason));
    }

    /** `close` queues the stop marker. */
    method Stop()
      requires Valid()
      modifies this
      ensures Valid() && Abs() == Next(old(Abs()), Close)
    {
      ghost var before := Abs();
      requests := requests + [StopMarker];
      Note(before, Close);
    }

    /** What other threads and the clock may do meanwhile. */
    method Meanwhile()
      requires Valid()
      modifies this
      ensures Valid() && phase == old(phase) && clock >= old(clock)
      ensures pending == old(pending) && due == old(due) && sequence == old(sequence) && stopping == old(stopping)
    {
      ghost var before := Abs();
      var elapsed: nat :| true;
      clock := clock + elapsed;
      Note(before, Tick(elapsed));
      var arrives: bool := *;
      if arrives {
        var reason: string := *;
        var delay: int := *;
        Request(reason, delay);
      }
      var closes: bool := *;
      if closes { Stop(); }
    }

    method PopLeast() returns (entry: Entry)
      requires pending != []
      modifies `pending
      ensures entry == old(pending)[Least(old(pending))] && pending == Without(old(pending), Least(old(pending)))
    {
      var k := Least(pending);
      entry, pending := pending[k], Without(pending, k);
    }

    method PublishPeriodic()
      requires Valid() && phase == Top && PeriodicDue(Abs())
      modifies this
      ensures Valid() && phase == Top
    {
      Note(Abs(), Decide);
      Meanwhile();                       // publish("periodic")
      ghost var before := Abs();
      ghost var between: nat := 0;
      due := due + interval;
      if due <= clock {
        var elapsed: nat :| true;
        between := elapsed;
        clock := clock + elapsed;
        due := clock + interval;
      }
      Note(before, EndPeriodic(between));
    }

    method PublishReady()
      requires Valid() && phase == Top && !PeriodicDue(Abs()) && EntryReady(Abs())
      modifies this
      ensures Valid() && phase == Top
    {
      ghost var before := Abs();
      var entry := PopLeast();
      Note(before, Decide);
      Meanwhile();                       // publish(reason)
      Note(Abs(), EndRequest);
    }

    /**
     `queue.get` with a timeout: without a message it gives up at `until`, the earliest deadline,
     and not before. The wait may be cut short by the round bound of this model.
     */
    method Wait() returns (woken: bool, taken: bool, until: int)
      requires Valid() && phase == Top && !PeriodicDue(Abs()) && !EntryReady(Abs()) && !(stopping && pending == [])
      modifies this
      ensures Valid() && (woken ==> phase == Top)
      ensures Deadline(old(Abs()), until) && (!old(stopping) ==> until <= old(due))
      ensures forall k :: 0 <= k < |old(pending)| ==> until <= old(pending)[k].readyAt
      ensures woken && !taken ==> clock >= until
      ensures !taken ==> pending == old(pending) && stopping == old(stopping) && due == old(due)
    {
      hide Legal, After, Initial, Least;
      WakesAtTheFirstDeadline(Abs());
      until := due;
      if pending != [] {
        var first := pending[Least(pending)].readyAt;
        until := if stopping then first else Min(due, first);
      }
      Note(Abs(), Decide);
      Meanwhile();
      woken, taken := true, requests != [];
      if taken {
        Take();
      } else {
        woken := *;
        if woken && clock >= until {
          Note(Abs(), Timeout);
        } else {
          woken := false;
        }
      }
    }

    /** The message at the head of the queue. */
    method Take()
      requires Valid() && phase.Waiting? && requests != []
      modifies this
      ensures Valid() && phase == Top && requests == old(requests)[1..]
      ensures match old(requests)[0]
        case StopMarker => stopping && pending == old(pending)
        case Request(readyAt, reason) =>
          stopping == old(stopping) && pending == old(pending) + [Entry(readyAt, old(sequence), reason)]
    {
      hide Legal, After, Initial;
      ghost var before := Abs();
      var message := requests[0];
      requests := requests[1..];
      match message {
        case StopMarker => stopping := true;
        case Request(readyAt, reason) =>
          pending := pending + [Entry(readyAt, sequence, reason)];
          sequence := sequence + 1;
      }
      Note(before, Get);
    }

    /**
     `_run`, for any number of rounds. If it returns, the heap is empty and every request queued
     before the stop marker has been published exactly once. Periodic publications keep their cadence.
     */
    method Loop(rounds: nat) returns (returned: bool)
      requires Valid() && phase == Top
      modifies this
      ensures Valid() && OnTime(origin, Abs(), Readings(origin, run))
      ensures returned ==> phase == Finished && Drained(Abs())
    {
      for round := 0 to rounds
        invariant Valid() && phase == Top
      {
        Meanwhile();
        if !stopping && due <= clock {
          PublishPeriodic();
        } else if pending != [] && pending[Least(pending)].readyAt <= clock {
          PublishReady();
        } else if stopping && pending == [] {
          Note(Abs(), Decide);
          ReturnsOnlyWhenDrained(origin, run);
          PeriodicCadence(origin, run);
          return true;
        } else {
          var woken, _, _ := Wait();
          if !woken {
            PeriodicCadence(origin, run);
            return false;
          }
        }
      }
      PeriodicCadence(origin, run);
      return false;
    }
  }
}
