/** When the publication worker acts: the exact cadence of periodic publications, and its waits. */
module SchedulerCadence {
  import opened Common
  import opened SchedulerProtocol

  /** The two clock readings at the end of a periodic publication; the second is used only if it is late. */
  datatype Reading = Reading(first: int, second: int)

  /** The readings of a run, one for each periodic publication that has ended. */
  function Readings(s: Scheduler, run: seq<Step>): seq<Reading>
    requires Legal(s, run)
  {
    if run == [] then []
    else
      var before, last := run[..|run| - 1], run[|run| - 1];
      var now := After(s, before).now;
      Readings(s, before) + if last.EndPeriodic? then [Reading(now, now + last.between)] else []
  }

  /** The due time after one whose publication ended with these readings. */
  function FollowingDue(due: int, interval: int, ended: Reading): int {
    if ended.first < due + interval then due + interval else ended.second + interval
  }

  /** Each due time follows from the one before it, the first is the start, and none is left out. */
  predicate OnTime(origin: Scheduler, s: Scheduler, ended: seq<Reading>) {
    var dues := if s.phase == InPeriodic then s.dues else s.dues + [s.due];
    && s.interval == origin.interval && |dues| == |ended| + 1 && dues[0] == origin.now
    && (s.phase == InPeriodic ==> s.due == dues[|ended|])
    && forall k :: 0 <= k < |ended| ==> dues[k + 1] == FollowingDue(dues[k], origin.interval, ended[k])
  }

  lemma OnTimeStep(origin: Scheduler, s: Scheduler, a: Step, ended: seq<Reading>)
    requires Possible(s, a) && OnTime(origin, s, ended)
    ensures OnTime(origin, Next(s, a), ended + if a.EndPeriodic? then [Reading(s.now, s.now + a.between)] else [])
  {
    assert ended + [] == ended;
    if a.EndPeriodic? {
      var reading := Reading(s.now, s.now + a.between);
      var t, more := Next(s, a), ended + [reading];
      var dues := t.dues + [t.due];
      assert t.dues == s.dues && |dues| == |more| + 1;
      assert dues[|ended|] == s.due && dues[|more|] == t.due == FollowingDue(s.due, s.interval, reading);
      forall k | 0 <= k < |more|
        ensures dues[k + 1] == FollowingDue(dues[k], origin.interval, more[k])
      {
        if k < |ended| { assert dues[k + 1] == s.dues[k + 1] && dues[k] == s.dues[k] && more[k] == ended[k]; }
      }
    }
  }

  /**
   Over every run the next periodic publication is due exactly one interval after the last one was,
   if that one ended before then; otherwise one interval after the second reading of the clock.
   */
  lemma {:induction false} PeriodicCadence(s: Scheduler, run: seq<Step>)
    requires Initial(s) && Legal(s, run)
    ensures OnTime(s, After(s, run), Readings(s, run))
    decreases |run|
  {
    hide OnTime, Next, Possible;
    if run == [] {
      StartsOnTime(s);
    } else {
      var before := run[..|run| - 1];
      PeriodicCadence(s, before);
      OnTimeStep(s, After(s, before), run[|run| - 1], Readings(s, before));
    }
  }

  lemma StartsOnTime(s: Scheduler)
    requires Initial(s)
    ensures OnTime(s, s, [])
  {
  }

  /** A periodic publication is begun at a decision exactly if it is due and the worker is not stopping. */
  lemma DuePublicationBegins(s: Scheduler)
    requires Possible(s, Decide)
    ensures Next(s, Decide).phase == InPeriodic <==> !s.stopping && s.due <= s.now
    ensures Next(s, Decide).dues == s.dues + if !s.stopping && s.due <= s.now then [s.due] else []
  {
    assert s.dues + [] == s.dues;
  }

  /** A deadline the worker has to wake for. */
  predicate Deadline(s: Scheduler, at: int) {
    (!s.stopping && at == s.due) || exists k :: 0 <= k < |s.pending| && s.pending[k].readyAt == at
  }

  /** A wait ends at the earliest deadline: the periodic one, unless stopping, or one of the heap. */
  lemma WakesAtTheFirstDeadline(s: Scheduler)
    requires Possible(s, Decide) && Next(s, Decide).phase.Waiting?
    ensures var wakeAt := Next(s, Decide).phase.wakeAt;
      && Deadline(s, wakeAt) && (!s.stopping ==> wakeAt <= s.due)
      && forall k :: 0 <= k < |s.pending| ==> wakeAt <= s.pending[k].readyAt
  {
    hide Least;
    forall k | 0 <= k < |s.pending|
      ensures s.pending[Least(s.pending)].readyAt <= s.pending[k].readyAt
    {
      LeastIsLeast(s.pending, k);
    }
    if s.pending != [] {
      var first := Least(s.pending);
      assert s.pending[first].readyAt == s.pending[first].readyAt;
    }
  }
}
