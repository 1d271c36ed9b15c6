/**
 The login recovery schedule: one logout episode, its reserved deadlines and its saved form.
 Times are exact real Unix seconds.
 */
module Recovery {
  import opened Common

  const LOGOUT_REASONS: set<string> :=
    {"session_invalid", "session_expired", "logged_out", "logged_in_elsewhere", "000102", "000112"}
  const BLOCK_REASONS: set<string> :=
    {"credentials", "verification_required", "unsupported", "manual_intervention", "login_rejected"}

  // Years 1 to 9999 in UTC, the range a `datetime` can hold.
  const FIRST_INSTANT := -62135596800.0
  const END_OF_TIME := 253402300800.0
  const BEIJING_OFFSET := 28800.0

  predicate ValidTime(t: real) {
    FIRST_INSTANT <= t < END_OF_TIME
  }

  function BeijingHour(t: real): int {
    ((t + BEIJING_OFFSET).Floor / 3600) % 24
  }

  /** `login_delay_seconds`: it fails where Beijing time is past the last supported year. */
  function LoginDelay(t: real): Result<real> {
    if !ValidTime(t) || !ValidTime(t + BEIJING_OFFSET) then Failure
    else Success(if 9 <= BeijingHour(t) < 16 then 300.0 else 0.0)
  }

  /** The fields of a schedule as values. */
  datatype Schedule = Schedule(retry: real, detected: Option<real>, reason: Option<string>, due: Option<real>,
                               attempts: int, last: Option<real>, inProgress: bool, blocked: Option<string>)

  /** The JSON object of `to_dict`. */
  datatype Saved = Saved(version: int, retry: real, detected: Option<real>, reason: Option<string>, due: Option<real>,
                         attempts: int, last: Option<real>, inProgress: bool, blocked: Option<string>)

  function Fresh(retry: real): Schedule {
    Schedule(retry, None, None, None, 0, None, false, None)
  }

  // ---------------------------------------------------------------- transitions

  /** `None` stands for a call that raises and changes nothing. */
  function Observed(s: Schedule, at: real, reason: string): Option<Schedule> {
    if reason !in LOGOUT_REASONS || !ValidTime(at) then None
    else if s.detected.Some? then Some(s)
    else if LoginDelay(at).Failure? || !ValidTime(at + LoginDelay(at).value) then None
    else Some(s.(detected := Some(at), reason := Some(reason), due := Some(at + LoginDelay(at).value)))
  }

  predicate Ready(s: Schedule, now: real) {
    s.detected.Some? && s.due.Some? && !s.inProgress && s.blocked.None? && now >= s.due.value
  }

  function Started(s: Schedule, now: real): Option<Schedule> {
    if !ValidTime(now) then None
    else if !Ready(s, now) then Some(s)
    else if !ValidTime(now + s.retry) then None
    else Some(s.(attempts := s.attempts + 1, last := Some(now), due := Some(now + s.retry), inProgress := true))
  }

  function Later(a: real, b: real): real {
    if a >= b then a else b
  }

  function FailedSchedule(s: Schedule, now: real, blocked: Option<string>): Option<Schedule> {
    if !ValidTime(now) || s.detected.None? || !s.inProgress || s.last.None? then None
    else if blocked.Some? && blocked.value !in BLOCK_REASONS then None
    else if !ValidTime(Later(now, s.last.value) + s.retry) then None
    else Some(s.(due := Some(Later(now, s.last.value) + s.retry), inProgress := false, blocked := blocked))
  }

  function Unblocked(s: Schedule): Schedule {
    s.(blocked := None)
  }

  function SucceededSchedule(s: Schedule): Schedule {
    Fresh(s.retry)
  }

  function ToSaved(s: Schedule): Saved {
    Saved(1, s.retry, s.detected, s.reason, s.due, s.attempts, s.last, s.inProgress, s.blocked)
  }

  /** `from_dict` without wrongly typed fields: the same checks in the same order. */
  function Restored(v: Saved, retry: Option<real>): Result<Schedule> {
    var interval := if retry.Some? then retry.value else v.retry;
    if v.version != 1 || interval <= 0.0 || v.attempts < 0 then Failure
    else if v.detected.None? then
      if v.reason.Some? || v.due.Some? || v.last.Some? || v.blocked.Some? || v.attempts != 0 || v.inProgress
      then Failure
      else Success(Fresh(interval))
    else if v.reason.None? || v.reason.value !in LOGOUT_REASONS then Failure
    else if v.blocked.Some? && v.blocked.value !in BLOCK_REASONS then Failure
    else if !ValidTime(v.detected.value) || v.due.None? || !ValidTime(v.due.value) || v.due.value < v.detected.value
    then Failure
    else if v.attempts == 0 && (v.last.Some? || v.inProgress || v.blocked.Some? || LoginDelay(v.detected.value).Failure?
                                || v.due.value != v.detected.value + LoginDelay(v.detected.value).value) then Failure
    else if v.attempts != 0 && (v.last.None? || !ValidTime(v.last.value) || v.last.value < v.detected.value
                                || v.due.value <= v.last.value || (v.inProgress && v.blocked.Some?)) then Failure
    else Success(Schedule(interval, v.detected, v.reason, v.due, v.attempts, v.last, false, v.blocked))
  }

  class RecoverySchedule {
    var retry: real
    var detected: Option<real>
    var reason: Option<string>
    var due: Option<real>
    var attempts: int
    var last: Option<real>
    var inProgress: bool
    var blocked: Option<string>

    ghost function Abs(): Schedule
      reads this
    {
      Schedule(retry, detected, reason, due, attempts, last, inProgress, blocked)
    }

    constructor (retry: real)
      requires retry > 0.0
      ensures Abs() == Fresh(retry)
    {
      this.retry := retry;
      detected, reason, due, attempts, last, inProgress, blocked := None, None, None, 0, None, false, None;
    }

    /** `from_dict` once its checks have passed. */
    constructor FromSaved(v: Saved, configured: Option<real>)
      requires Restored(v, configured).Success?
      ensures Abs() == Restored(v, configured).value
    {
      retry := if configured.Some? then configured.value else v.retry;
      detected, reason, due, attempts, last, blocked := v.detected, v.reason, v.due, v.attempts, v.last, v.blocked;
      inProgress := false;
    }

    method ToDict() returns (v: Saved)
      ensures v == ToSaved(Abs())
    {
      v := Saved(1, retry, detected, reason, due, attempts, last, inProgress, blocked);
    }

    method ObserveLogout(at: real, why: string) returns (fresh_: Result<bool>)
      modifies this
      ensures fresh_.Success? <==> Observed(old(Abs()), at, why).Some?
      ensures Abs() == if fresh_.Success? then Observed(old(Abs()), at, why).value else old(Abs())
      ensures fresh_.Success? ==> fresh_.value == old(detected).None?
      ensures fresh_ == Success(true) ==>
        && detected == Some(at) && reason == Some(why) && due == Some(at + LoginDelay(at).value)
        && attempts == old(attempts)
      ensures fresh_ != Success(true) ==> Abs() == old(Abs())
      ensures fresh_.Failure? <==>
        || why !in LOGOUT_REASONS || !(-62135596800.0 <= at < 253402300800.0)
        || (old(detected).None? && at + 28800.0 >= 253402300800.0)
    {
      if why !in LOGOUT_REASONS || !ValidTime(at) { return Failure; }
      if detected.Some? { return Success(false); }
      var delay := LoginDelay(at);
      if delay.Failure? || !ValidTime(at + delay.value) { return Failure; }
      detected, reason := Some(at), Some(why);
      due := Some(at + delay.value);
      return Success(true);
    }

    method StartAttempt(now: real) returns (started: Result<bool>)
      modifies this
      ensures started.Success? <==> Started(old(Abs()), now).Some?
      ensures Abs() == if started.Success? then Started(old(Abs()), now).value else old(Abs())
      ensures started.Success? ==> started.value == Ready(old(Abs()), now)
      ensures started.Success? ==> (started.value <==>
        && old(detected).Some? && old(due).Some? && now >= old(due).value && !old(inProgress) && old(blocked).None?)
      ensures started == Success(true) ==>
        && attempts == old(attempts) + 1 && last == Some(now) && due == Some(now + retry) && inProgress
        && detected == old(detected) && reason == old(reason) && retry == old(retry) && blocked.None?
      ensures started != Success(true) ==> Abs() == old(Abs())
      ensures started.Failure? <==>
        || !ValidTime(now)
        || (old(detected).Some? && old(due).Some? && now >= old(due).value && !old(inProgress) && old(blocked).None?
            && !ValidTime(now + retry))
    {
      if !ValidTime(now) { return Failure; }
      if !(detected.Some? && due.Some? && !inProgress && blocked.None? && now >= due.value) { return Success(false); }
      if !ValidTime(now + retry) { return Failure; }
      attempts, last, due, inProgress := attempts + 1, Some(now), Some(now + retry), true;
      return Success(true);
    }

    method Failed(now: real, blockReason: Option<string>) returns (ok: bool)
      modifies this
      ensures ok <==> FailedSchedule(old(Abs()), now, blockReason).Some?
      ensures Abs() == if ok then FailedSchedule(old(Abs()), now, blockReason).value else old(Abs())
      ensures ok ==>
        && old(inProgress) && !inProgress && blocked == blockReason && attempts == old(attempts) && last == old(last)
        && detected == old(detected) && retry == old(retry) && old(last).Some?
        && due == Some(if now >= old(last).value then now + retry else old(last).value + retry)
      ensures ok <==>
        && ValidTime(now) && old(detected).Some? && old(inProgress) && old(last).Some?
        && (blockReason.Some? ==> blockReason.value in BLOCK_REASONS)
        && ValidTime(if now >= old(last).value then now + retry else old(last).value + retry)
    {
      if !ValidTime(now) || detected.None? || !inProgress || last.None? { return false; }
      if blockReason.Some? && blockReason.value !in BLOCK_REASONS { return false; }
      if !ValidTime(Later(now, last.value) + retry) { return false; }
      due, inProgress, blocked := Some(Later(now, last.value) + retry), false, blockReason;
      return true;
    }

    method Unblock()
      modifies this
      ensures Abs() == Unblocked(old(Abs()))
    {
      blocked := None;
    }

    method Succeeded()
      modifies this
      ensures Abs() == SucceededSchedule(old(Abs()))
    {
      detected, reason, due, last := None, None, None, None;
      attempts, inProgress, blocked := 0, false, None;
    }
  }

  // ---------------------------------------------------------------- what every schedule keeps

  /** The reachable schedules. */
  predicate Consistent(s: Schedule) {
    && s.retry > 0.0 && s.attempts >= 0
    && if s.detected.None? then
         s.reason.None? && s.due.None? && s.last.None? && s.blocked.None? && s.attempts == 0 && !s.inProgress
       else
         && ValidTime(s.detected.value) && LoginDelay(s.detected.value).Success?
         && s.reason.Some? && s.reason.value in LOGOUT_REASONS
         && (s.blocked.Some? ==> s.blocked.value in BLOCK_REASONS && !s.inProgress)
         && s.due.Some? && ValidTime(s.due.value)
         && if s.attempts == 0 then
              s.last.None? && !s.inProgress && s.blocked.None?
                && s.due.value == s.detected.value + LoginDelay(s.detected.value).value
            else
              && s.last.Some? && ValidTime(s.last.value) && s.due.value > s.last.value
              && s.last.value >= s.detected.value + LoginDelay(s.detected.value).value
  }

  datatype Transition =
    | Observe(at: real, reason: string)
    | Start(now: real)
    | Fail(now: real, blocked: Option<string>)
    | Unblock
    | Succeed
    | Restart(retry: Option<real>)   // saved, then restored with a configured interval

  function Stepped(s: Schedule, t: Transition): Schedule {
    match t
    case Observe(at, reason) => if Observed(s, at, reason).Some? then Observed(s, at, reason).value else s
    case Start(now) => if Started(s, now).Some? then Started(s, now).value else s
    case Fail(now, blocked) =>
      if FailedSchedule(s, now, blocked).Some? then FailedSchedule(s, now, blocked).value else s
    case Unblock => Unblocked(s)
    case Succeed => SucceededSchedule(s)
    case Restart(retry) => if Restored(ToSaved(s), retry).Success? then Restored(ToSaved(s), retry).value else s
  }

  function Run(s: Schedule, transitions: seq<Transition>): Schedule {
    if transitions == [] then s else Stepped(Run(s, transitions[..|transitions| - 1]), transitions[|transitions| - 1])
  }

  /**
   Saving and restoring: every consistent schedule passes validation and comes back the same
   but for the in-process marker; a new interval moves no deadline.
   */
  lemma RestoreReleasesOnlyTheMarker(s: Schedule, retry: Option<real>)
    requires Consistent(s) && (retry.Some? ==> retry.value > 0.0)
    ensures Restored(ToSaved(s), retry)
      == Success(s.(retry := if retry.Some? then retry.value else s.retry, inProgress := false))
  {
  }

  lemma StepConsistent(s: Schedule, t: Transition)
    requires Consistent(s)
    ensures Consistent(Stepped(s, t))
  {
    assert forall x, y :: Later(x, y) >= y;
  }

  /** Whatever happens to a schedule, its saved form is accepted and restored as it was. */
  lemma {:induction false} ReachableSchedulesRestore(retry: real, transitions: seq<Transition>,
                                                     configured: Option<real>)
    requires retry > 0.0 && (configured.Some? ==> configured.value > 0.0)
    ensures var s := Run(Fresh(retry), transitions);
      && Consistent(s)
      && Restored(ToSaved(s), configured)
         == Success(s.(retry := if configured.Some? then configured.value else s.retry, inProgress := false))
  {
    ReachableConsistent(retry, transitions);
    RestoreReleasesOnlyTheMarker(Run(Fresh(retry), transitions), configured);
  }

  lemma {:induction false} ReachableConsistent(retry: real, transitions: seq<Transition>)
    requires retry > 0.0
    ensures Consistent(Run(Fresh(retry), transitions))
  {
    if transitions != [] {
      ReachableConsistent(retry, transitions[..|transitions| - 1]);
      StepConsistent(Run(Fresh(retry), transitions[..|transitions| - 1]), transitions[|transitions| - 1]);
    }
  }

  /** A blocked schedule is never ready again before it is unblocked or its episode ends. */
  lemma {:induction false} BlockedIsNeverReady(s: Schedule, transitions: seq<Transition>, now: real)
    requires Consistent(s) && s.blocked.Some?
    requires forall k :: 0 <= k < |transitions| ==> !transitions[k].Unblock? && !transitions[k].Succeed?
    ensures var end := Run(s, transitions);
      Consistent(end) && end.blocked == s.blocked && end.due == s.due && end.attempts == s.attempts && !Ready(end, now)
  {
    if transitions != [] {
      var before, last := transitions[..|transitions| - 1], transitions[|transitions| - 1];
      assert !last.Unblock? && !last.Succeed?;
      BlockedIsNeverReady(s, before, now);
      StepConsistent(Run(s, before), last);
    }
  }

  /** A saved form in which nothing contradicts: no episode, one not yet attempted, or one with attempts. */
  predicate Acceptable(v: Saved) {
    && v.version == 1
    && if v.detected.None? then v == Saved(1, v.retry, None, None, None, 0, None, false, None)
       else
         && v.reason.Some? && v.reason.value in LOGOUT_REASONS && (v.blocked.Some? ==> v.blocked.value in BLOCK_REASONS)
         && ValidTime(v.detected.value) && v.due.Some? && ValidTime(v.due.value)
         && if v.attempts == 0 then
              && v.last.None? && !v.inProgress && v.blocked.None?
              && LoginDelay(v.detected.value) == Success(v.due.value - v.detected.value)
            else
              && v.attempts > 0 && v.last.Some? && v.detected.value <= v.last.value < v.due.value
              && !(v.inProgress && v.blocked.Some?)
  }

  /** Validation accepts exactly the saved forms without a contradiction, under a positive interval. */
  lemma RestoresExactly(v: Saved, retry: Option<real>)
    ensures Restored(v, retry).Success? <==> Acceptable(v) && (if retry.Some? then retry.value else v.retry) > 0.0
  {
  }

  /** An accepted saved form keeps its deadline, count and block, and restores again to itself. */
  lemma RestoredIsFixed(v: Saved, retry: Option<real>)
    requires Restored(v, retry).Success?
    ensures var s := Restored(v, retry).value;
      && !s.inProgress && s.due == v.due && s.attempts == v.attempts && s.last == v.last && s.blocked == v.blocked
      && s.detected == v.detected && s.reason == v.reason && s.retry == (if retry.Some? then retry.value else v.retry)
      && Restored(ToSaved(s), None) == Success(s)
  {
  }

  /**
   `login_delay_seconds` is five minutes exactly when the detection falls in the Beijing
   window that opens at 09:00 and closes before 16:00 of its own day.
   */
  lemma DelayIsBeijingWindow(t: real)
    requires ValidTime(t) && ValidTime(t + BEIJING_OFFSET)
    ensures LoginDelay(t).Success? && LoginDelay(t).value in {0.0, 300.0}
    ensures LoginDelay(t).value == 300.0 <==>
      exists day: int :: (day * 86400 + 9 * 3600) as real <= t + BEIJING_OFFSET < (day * 86400 + 16 * 3600) as real
  {
    var local := (t + BEIJING_OFFSET).Floor;
    var day := local / 86400;
    assert local / 3600 == 24 * day + (local % 86400) / 3600;
    assert BeijingHour(t) == (local % 86400) / 3600;
    if 9 <= BeijingHour(t) < 16 {
      assert (day * 86400 + 9 * 3600) as real <= t + BEIJING_OFFSET < (day * 86400 + 16 * 3600) as real;
    }
    if d: int :| (d * 86400 + 9 * 3600) as real <= t + BEIJING_OFFSET < (d * 86400 + 16 * 3600) as real {
      assert d * 86400 + 9 * 3600 <= local < d * 86400 + 16 * 3600;
      assert d == day;
    }
  }
}
