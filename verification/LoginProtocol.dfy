/**
 The session provider as a step machine. Every step is one section under its lock, so steps of
 the consumer and the publisher thread interleave freely. What a thread tests outside the lock
 may have changed by its next section, so no step relies on it.
 */
module LoginProtocol {
  import opened Common
  import opened Recovery

  /** What loading the session file gives: nothing, a session without a usable signing key, or a client. */
  datatype Content = Unreadable | BadKey | Usable

  /** The encrypted session file: its generation, its modification stamp and its content. */
  datatype SessionFile = SessionFile(generation: string, stamp: int, content: Content)

  datatype SavedState = SavedState(schedule: Saved, generation: Option<string>)

  /** A password submission: the episode, the claimed time, the interval in force, the detection. */
  datatype Login = Login(episode: nat, at: real, retry: real, detected: real)

  /**
   `file` and `saved` are on disk. `running` lasts as long as the process; once `ending`, the
   consumer thread has left its loop and only the publisher thread still uses the provider.
   Clients are numbered as they are made, episodes as they open; `episodes`, `episode`,
   `savedEpisode` and `logins` exist for the proofs.
   */
  datatype Provider = Provider(
    file: Option<SessionFile>, saved: Option<SavedState>,
    running: bool, ending: bool, cached: Option<nat>, session: Option<string>, stamp: Option<int>,
    schedule: Schedule, generation: Option<string>, loggingIn: bool,
    clients: nat, episodes: nat, episode: nat, savedEpisode: nat, logins: seq<Login>)

  /** What an exception says about the session. */
  datatype ErrorKind = LoggedOut(elsewhere: bool) | OtherSessionError | OtherError

  datatype Outcome = LoginRejected | LoginFailed | LoggedIn(generation: string)

  datatype Step =
    | ReplaceFile(newFile: Option<SessionFile>)               // an import, or a login's own save
    | Hand(saveFails: bool)                                   // the provider is called for a client
    | Report(error: ErrorKind, client: Option<nat>, now: real, saveFails: bool)
    | Import(imported: SessionFile)                           // optional import from the emulator
    | BeginLogin(now: real, enabled: bool, loadSaveFails: bool, saveFails: bool)
    | EndLogin(outcome: Outcome, now: real, saveFails: bool)
    | Leave                                                   // the consumer thread leaves its loop
    | Crash
    | Start(retry: real)

  function Persisted(p: Provider): Provider {
    p.(saved := Some(SavedState(ToSaved(p.schedule), p.generation)), savedEpisode := p.episode)
  }

  predicate SessionOpen(p: Provider) {
    p.schedule.detected.None?
  }

  /** The session file would be read, and its generation differs from the logged-out one. */
  predicate NewGeneration(p: Provider) {
    && !(p.schedule.inProgress && p.cached.Some?) && p.file.Some? && p.file.value.content.Usable?
    && (p.cached.None? || p.stamp != Some(p.file.value.stamp))
    && p.schedule.detected.Some? && p.generation != Some(p.file.value.generation)
  }

  /** Loading builds a client from a bad key, which is no session error but an `ApiError`. */
  predicate KeyFails(p: Provider) {
    && !(p.schedule.inProgress && p.cached.Some?) && p.file.Some? && p.file.value.content.BadKey?
    && (p.cached.None? || p.stamp != Some(p.file.value.stamp))
  }

  /** `_load_client`: the state after it, and the client unless it raised. */
  function Loaded(p: Provider, saveFails: bool): (Provider, Option<nat>) {
    if p.schedule.inProgress && p.cached.Some? then (p, p.cached)
    else if p.file.None? then (p, None)
    else if p.cached.Some? && p.stamp == Some(p.file.value.stamp) then (p, p.cached)
    else if !p.file.value.content.Usable? then (p, None)
    else
      var f := p.file.value;
      var q :=
        if NewGeneration(p) then p.(schedule := SucceededSchedule(p.schedule), generation := Some(f.generation)) else p;
      if NewGeneration(p) && saveFails then (q, None)
      else
        var r := if NewGeneration(p) then Persisted(q) else q;
        (r.(cached := Some(p.clients), session := Some(f.generation), stamp := Some(f.stamp), clients := p.clients + 1),
         Some(p.clients))
  }

  /** `__call__`: a client, or `None` for an error. */
  function Handed(p: Provider, saveFails: bool): (Provider, Option<nat>) {
    var (q, client) := Loaded(p, saveFails);
    (q, if q.schedule.detected.Some? then None else client)
  }

  function ReasonFor(elsewhere: bool): string {
    if elsewhere then "logged_in_elsewhere" else "session_expired"
  }

  function Reported(p: Provider, error: ErrorKind, client: Option<nat>, now: real, saveFails: bool): Provider {
    if client.Some? && client != p.cached then p
    else if !error.LoggedOut? then p
    else
      var observed := Observed(p.schedule, now, ReasonFor(error.elsewhere));
      if observed.None? || p.schedule.detected.Some? then p
      else
        var q := p.(schedule := observed.value, generation := p.session,
                    episodes := p.episodes + 1, episode := p.episodes + 1);
        if saveFails then q else Persisted(q)
  }

  /** An error that `recover` does not catch ends the consumer thread's loop. */
  function Left(p: Provider): Provider {
    p.(ending := true, loggingIn := false)
  }

  /** The first locked section of `recover`: whether a password is about to be sent. */
  function Begun(p: Provider, now: real, enabled: bool, loadSaveFails: bool, saveFails: bool): (Provider, bool) {
    var (q, client) := Loaded(p, loadSaveFails);
    if KeyFails(p) then (Left(q), false)
    else if client.None? || !enabled then (q, false)
    else if Started(q.schedule, now).None? then (Left(q), false)
    else if !Ready(q.schedule, now) then (q, false)
    else
      var r := q.(schedule := Started(q.schedule, now).value);
      if saveFails then (Left(r), false)
      else
        (Persisted(r).(loggingIn := true,
                       logins := r.logins + [Login(r.episode, now, r.schedule.retry, r.schedule.detected.value)]), true)
  }

  /** The session of a successful login replaces the logged-out one. */
  function WithNewSession(p: Provider, generation: string): Provider
    requires p.file.Some?
  {
    p.(session := Some(generation), cached := Some(p.clients), clients := p.clients + 1,
       stamp := Some(p.file.value.stamp), schedule := SucceededSchedule(p.schedule),
       generation := Some(generation), loggingIn := false)
  }

  /** The last locked section of `recover`. */
  function Ended(p: Provider, outcome: Outcome, now: real, saveFails: bool): Provider {
    match outcome
    case LoggedIn(generation) =>
      if p.file.None? then Left(p.(session := Some(generation), cached := Some(p.clients), clients := p.clients + 1))
      else
        var q := WithNewSession(p, generation);
        if saveFails then Left(q) else Persisted(q)
    case _ =>
      var failed := FailedSchedule(p.schedule, now, if outcome == LoginRejected then Some("login_rejected") else None);
      if failed.None? then Left(p)
      else
        var q := p.(schedule := failed.value, loggingIn := false);
        if saveFails then Left(q) else Persisted(q)
  }

  /** The constructor: a saved state that cannot be validated stops the start. */
  function StartedUp(p: Provider, retry: real): Provider {
    var blank := p.(running := true, ending := false, cached := None, session := None, stamp := None,
                     loggingIn := false);
    if p.saved.None? then blank.(schedule := Fresh(retry), generation := None)
    else if Restored(p.saved.value.schedule, Some(retry)).Failure? then p
    else blank.(schedule := Restored(p.saved.value.schedule, Some(retry)).value, generation := p.saved.value.generation,
                episode := p.savedEpisode)
  }

  /** `recover` has one caller, so a login is ended before the next one begins. */
  predicate Possible(p: Provider, s: Step) {
    match s
    case ReplaceFile(_) => true
    case Crash => true
    case Start(retry) => !p.running && retry > 0.0
    case Hand(_) => p.running
    case Report(_, _, _, _) => p.running
    case Import(_) => p.running && !p.ending && !p.loggingIn
    case BeginLogin(_, _, _, _) => p.running && !p.ending && !p.loggingIn
    case Leave => p.running && !p.ending
    case EndLogin(_, _, _) => p.running && p.loggingIn
  }

  function Next(p: Provider, s: Step): Provider {
    match s
    case ReplaceFile(file) => p.(file := file)
    case Hand(saveFails) => Handed(p, saveFails).0
    case Report(error, client, now, saveFails) => Reported(p, error, client, now, saveFails)
    case Import(file) => p.(file := Some(file), cached := None, stamp := None)
    case BeginLogin(now, enabled, loadSaveFails, saveFails) => Begun(p, now, enabled, loadSaveFails, saveFails).0
    case EndLogin(outcome, now, saveFails) => Ended(p, outcome, now, saveFails)
    case Leave => Left(p)
    case Crash => p.(running := false)
    case Start(retry) => StartedUp(p, retry)
  }

  predicate Initial(p: Provider) {
    && !p.running && p.saved.None? && !p.loggingIn && p.logins == [] && p.episodes == p.episode == p.savedEpisode == 0
    && Consistent(p.schedule) && p.schedule.detected.None?
  }

  predicate Legal(p: Provider, run: seq<Step>) {
    run == [] || (Legal(p, run[..|run| - 1]) && Possible(After(p, run[..|run| - 1]), run[|run| - 1]))
  }

  function After(p: Provider, run: seq<Step>): Provider {
    if run == [] then p else Next(After(p, run[..|run| - 1]), run[|run| - 1])
  }

  // ---------------------------------------------------------------- the invariant

  function SavedSchedule(v: Saved): Schedule {
    Schedule(v.retry, v.detected, v.reason, v.due, v.attempts, v.last, v.inProgress, v.blocked)
  }

  predicate SavedSound(p: Provider) {
    p.saved.Some? ==> p.saved.value.schedule.version == 1 && Consistent(SavedSchedule(p.saved.value.schedule))
  }

  /** While an attempt runs, the next one is already due an interval after its start. */
  predicate Reserved(s: Schedule) {
    s.last.Some? && s.due.Some? && s.due.value == s.last.value + s.retry
  }

  predicate MemorySound(p: Provider) {
    && Consistent(p.schedule)
    && (p.running && !p.ending ==> (p.loggingIn <==> p.schedule.inProgress))
    && (p.running && p.ending ==> !p.loggingIn)
    && (p.running && p.schedule.inProgress ==> p.cached.Some? && Reserved(p.schedule))
  }

  /** The episode's deadline is past every submission made in it by at least its interval. */
  predicate Covered(logins: seq<Login>, episode: nat, s: Schedule) {
    s.detected.Some? && s.due.Some? ==>
      forall k :: 0 <= k < |logins| && logins[k].episode == episode ==>
        logins[k].detected == s.detected.value && logins[k].at + logins[k].retry <= s.due.value
  }

  predicate Spaced(logins: seq<Login>) {
    forall i, k :: 0 <= i < k < |logins| && logins[i].episode == logins[k].episode ==>
      logins[i].at + logins[i].retry <= logins[k].at && logins[i].detected == logins[k].detected
  }

  /** No submission comes before the first deadline of its detection. */
  predicate Delayed(logins: seq<Login>) {
    forall k :: 0 <= k < |logins| ==>
      && LoginDelay(logins[k].detected).Success?
      && logins[k].at >= logins[k].detected + LoginDelay(logins[k].detected).value
  }

  predicate Numbered(p: Provider) {
    && p.episode <= p.episodes && p.savedEpisode <= p.episodes
    && forall k :: 0 <= k < |p.logins| ==> p.logins[k].episode <= p.episodes
  }

  predicate Inv(p: Provider) {
    && SavedSound(p) && MemorySound(p) && Numbered(p) && Spaced(p.logins) && Delayed(p.logins)
    && (p.running ==> Covered(p.logins, p.episode, p.schedule))
    && (p.saved.Some? ==> Covered(p.logins, p.savedEpisode, SavedSchedule(p.saved.value.schedule)))
  }

  // ---------------------------------------------------------------- preservation

  lemma PersistedInv(p: Provider)
    requires Inv(p) && p.running
    ensures Inv(Persisted(p))
  {
    assert SavedSchedule(ToSaved(p.schedule)) == p.schedule;
  }

  lemma LoadedInv(p: Provider, saveFails: bool)
    requires Inv(p) && p.running
    ensures Inv(Loaded(p, saveFails).0) && Loaded(p, saveFails).0.running
    ensures Loaded(p, saveFails).0.loggingIn == p.loggingIn && Loaded(p, saveFails).0.logins == p.logins
    ensures Loaded(p, saveFails).0.ending == p.ending
    ensures Loaded(p, saveFails).1.Some? ==> Loaded(p, saveFails).0.cached.Some?
  {
    if NewGeneration(p) {
      var q := p.(schedule := SucceededSchedule(p.schedule), generation := Some(p.file.value.generation));
      assert Inv(q);
      PersistedInv(q);
    }
  }

  lemma ReportedInv(p: Provider, error: ErrorKind, client: Option<nat>, now: real, saveFails: bool)
    requires Inv(p) && p.running
    ensures Inv(Reported(p, error, client, now, saveFails))
  {
    var q := Reported(p, error, client, now, true);
    if q != p {
      StepConsistent(p.schedule, Observe(now, ReasonFor(error.elsewhere)));
      assert Inv(q);
      PersistedInv(q);
    }
  }

  /** A claimed attempt starts at or after the deadline, so it is spaced from all before it. */
  lemma BegunInv(p: Provider, now: real, enabled: bool, loadSaveFails: bool, saveFails: bool)
    requires Inv(p) && p.running && !p.ending && !p.loggingIn
    ensures Inv(Begun(p, now, enabled, loadSaveFails, saveFails).0)
  {
    hide Loaded, KeyFails, Inv, Left, Persisted;
    LoadedInv(p, loadSaveFails);
    var (q, client) := Loaded(p, loadSaveFails);
    LeftInv(q);
    if client.Some? && enabled && Started(q.schedule, now).Some? && Ready(q.schedule, now) {
      ScheduleConsistent(q);
      StepConsistent(q.schedule, Transition.Start(now));
      AttemptInv(q, now);
      UnsavedAttemptInv(q, now);
    }
  }

  lemma ScheduleConsistent(p: Provider)
    requires Inv(p)
    ensures Consistent(p.schedule)
  {
  }

  lemma AttemptInv(q: Provider, now: real)
    requires Inv(q) && q.running && !q.ending && !q.loggingIn && q.cached.Some? && Started(q.schedule, now).Some?
      && Ready(q.schedule, now)
    requires Consistent(Started(q.schedule, now).value)
    ensures var r := q.(schedule := Started(q.schedule, now).value);
      Inv(Persisted(r).(loggingIn := true,
            logins := r.logins + [Login(r.episode, now, r.schedule.retry, r.schedule.detected.value)]))
  {
    var r := q.(schedule := Started(q.schedule, now).value, loggingIn := true,
                logins := q.logins + [Login(q.episode, now, q.schedule.retry, q.schedule.detected.value)]);
    assert SavedSchedule(ToSaved(r.schedule)) == r.schedule;
    assert Covered(q.logins, q.episode, q.schedule);
    assert q.schedule.due.value >= q.schedule.detected.value + LoginDelay(q.schedule.detected.value).value;
    assert Covered(r.logins, r.episode, r.schedule);
  }

  lemma UnsavedAttemptInv(q: Provider, now: real)
    requires Inv(q) && q.running && !q.loggingIn && q.cached.Some? && Started(q.schedule, now).Some?
      && Ready(q.schedule, now)
    requires Consistent(Started(q.schedule, now).value)
    ensures Inv(Left(q.(schedule := Started(q.schedule, now).value)))
  {
    assert Covered(q.logins, q.episode, q.schedule);
  }

  lemma LeftInv(p: Provider)
    requires Inv(p) && p.running
    ensures Inv(Left(p))
  {
  }

  lemma EndedInv(p: Provider, outcome: Outcome, now: real, saveFails: bool)
    requires Inv(p) && p.running && p.loggingIn
    ensures Inv(Ended(p, outcome, now, saveFails))
  {
    var q := Ended(p, outcome, now, true).(ending := p.ending);
    if outcome.LoggedIn? {
      if p.file.Some? {
        assert Inv(q);
        PersistedInv(q);
        LeftInv(q);
      }
    } else {
      var reason := if outcome == LoginRejected then Some("login_rejected") else None;
      StepConsistent(p.schedule, Fail(now, reason));
      if FailedSchedule(p.schedule, now, reason).Some? {
        assert Inv(q);
        PersistedInv(q);
      }
    }
  }

  lemma StartedUpInv(p: Provider, retry: real)
    requires Inv(p) && !p.running && retry > 0.0
    ensures Inv(StartedUp(p, retry))
  {
    if p.saved.Some? {
      var s := SavedSchedule(p.saved.value.schedule);
      assert ToSaved(s) == p.saved.value.schedule;
      RestoreReleasesOnlyTheMarker(s, Some(retry));
    }
  }

  lemma InvStep(p: Provider, s: Step)
    requires Inv(p) && Possible(p, s)
    ensures Inv(Next(p, s))
  {
    match s {
      case Hand(saveFails) => LoadedInv(p, saveFails);
      case Report(error, client, now, saveFails) => ReportedInv(p, error, client, now, saveFails);
      case BeginLogin(now, enabled, loadSaveFails, saveFails) => BegunInv(p, now, enabled, loadSaveFails, saveFails);
      case EndLogin(outcome, now, saveFails) => EndedInv(p, outcome, now, saveFails);
      case Start(retry) => StartedUpInv(p, retry);
      case _ =>
    }
  }

  lemma {:induction false} InvRun(p: Provider, run: seq<Step>)
    requires Inv(p) && Legal(p, run)
    ensures Inv(After(p, run))
  {
    if run != [] {
      InvRun(p, run[..|run| - 1]);
      InvStep(After(p, run[..|run| - 1]), run[|run| - 1]);
    }
  }

  // ---------------------------------------------------------------- guarantees over every run

  /**
   Within one logout episode any two password submissions are at least the retry interval in
   force at the earlier one apart, and the first is not before the saved detection plus its
   Beijing-hours delay, whatever failures, crashes and restarts occur between them.
   */
  lemma PasswordSubmissionsAreSpaced(p: Provider, run: seq<Step>, i: nat, k: nat)
    requires Initial(p) && Legal(p, run) && i <= k < |After(p, run).logins|
    ensures var a, b := After(p, run).logins[i], After(p, run).logins[k];
      && LoginDelay(a.detected).Success? && a.at >= a.detected + LoginDelay(a.detected).value
      && (i < k && a.episode == b.episode ==> b.at >= a.at + a.retry && a.detected == b.detected)
  {
    InvRun(p, run);
  }

  /** While a logout episode is open the provider hands out no client. */
  lemma NoClientWhileLoggedOut(p: Provider, saveFails: bool)
    ensures Handed(p, saveFails).1.Some? ==> SessionOpen(Handed(p, saveFails).0)
    ensures p.schedule.detected.Some? && !NewGeneration(p) ==> Handed(p, saveFails).1.None?
  {
  }

  /** A report about a client that is no longer the cached one changes nothing. */
  lemma StaleReportChangesNothing(p: Provider, error: ErrorKind, client: nat, now: real, saveFails: bool)
    requires p.cached != Some(client)
    ensures Reported(p, error, Some(client), now, saveFails) == p
  {
  }

  /**
   An open episode closes only by a successful login or by loading a session of a different
   generation. A restart closes none that was saved.
   */
  lemma EpisodeClosesOnlyBySession(p: Provider, s: Step)
    requires Inv(p) && Possible(p, s) && p.running && p.schedule.detected.Some?
    requires Next(p, s).schedule.detected.None?
    ensures (s.EndLogin? && s.outcome.LoggedIn?) || ((s.Hand? || s.BeginLogin?) && NewGeneration(p))
  {
  }

  /** The disk says what memory says about the episode. */
  predicate Synced(p: Provider) {
    if p.saved.None? then p.schedule.detected.None?
    else
      && p.saved.value.schedule.detected == p.schedule.detected && p.saved.value.schedule.due == p.schedule.due
      && p.saved.value.schedule.attempts == p.schedule.attempts && p.saved.value.schedule.blocked == p.schedule.blocked
      && (p.schedule.detected.Some? ==> p.savedEpisode == p.episode && p.saved.value.generation == p.generation)
  }

  predicate SavesSucceed(s: Step) {
    match s
    case Hand(saveFails) => !saveFails
    case Report(_, _, _, saveFails) => !saveFails
    case BeginLogin(_, _, loadSaveFails, saveFails) => !loadSaveFails && !saveFails
    case EndLogin(_, _, saveFails) => !saveFails
    case _ => true
  }

  /** The steps that may close an open episode. */
  predicate Closes(p: Provider, s: Step) {
    (s.EndLogin? && s.outcome.LoggedIn?) || ((s.Hand? || s.BeginLogin?) && NewGeneration(p))
  }

  lemma PersistedSynced(p: Provider)
    ensures Synced(Persisted(p))
  {
  }

  lemma LoadedSynced(p: Provider)
    requires Synced(p)
    ensures Synced(Loaded(p, false).0)
  {
    if NewGeneration(p) {
      PersistedSynced(p.(schedule := SucceededSchedule(p.schedule), generation := Some(p.file.value.generation)));
    }
  }

  lemma BegunSynced(p: Provider, now: real, enabled: bool)
    requires Synced(p)
    ensures Synced(Begun(p, now, enabled, false, false).0)
  {
    hide Loaded, KeyFails;
    LoadedSynced(p);
  }

  lemma StartedUpSynced(p: Provider, retry: real)
    requires Inv(p) && !p.running && retry > 0.0
    ensures Synced(StartedUp(p, retry))
  {
    if p.saved.Some? {
      var v := SavedSchedule(p.saved.value.schedule);
      assert ToSaved(v) == p.saved.value.schedule;
      RestoreReleasesOnlyTheMarker(v, Some(retry));
    }
  }

  lemma SyncedStep(p: Provider, s: Step)
    requires Inv(p) && Possible(p, s) && SavesSucceed(s) && Synced(p)
    ensures Synced(Next(p, s))
  {
    hide Inv, Loaded, Begun, StartedUp, FailedSchedule, Observed;
    match s {
      case Hand(_) => LoadedSynced(p);
      case BeginLogin(now, enabled, _, _) => BegunSynced(p, now, enabled);
      case Start(retry) => StartedUpSynced(p, retry);
      case _ =>
    }
  }

  /** A crash and restart at any point keep the episode, its deadline, its count and its block. */
  lemma RestartKeepsEpisode(p: Provider, retry: real)
    requires Inv(p) && Synced(p) && retry > 0.0
    ensures var q := Next(Next(p, Crash), Step.Start(retry));
      && q.running && !q.ending && !q.loggingIn && q.cached.None?
      && q.schedule.detected == p.schedule.detected && q.schedule.due == p.schedule.due
      && q.schedule.attempts == p.schedule.attempts && q.schedule.blocked == p.schedule.blocked
      && (p.schedule.detected.Some? ==> q.episode == p.episode)
  {
    if p.saved.Some? {
      var v := SavedSchedule(p.saved.value.schedule);
      assert ToSaved(v) == p.saved.value.schedule;
      RestoreReleasesOnlyTheMarker(v, Some(retry));
    }
  }

  /**
   Exactly when a report opens an episode: it confirms a logout, none is open, and it names
   the cached client or no client at all.
   */
  lemma ReportOpensEpisode(p: Provider, error: ErrorKind, client: Option<nat>, now: real, saveFails: bool)
    requires ValidTime(now) && LoginDelay(now).Success? && ValidTime(now + 300.0)
    ensures Reported(p, error, client, now, saveFails).episodes == p.episodes + 1
      <==> error.LoggedOut? && p.schedule.detected.None? && (client.None? || client == p.cached)
  {
  }

  /**
   The gap in the stale-report rule: a caller refused during an episode holds no client, and if
   it reports only after the login has succeeded, it opens a new episode for a good session.
   */
  lemma LateClientlessReportReopens(p: Provider, generation: string, now: real)
    requires Inv(p) && p.running && p.loggingIn && p.file.Some?
    requires ValidTime(now) && LoginDelay(now).Success? && ValidTime(now + 300.0)
    ensures Handed(p, false).1.None?
    ensures var loggedIn := Next(p, EndLogin(LoggedIn(generation), now, false));
      && SessionOpen(loggedIn)
      && !SessionOpen(Next(loggedIn, Report(LoggedOut(false), None, now, false)))
  {
  }

  // ---------------------------------------------------------------- one episode over a run

  /** Any other step, a crash and a restart included, leaves the episode open as it was. */
  lemma OpenEpisodeStays(p: Provider, s: Step)
    requires Inv(p) && Possible(p, s) && SavesSucceed(s) && Synced(p) && p.schedule.detected.Some? && !Closes(p, s)
    ensures Next(p, s).schedule.detected == p.schedule.detected && Next(p, s).episode == p.episode
  {
    if s.Start? {
      var v := SavedSchedule(p.saved.value.schedule);
      assert ToSaved(v) == p.saved.value.schedule;
      RestoreReleasesOnlyTheMarker(v, Some(s.retry));
    }
  }

  predicate AllSavesSucceed(run: seq<Step>) {
    forall k :: 0 <= k < |run| ==> SavesSucceed(run[k])
  }

  lemma {:induction false} PrefixLegal(p: Provider, run: seq<Step>, k: nat)
    requires Legal(p, run) && k <= |run|
    ensures Legal(p, run[..k]) && (k < |run| ==> Possible(After(p, run[..k]), run[k]))
    decreases |run|
  {
    hide Possible, After;
    if k == |run| {
      assert run[..k] == run;
    } else if k < |run| - 1 {
      PrefixLegal(p, run[..|run| - 1], k);
      assert run[..|run| - 1][..k] == run[..k];
    }
  }

  lemma NextPrefix(p: Provider, run: seq<Step>, k: nat)
    requires k < |run|
    ensures After(p, run[..k + 1]) == Next(After(p, run[..k]), run[k])
  {
    hide Next;
    assert run[..k + 1][..k] == run[..k];
  }

  lemma InitialInv(p: Provider)
    requires Initial(p)
    ensures Inv(p) && Synced(p)
  {
  }

  /** With successful saves the disk agrees with memory throughout. */
  lemma {:induction false} SyncedRun(p: Provider, run: seq<Step>, k: nat)
    requires Initial(p) && Legal(p, run) && AllSavesSucceed(run) && k <= |run|
    ensures Inv(After(p, run[..k])) && Synced(After(p, run[..k]))
    decreases k
  {
    hide Inv, Synced, Possible, Next, SavesSucceed, Initial, Legal;
    InitialInv(p);
    if k == 0 {
      assert run[..0] == [] && After(p, []) == p;
    } else {
      SyncedRun(p, run, k - 1);
      PrefixLegal(p, run, k - 1);
      NextPrefix(p, run, k - 1);
      InvStep(After(p, run[..k - 1]), run[k - 1]);
      SyncedStep(After(p, run[..k - 1]), run[k - 1]);
    }
  }

  /** Without a closing step in between, an episode open at one point is the one open later. */
  lemma {:induction false} EpisodeLasts(p: Provider, run: seq<Step>, i: nat, k: nat)
    requires Initial(p) && Legal(p, run) && AllSavesSucceed(run) && i <= k <= |run|
    requires After(p, run[..i]).schedule.detected.Some?
    requires forall j :: i <= j < k ==> !Closes(After(p, run[..j]), run[j])
    ensures After(p, run[..k]).schedule.detected == After(p, run[..i]).schedule.detected
    ensures After(p, run[..k]).episode == After(p, run[..i]).episode
    decreases k
  {
    hide Inv, Synced, Possible, Next, SavesSucceed, Initial, Legal, Closes, After;
    if i < k {
      EpisodeLasts(p, run, i, k - 1);
      SyncedRun(p, run, k - 1);
      PrefixLegal(p, run, k - 1);
      NextPrefix(p, run, k - 1);
      OpenEpisodeStays(After(p, run[..k - 1]), run[k - 1]);
    }
  }

  /**
   Over every run whose saves succeed, whatever crashes, restarts and thread interleavings it
   holds: a client handed out after an episode was open means that a successful login, or the
   loading of a session of another generation, came in between.
   */
  lemma NoClientDuringAnEpisode(p: Provider, run: seq<Step>, i: nat, k: nat)
    requires Initial(p) && Legal(p, run) && AllSavesSucceed(run) && i <= k < |run|
    requires After(p, run[..i]).schedule.detected.Some?
    requires run[k].Hand? && Handed(After(p, run[..k]), run[k].saveFails).1.Some?
    ensures exists j :: i <= j <= k && Closes(After(p, run[..j]), run[j])
  {
    hide Inv, Synced, Possible, Next, SavesSucceed, Initial, Legal, After, Loaded, NewGeneration;
    if forall j :: i <= j < k ==> !Closes(After(p, run[..j]), run[j]) {
      EpisodeLasts(p, run, i, k);
      NoClientWhileLoggedOut(After(p, run[..k]), run[k].saveFails);
      assert Closes(After(p, run[..k]), run[k]);
    }
  }

  predicate SavesFail(s: Step) {
    match s
    case Hand(saveFails) => saveFails
    case Report(_, _, _, saveFails) => saveFails
    case BeginLogin(_, _, loadSaveFails, saveFails) => loadSaveFails && saveFails
    case EndLogin(_, _, saveFails) => saveFails
    case _ => false
  }

  /**
   The exact effect of a failed save followed by a crash: after the restart the step never
   happened. An episode it opened is gone, one it closed is open again, an attempt it claimed
   or ended is as it was before.
   */
  lemma FailedSaveIsUndoneByACrash(p: Provider, s: Step, retry: real)
    requires Inv(p) && Synced(p) && p.running && Possible(p, s) && SavesFail(s) && retry > 0.0
    ensures var q, r := Next(Next(Next(p, s), Crash), Step.Start(retry)), Next(Next(p, Crash), Step.Start(retry));
      && q.running && q.schedule == r.schedule && q.generation == r.generation && q.saved == r.saved
      && q.schedule.detected == p.schedule.detected && q.schedule.due == p.schedule.due
      && q.schedule.attempts == p.schedule.attempts && q.schedule.blocked == p.schedule.blocked
  {
    hide Covered, Spaced, Delayed, Numbered;
    RestartKeepsEpisode(p, retry);
    assert Next(p, s).saved == p.saved;
    if p.saved.Some? {
      var v := SavedSchedule(p.saved.value.schedule);
      assert ToSaved(v) == p.saved.value.schedule;
      RestoreReleasesOnlyTheMarker(v, Some(retry));
    }
  }
}
