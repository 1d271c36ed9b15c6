/**
 Which session an episode logged out, remembered apart from what the provider stores about it, and
 what that means for every run: only another session, or a login, ends the episode.
 */
module LoginHistory {
  import opened Common
  import opened Recovery
  import opened LoginProtocol

  /** The generation of the session this process read last, and that of the session last logged out. */
  datatype Past = Past(loaded: Option<string>, lost: Option<string>)

  /** What one step adds: whose session a new client was made of, and whose loss opened an episode. */
  function Remember(h: Past, before: Provider, s: Step, after: Provider): Past {
    Past(if s.Start? then None
         else if after.clients == before.clients then h.loaded
         else if s.EndLogin? && s.outcome.LoggedIn? then Some(s.outcome.generation)
         else if before.file.Some? then Some(before.file.value.generation) else None,
         if before.schedule.detected.None? && after.schedule.detected.Some? then h.loaded else h.lost)
  }

  function PastOf(p: Provider, run: seq<Step>): Past {
    if run == [] then Past(None, None)
    else
      var before := run[..|run| - 1];
      Remember(PastOf(p, before), After(p, before), run[|run| - 1], After(p, run))
  }

  /** What the provider stores agrees with the past. */
  predicate Agrees(p: Provider, h: Past) {
    && (p.running ==> p.session == h.loaded)
    && (p.schedule.detected.Some? ==> p.generation == h.lost)
  }

  /** A login, or a session other than the one logged out. */
  predicate Replaces(p: Provider, s: Step, lost: Option<string>) {
    || (s.EndLogin? && s.outcome.LoggedIn?)
    || ((s.Hand? || s.BeginLogin?) && p.file.Some? && Some(p.file.value.generation) != lost)
  }

  // ---------------------------------------------------------------- the past agrees

  lemma LoadAgrees(p: Provider, h: Past, s: Step)
    requires Inv(p) && p.running && Agrees(p, h) && (s.Hand? || s.BeginLogin?)
    ensures Agrees(Loaded(p, false).0, Remember(h, p, s, Loaded(p, false).0))
  {
  }

  lemma BeginAgrees(p: Provider, h: Past, s: Step)
    requires Inv(p) && Possible(p, s) && SavesSucceed(s) && Agrees(p, h) && s.BeginLogin?
    ensures Agrees(Next(p, s), Remember(h, p, s, Next(p, s)))
  {
    hide Inv, Loaded, KeyFails;
    LoadAgrees(p, h, s);
    LoadKeeps(p);
  }

  lemma LoadKeeps(p: Provider)
    ensures Loaded(p, false).0.running == p.running
    ensures Loaded(p, false).0.schedule.detected.Some? ==> p.schedule.detected.Some?
  {
  }

  lemma StartAgrees(p: Provider, h: Past, retry: real)
    requires Inv(p) && Synced(p) && Agrees(p, h) && !p.running && retry > 0.0
    ensures Agrees(StartedUp(p, retry), Remember(h, p, Step.Start(retry), StartedUp(p, retry)))
  {
    if p.saved.Some? {
      var v := SavedSchedule(p.saved.value.schedule);
      assert ToSaved(v) == p.saved.value.schedule;
      RestoreReleasesOnlyTheMarker(v, Some(retry));
    }
  }

  lemma AgreesStep(p: Provider, h: Past, s: Step)
    requires Inv(p) && Synced(p) && Possible(p, s) && SavesSucceed(s) && Agrees(p, h)
    ensures Agrees(Next(p, s), Remember(h, p, s, Next(p, s)))
  {
    hide Inv, Synced, Loaded, Begun, StartedUp, FailedSchedule;
    match s {
      case Hand(_) => LoadAgrees(p, h, s);
      case BeginLogin(_, _, _, _) => BeginAgrees(p, h, s);
      case Start(retry) => StartAgrees(p, h, retry);
      case EndLogin(_, _, _) => EndAgrees(p, h, s);
      case _ =>
    }
  }

  lemma EndAgrees(p: Provider, h: Past, s: Step)
    requires Possible(p, s) && SavesSucceed(s) && Agrees(p, h) && s.EndLogin?
    ensures Agrees(Next(p, s), Remember(h, p, s, Next(p, s)))
  {
  }

  lemma {:induction false} AgreesRun(p: Provider, run: seq<Step>, k: nat)
    requires Initial(p) && Legal(p, run) && AllSavesSucceed(run) && k <= |run|
    ensures Agrees(After(p, run[..k]), PastOf(p, run[..k]))
    decreases k
  {
    hide Inv, Synced, Possible, Next, SavesSucceed, Legal, Agrees, Remember;
    if k == 0 {
      assert run[..0] == [];
      InitialAgrees(p);
    } else {
      AgreesRun(p, run, k - 1);
      SyncedRun(p, run, k - 1);
      PrefixLegal(p, run, k - 1);
      NextPrefix(p, run, k - 1);
      assert run[..k][..k - 1] == run[..k - 1];
      AgreesStep(After(p, run[..k - 1]), PastOf(p, run[..k - 1]), run[k - 1]);
    }
  }

  lemma InitialAgrees(p: Provider)
    requires Initial(p)
    ensures Agrees(p, Past(None, None))
  {
  }

  // ---------------------------------------------------------------- results over runs

  /**
   Over every run whose saves succeed, an open episode names, in memory and on disk, the session
   that was loaded when it opened.
   */
  lemma LostSessionIsSaved(p: Provider, run: seq<Step>)
    requires Initial(p) && Legal(p, run) && AllSavesSucceed(run) && After(p, run).schedule.detected.Some?
    ensures var end, lost := After(p, run), PastOf(p, run).lost;
      end.generation == lost && end.saved.Some? && end.saved.value.generation == lost
  {
    hide Legal, After, PastOf, Inv;
    assert run[..|run|] == run;
    AgreesRun(p, run, |run|);
    SyncedRun(p, run, |run|);
  }

  /** Until it is replaced the same episode stays open, and the session it lost stays the lost one. */
  lemma {:induction false} EpisodeHolds(p: Provider, run: seq<Step>, i: nat, k: nat)
    requires Initial(p) && Legal(p, run) && AllSavesSucceed(run) && i <= k <= |run|
    requires After(p, run[..i]).schedule.detected.Some?
    requires forall j :: i <= j < k ==> !Replaces(After(p, run[..j]), run[j], PastOf(p, run[..i]).lost)
    ensures After(p, run[..k]).schedule.detected == After(p, run[..i]).schedule.detected
    ensures PastOf(p, run[..k]).lost == PastOf(p, run[..i]).lost
    ensures After(p, run[..i]).schedule.blocked.Some? ==>
      && After(p, run[..k]).schedule.blocked == After(p, run[..i]).schedule.blocked
      && After(p, run[..k]).logins == After(p, run[..i]).logins
    decreases k
  {
    hide Inv, Synced, Possible, Next, SavesSucceed, Initial, Legal, Replaces, After;
    if i < k {
      var w, s := After(p, run[..k - 1]), run[k - 1];
      EpisodeHolds(p, run, i, k - 1);
      SyncedRun(p, run, k - 1);
      AgreesRun(p, run, k - 1);
      PrefixLegal(p, run, k - 1);
      NextPrefix(p, run, k - 1);
      assert run[..k][..k - 1] == run[..k - 1];
      UnreplacedStays(w, s, PastOf(p, run[..k - 1]));
      OpenEpisodeStays(w, s);
      if w.schedule.blocked.Some? { BlockedStays(w, s); }
    }
  }

  lemma UnreplacedStays(p: Provider, s: Step, h: Past)
    requires Agrees(p, h) && p.schedule.detected.Some? && !Replaces(p, s, h.lost)
    ensures !Closes(p, s)
  {
  }

  lemma BlockedStays(p: Provider, s: Step)
    requires Inv(p) && Synced(p) && Possible(p, s) && SavesSucceed(s) && p.schedule.detected.Some? && !Closes(p, s)
    requires p.schedule.blocked.Some?
    ensures Next(p, s).schedule.blocked == p.schedule.blocked && Next(p, s).logins == p.logins
  {
    hide Reserved, Covered, Spaced, Delayed;
    if s.Start? { StartedUpSynced(p, s.retry); }
  }

  /**
   Over every run whose saves succeed, whatever crashes, restarts and interleavings it holds: an
   episode is over only after a login, or after the loading of a session of another generation
   than the one that was loaded when it opened.
   */
  lemma EpisodeEndsOnlyByAnotherSession(p: Provider, run: seq<Step>, i: nat, k: nat)
    requires Initial(p) && Legal(p, run) && AllSavesSucceed(run) && i <= k <= |run|
    requires After(p, run[..i]).schedule.detected.Some? && After(p, run[..k]).schedule.detected.None?
    ensures exists j :: i <= j < k && Replaces(After(p, run[..j]), run[j], PastOf(p, run[..i]).lost)
  {
    hide Legal, After, Initial, Replaces, AllSavesSucceed, PastOf;
    if forall j :: i <= j < k ==> !Replaces(After(p, run[..j]), run[j], PastOf(p, run[..i]).lost) {
      EpisodeHolds(p, run, i, k);
    }
  }

  /** So the session that was logged out is never handed out again in its own episode. */
  lemma LostSessionIsNotHandedOut(p: Provider, run: seq<Step>, i: nat, k: nat)
    requires Initial(p) && Legal(p, run) && AllSavesSucceed(run) && i <= k < |run|
    requires After(p, run[..i]).schedule.detected.Some?
    requires run[k].Hand? && Handed(After(p, run[..k]), run[k].saveFails).1.Some?
    ensures exists j :: i <= j <= k && Replaces(After(p, run[..j]), run[j], PastOf(p, run[..i]).lost)
  {
    hide Legal, After, Initial, Replaces, AllSavesSucceed, PastOf, Loaded, NewGeneration, Agrees;
    var lost := PastOf(p, run[..i]).lost;
    if forall j :: i <= j < k ==> !Replaces(After(p, run[..j]), run[j], lost) {
      EpisodeHolds(p, run, i, k);
      AgreesRun(p, run, k);
      NoClientWhileLoggedOut(After(p, run[..k]), run[k].saveFails);
      NewIsAnother(After(p, run[..k]), run[k], PastOf(p, run[..k]));
    }
  }

  lemma NewIsAnother(p: Provider, s: Step, h: Past)
    requires Agrees(p, h) && s.Hand? && NewGeneration(p)
    ensures Replaces(p, s, h.lost)
  {
  }

  /** After a rejected login no password is sent again before the episode is replaced. */
  lemma RejectedLoginIsNotRepeated(p: Provider, run: seq<Step>, i: nat, k: nat)
    requires Initial(p) && Legal(p, run) && AllSavesSucceed(run) && i <= k <= |run|
    requires After(p, run[..i]).schedule.detected.Some? && After(p, run[..i]).schedule.blocked.Some?
    requires forall j :: i <= j < k ==> !Replaces(After(p, run[..j]), run[j], PastOf(p, run[..i]).lost)
    ensures After(p, run[..k]).logins == After(p, run[..i]).logins
  {
    hide Legal, After, Initial, Replaces, AllSavesSucceed, PastOf;
    EpisodeHolds(p, run, i, k);
  }

  // ---------------------------------------------------------------- what each call does

  /** The session file yields a client: the one cached from it, or a new one. */
  predicate Readable(p: Provider) {
    p.file.Some? && ((p.cached.Some? && p.stamp == Some(p.file.value.stamp)) || p.file.value.content.Usable?)
  }

  /** With no episode open a client is handed out exactly when the file yields one, and again the same one. */
  lemma ClientIsHandedOut(p: Provider, saveFails: bool)
    requires Inv(p) && p.running && p.schedule.detected.None?
    ensures var (q, client) := Handed(p, saveFails);
      && (client.Some? <==> Readable(p))
      && (client.Some? ==> q.cached == client && q.schedule == p.schedule)
      && (client.Some? ==> Handed(q, saveFails) == (q, client))
      && (client.Some? && p.cached.Some? && p.stamp == Some(p.file.value.stamp) ==> q == p && client == p.cached)
  {
  }

  /** An episode opens at the time of its report, due after the Beijing delay, not blocked and without attempts. */
  lemma EpisodeOpensAtItsReport(p: Provider, error: ErrorKind, client: Option<nat>, now: real)
    requires Inv(p) && p.schedule.detected.None? && Reported(p, error, client, now, false).schedule.detected.Some?
    ensures var q := Reported(p, error, client, now, false);
      && q.schedule.detected == Some(now)
      && q.schedule.reason == Some(if error == LoggedOut(true) then "logged_in_elsewhere" else "session_expired")
      && LoginDelay(now).Success?
      && q.schedule.due == Some(now + LoginDelay(now).value)
      && q.schedule.attempts == 0 && q.schedule.blocked.None? && q.cached == p.cached
  {
  }

  /** An imported session is loaded at the next call, whatever was loaded before. */
  lemma ImportedSessionIsLoaded(p: Provider, imported: SessionFile, saveFails: bool)
    requires Inv(p) && Possible(p, Import(imported)) && p.schedule.detected.None? && imported.content.Usable?
    ensures var (q, client) := Handed(Next(p, Import(imported)), saveFails);
      && client == q.cached == Some(p.clients)
      && q.session == Some(imported.generation) && q.stamp == Some(imported.stamp)
  {
  }

  /** The file holds a usable session that is not the lost one and is not the one already loaded. */
  predicate AnotherSession(p: Provider) {
    && p.file.Some? && p.file.value.content.Usable? && p.generation != Some(p.file.value.generation)
    && (p.cached.Some? ==> !p.schedule.inProgress && p.stamp != Some(p.file.value.stamp))
  }

  /** During an episode a client is handed out exactly for another session, which ends the episode on disk, too. */
  lemma AnotherSessionEndsTheEpisode(p: Provider, saveFails: bool)
    requires Inv(p) && p.running && p.schedule.detected.Some?
    ensures var (q, client) := Handed(p, saveFails);
      && (client.Some? <==> AnotherSession(p) && !saveFails)
      && (client.Some? ==>
          && q.schedule == Fresh(p.schedule.retry) && q.cached == client && q.stamp == Some(p.file.value.stamp)
          && q.session == q.generation == Some(p.file.value.generation)
          && q.saved == Some(SavedState(ToSaved(Fresh(p.schedule.retry)), q.generation)))
  {
  }

  /**
   A password is sent exactly when an episode is due, not blocked, and still about the session in the
   file, and the next deadline could be reserved on disk first.
   */
  lemma PasswordIsSentWhenDue(p: Provider, now: real, enabled: bool, loadSaveFails: bool, saveFails: bool)
    requires Inv(p) && p.running && !p.ending && !p.loggingIn
    ensures var (q, sent) := Begun(p, now, enabled, loadSaveFails, saveFails);
      && (sent <==>
          && enabled && Readable(p) && p.schedule.detected.Some? && p.schedule.blocked.None?
          && now >= p.schedule.due.value && !AnotherSession(p)
          && ValidTime(now) && ValidTime(now + p.schedule.retry) && !saveFails)
      && (sent ==> q.loggingIn && q.saved.Some? && q.saved.value.schedule.due == Some(now + p.schedule.retry))
  {
    hide Covered, Spaced, Delayed;
  }

  /** While nothing fails, only a key that cannot be used ends the consumer's loop here. */
  lemma BadKeyEndsTheLoop(p: Provider, now: real, enabled: bool)
    requires Inv(p) && p.running && !p.ending && !p.loggingIn && ValidTime(now) && ValidTime(now + p.schedule.retry)
    ensures Begun(p, now, enabled, false, false).0.ending <==>
      && p.file.Some? && p.file.value.content.BadKey?
      && (p.cached.Some? ==> !p.schedule.inProgress && p.stamp != Some(p.file.value.stamp))
  {
    hide Covered, Spaced, Delayed;
  }

  /** The process may die and the session file may change at every point, so the results cover both. */
  lemma AnyPointOfARun(p: Provider, run: seq<Step>, k: nat, file: Option<SessionFile>)
    requires Legal(p, run) && k <= |run|
    ensures Legal(p, run[..k] + [Crash]) && Legal(p, run[..k] + [ReplaceFile(file)])
    ensures !After(p, run[..k] + [Crash]).running && After(p, run[..k] + [ReplaceFile(file)]).file == file
  {
    hide Legal, After;
    PrefixLegal(p, run, k);
    OneMoreStep(p, run[..k], Crash);
    OneMoreStep(p, run[..k], ReplaceFile(file));
  }

  lemma OneMoreStep(p: Provider, run: seq<Step>, s: Step)
    requires Legal(p, run) && Possible(After(p, run), s)
    ensures Legal(p, run + [s]) && After(p, run + [s]) == Next(After(p, run), s)
  {
    hide Possible, Next;
    assert (run + [s])[..|run|] == run;
  }

  /** What the end of a login leaves: a rejection blocks, any other failure sets a later deadline. */
  lemma LoginOutcomes(p: Provider, now: real)
    requires Inv(p) && p.running && p.loggingIn && ValidTime(now)
    requires ValidTime(now + p.schedule.retry) && ValidTime(p.schedule.last.value + p.schedule.retry)
    ensures var rejected, failed := Ended(p, LoginRejected, now, false), Ended(p, LoginFailed, now, false);
      && !rejected.ending && !failed.ending
      && rejected.schedule.detected == failed.schedule.detected == p.schedule.detected
      && rejected.schedule.blocked.Some? && failed.schedule.blocked.None?
      && failed.schedule.due.Some? && failed.schedule.due.value >= now + p.schedule.retry
      && (now >= p.schedule.last.value ==> failed.schedule.due.value == now + p.schedule.retry)
  {
  }
}
