/**
 The session provider itself. Each method is one section under the provider's lock and is
 proved to take exactly the protocol's step, so every interleaving of threads is a legal run.
 Status-file updates and log lines carry no decision and are absent.
 */
module ClientProviders {
  import opened Common
  import opened Recovery
  import opened LoginProtocol

  class ClientProvider {
    var file: Option<SessionFile>          // on disk
    var saved: Option<SavedState>          // on disk
    var cached: Option<nat>
    var session: Option<string>            // the loaded session's generation
    var stamp: Option<int>
    var schedule: RecoverySchedule
    var generation: Option<string>
    var clients: nat
    ghost var ending: bool                 // the consumer thread has left its loop
    ghost var loggingIn: bool
    ghost var episodes: nat
    ghost var episode: nat
    ghost var savedEpisode: nat
    ghost var logins: seq<Login>

    /** A running provider as the protocol sees it. */
    ghost function Abs(): Provider
      reads this, schedule
    {
      Provider(file, saved, true, ending, cached, session, stamp, schedule.Abs(), generation, loggingIn,
               clients, episodes, episode, savedEpisode, logins)
    }

    /** Start-up with what the disk holds; `before` is the state of the provider that stopped. */
    constructor (file: Option<SessionFile>, saved: Option<SavedState>, retry: real, clients: nat,
                 ghost before: Provider)
      requires !before.running && retry > 0.0 && before.file == file && before.saved == saved
        && before.clients == clients
      requires saved.Some? ==> Restored(saved.value.schedule, Some(retry)).Success?
      ensures Abs() == StartedUp(before, retry) && fresh(schedule)
    {
      this.file, this.saved, this.clients := file, saved, clients;
      cached, session, stamp, ending := None, None, None, false;
      loggingIn, episodes, savedEpisode, logins := false, before.episodes, before.savedEpisode, before.logins;
      if saved.Some? {
        schedule := new RecoverySchedule.FromSaved(saved.value.schedule, Some(retry));
        generation, episode := saved.value.generation, before.savedEpisode;
      } else {
        schedule := new RecoverySchedule(retry);
        generation, episode := None, before.episode;
      }
    }

    /** An atomic file replacement that may fail, and then leaves the previous state. */
    method Persist(fails: bool)
      modifies `saved, `savedEpisode
      ensures Abs() == if fails then old(Abs()) else Persisted(old(Abs()))
    {
      if !fails {
        var v := schedule.ToDict();
        saved, savedEpisode := Some(SavedState(v, generation)), episode;
      }
    }

    /** A session of another generation ends the episode; its close is saved. */
    method CloseEpisode(newGeneration: string, saveFails: bool)
      modifies `generation, `saved, `savedEpisode, schedule
      ensures var closed :=
          old(Abs()).(schedule := SucceededSchedule(old(schedule.Abs())), generation := Some(newGeneration));
        Abs() == if saveFails then closed else Persisted(closed)
    {
      schedule.Succeeded();
      generation := Some(newGeneration);
      Persist(saveFails);
    }

    /** An exception that is not caught on the consumer thread ends its loop. */
    ghost method LeaveLoop()
      modifies `ending, `loggingIn
      ensures Abs() == Left(old(Abs()))
    {
      ending, loggingIn := true, false;
    }

    /** A usable session file is read into a new client. */
    method ReadFile(saveFails: bool) returns (client: Option<nat>)
      requires file.Some? && file.value.content.Usable? && !(schedule.inProgress && cached.Some?)
      requires cached.None? || stamp != Some(file.value.stamp)
      modifies this, schedule
      ensures (Abs(), client) == Loaded(old(Abs()), saveFails) && schedule == old(schedule)
    {
      hide Persisted, SucceededSchedule;
      if schedule.detected.Some? && generation != Some(file.value.generation) {
        CloseEpisode(file.value.generation, saveFails);
        if saveFails { return None; }
      }
      cached, session, stamp := Some(clients), Some(file.value.generation), Some(file.value.stamp);
      clients := clients + 1;
      return cached;
    }

    /** `badKey` is the `ApiError` of a session whose signing key cannot be used. */
    method LoadClient(saveFails: bool) returns (client: Option<nat>, badKey: bool)
      modifies this, schedule
      ensures (Abs(), client) == Loaded(old(Abs()), saveFails) && schedule == old(schedule)
      ensures badKey == KeyFails(old(Abs()))
    {
      hide Persisted, SucceededSchedule;
      client, badKey := cached, false;
      if schedule.inProgress && cached.Some? { return; }
      if file.None? { return None, false; }
      if cached.None? || stamp != Some(file.value.stamp) {
        if !file.value.content.Usable? { return None, file.value.content.BadKey?; }
        client := ReadFile(saveFails);
      }
    }

    /** `__call__`: while an episode is open it raises, whatever client is cached. */
    method Call(saveFails: bool) returns (client: Option<nat>)
      modifies this, schedule
      ensures (Abs(), client) == Handed(old(Abs()), saveFails) && schedule == old(schedule)
      ensures client.Some? ==> schedule.detected.None? && client == cached
    {
      var badKey: bool;
      client, badKey := LoadClient(saveFails);
      if schedule.detected.Some? { return None; }
    }

    method ReportError(error: ErrorKind, client: Option<nat>, now: real, saveFails: bool) returns (current: bool)
      modifies this, schedule
      ensures Abs() == Reported(old(Abs()), error, client, now, saveFails) && schedule == old(schedule)
      ensures current <==> client.None? || client == old(cached)
    {
      if client.Some? && client != cached { return false; }
      if error.LoggedOut? {
        var isNew := schedule.ObserveLogout(now, ReasonFor(error.elsewhere));
        if isNew == Success(true) {
          generation := session;
          episodes, episode := episodes + 1, episodes + 1;
          Persist(saveFails);
        }
      }
      return true;
    }

    /** A later success of a replaced client, or one seen during an episode, is not recorded. */
    method ReportSuccess(client: nat) returns (recorded: bool)
      ensures recorded <==> cached == Some(client) && schedule.detected.None?
    {
      recorded := cached == Some(client) && schedule.detected.None?;
    }

    /**
     The first locked section of `recover`. The retry deadline is on disk before the method
     answers that a password may be sent. A bad key, a clock error or a failing save ends the
     consumer thread's loop, with the state that the publisher thread then goes on with.
     */
    method BeginLogin(now: real, enabled: bool, loadSaveFails: bool, saveFails: bool) returns (send: bool, died: bool)
      requires !loggingIn && !ending
      modifies this, schedule
      ensures (Abs(), send) == Begun(old(Abs()), now, enabled, loadSaveFails, saveFails) && died == ending
      ensures send ==> saved.Some? && saved.value.schedule.due == Some(now + schedule.retry)
    {
      send, died := false, false;
      var client, badKey := LoadClient(loadSaveFails);
      if badKey {
        LeaveLoop();
        return false, true;
      }
      if client.None? || !enabled { return; }
      var attempt := schedule.StartAttempt(now);
      if attempt.Failure? {
        LeaveLoop();
        return false, true;
      }
      if !attempt.value { return; }
      Persist(saveFails);
      if saveFails {
        LeaveLoop();
        return false, true;
      }
      loggingIn := true;
      logins := logins + [Login(episode, now, schedule.retry, schedule.detected.value)];
      return true, false;
    }

    /** The locked section of the emulator import; its guards are read before, outside the lock. */
    method ImportSession(imported: SessionFile)
      requires !loggingIn && !ending
      modifies this
      ensures Abs() == Next(old(Abs()), Step.Import(imported)) && schedule == old(schedule)
    {
      file := Some(imported);
      cached, stamp := None, None;
    }

    method AdoptSession(newGeneration: string)
      requires file.Some?
      modifies this, schedule
      ensures Abs() == WithNewSession(old(Abs()), newGeneration)
    {
      session, cached, stamp := Some(newGeneration), Some(clients), Some(file.value.stamp);
      clients := clients + 1;
      schedule.Succeeded();
      generation, loggingIn := Some(newGeneration), false;
    }

    /** The locked section after `password_login` returned a session. */
    method LoginSucceeded(newGeneration: string, now: real, saveFails: bool) returns (died: bool)
      requires loggingIn && !ending
      modifies this, schedule
      ensures Abs() == Ended(old(Abs()), LoggedIn(newGeneration), now, saveFails) && died == ending
      ensures !died ==> schedule.detected.None?
    {
      if file.None? {
        session, cached := Some(newGeneration), Some(clients);
        clients := clients + 1;
        LeaveLoop();
        return true;
      }
      AdoptSession(newGeneration);
      Persist(saveFails);
      if saveFails { LeaveLoop(); }
      died := saveFails;
    }

    /** The locked sections of its two exception handlers. */
    method LoginNotSucceeded(rejected: bool, now: real, saveFails: bool) returns (died: bool)
      requires loggingIn && !ending
      modifies this, schedule
      ensures Abs() == Ended(old(Abs()), if rejected then LoginRejected else LoginFailed, now, saveFails)
      ensures died == ending && (!died ==> !schedule.inProgress)
    {
      var ok := schedule.Failed(now, if rejected then Some("login_rejected") else None);
      if !ok {
        LeaveLoop();
        return true;
      }
      loggingIn := false;
      Persist(saveFails);
      if saveFails { LeaveLoop(); }
      died := saveFails;
    }
  }
}
