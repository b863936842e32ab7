// The worker of one Steam account, as far as its desired state and its retries go. An operation runs up to an await
// that matters and goes on in `Continue`; every method is one step of the machine and therefore sound.
module SteamWorker {
  import opened Results
  import opened RetryTimers

  class SteamAccountWorker {
    var desiredState: Desired
    var intentGeneration: nat
    var status: Status
    var connected: bool
    var quiescing: bool
    var manuallyPaused: bool
    var blockedByOtherSession: bool
    var sessionConflictMode: Mode
    var sessionConflictAttempt: nat
    var handledConflictLoginAttemptId: Option<nat>
    var loginAttemptId: nat
    var reconnectAttempt: nat
    var reconnectTimer: Option<Retry>
    var sessionConflictTimer: Option<Retry>
    // Operations of retries whose timer has fired, in their order.
    var queue: seq<Retry>
    // The operation suspended at an await.
    var underway: Option<Underway>
    // What has gone out to Steam.
    var logOns: nat
    var probes: nat

    ghost function State(): Worker
      reads this
    {
      Worker(desiredState, intentGeneration, status, connected, quiescing, manuallyPaused, blockedByOtherSession,
             sessionConflictMode, sessionConflictAttempt, handledConflictLoginAttemptId, loginAttemptId,
             reconnectAttempt, reconnectTimer, sessionConflictTimer, queue, underway, logOns, probes)
    }

    // The step that event `e` stands for has been taken, and it was a sound one.
    twostate predicate Stepped(e: Event)
      reads this
    {
      State() == After(old(State()), e) && Sound(old(State()), State())
    }

    constructor (desired: Desired)
      ensures State() == Created(desired) && Inv(State())
    {
      desiredState, intentGeneration, status, connected, quiescing := desired, 0, Other, false, false;
      manuallyPaused, blockedByOtherSession, sessionConflictMode := false, false, NoConflict;
      sessionConflictAttempt, handledConflictLoginAttemptId, loginAttemptId, reconnectAttempt := 0, None, 0, 0;
      reconnectTimer, sessionConflictTimer, queue, underway, logOns, probes := None, None, [], None, 0, 0;
    }

    // ---- Shared steps ----

    method SetDesiredState(desired: Desired)
      modifies `desiredState, `intentGeneration
      ensures State() == SetDesired(old(State()), desired)
    {
      if desiredState != desired {
        intentGeneration := intentGeneration + 1;
      }
      desiredState := desired;
    }

    method ClearRetryTimers()
      modifies `reconnectTimer, `sessionConflictTimer
      ensures State() == ClearTimers(old(State()))
    {
      reconnectTimer := None;
      sessionConflictTimer := None;
    }

    method ResetSessionConflict()
      modifies `sessionConflictAttempt, `sessionConflictMode, `handledConflictLoginAttemptId, `blockedByOtherSession
      ensures State() == ResetConflict(old(State()))
    {
      sessionConflictAttempt := 0;
      sessionConflictMode := NoConflict;
      handledConflictLoginAttemptId := None;
      blockedByOtherSession := false;
    }

    method ApplyGamesNow()
      modifies `status
      ensures State() == ApplyGames(old(State()))
    {
      if quiescing || !connected {
        return;
      }
      if manuallyPaused {
        status := Other;
        return;
      }
      if blockedByOtherSession {
        status := Other;
        return;
      }
      status := Playing;
    }

    // Up to the await before the login.
    method StartNow(token: bool, cause: Option<Retry>)
      modifies `manuallyPaused, `desiredState, `intentGeneration, `status, `underway
      ensures State() == Started(old(State()), token, cause)
    {
      if quiescing {
        return;
      }
      if status == Connecting || (connected && status == Playing) {
        return;
      }
      if !token {
        status := Other;
        return;
      }
      BeginLogin(cause);
    }

    method BeginLogin(cause: Option<Retry>)
      modifies `manuallyPaused, `desiredState, `intentGeneration, `status, `underway
      ensures State() == LoginBegun(old(State()), cause)
    {
      manuallyPaused := false;
      SetDesiredState(Running);
      hide SetDesired;
      status := Connecting;
      underway := Some(WillLogOn(cause));
    }

    // What interrupts a farm for good pauses its account.
    method PauseFarm()
      modifies `manuallyPaused, `desiredState, `intentGeneration
      ensures State() == FarmPaused(old(State()))
    {
      manuallyPaused := true;
      SetDesiredState(Paused);
    }

    // ---- Commands ----

    method StartCommand(token: bool)
      requires !quiescing && underway.None?
      modifies this
      ensures Stepped(Start(token))
    {
      StepIsSound(State(), Start(token));
      hide Sound;
      StartNow(token, None);
    }

    method StopNow()
      requires !quiescing && underway.None?
      modifies this
      ensures Stepped(Stop)
    {
      StepIsSound(State(), Stop);
      hide Sound;
      ClearRetryTimers();
      ResetSessionConflict();
      SetDesiredState(Stopped);
      connected := false;
      status := Other;
    }

    // `shouldPause` says how often the caller's guard still holds.
    method PauseNow(shouldPause: nat)
      requires !quiescing && underway.None?
      modifies this
      ensures Stepped(Pause(shouldPause))
    {
      StepIsSound(State(), Pause(shouldPause));
      hide Sound;
      if shouldPause == 0 {
        return;
      }
      ClearRetryTimers();
      ResetSessionConflict();
      if shouldPause == 1 {
        return;
      }
      manuallyPaused := true;
      SetDesiredState(Paused);
      if shouldPause == 2 {
        return;
      }
      status := Other;
    }

    method ForceDisconnectForSafety(shouldPause: bool)
      requires !quiescing && underway.None?
      modifies this
      ensures Stepped(ForceDisconnect(shouldPause))
    {
      StepIsSound(State(), ForceDisconnect(shouldPause));
      hide Sound;
      ClearRetryTimers();
      ResetSessionConflict();
      manuallyPaused := true;
      SetDesiredState(Paused);
      if !shouldPause {
        return;
      }
      connected := false;
      status := Other;
    }

    method ResumeNow(token: bool)
      requires !quiescing && underway.None?
      modifies this
      ensures Stepped(Resume(token))
    {
      StepIsSound(State(), Resume(token));
      hide Sound;
      manuallyPaused := false;
      SetDesiredState(Running);
      hide SetDesired;
      if !connected {
        StartNow(token, None);
        return;
      }
      ApplyGamesNow();
    }

    method UpdateAccountNow(desired: Desired)
      requires !quiescing && underway.None?
      modifies this
      ensures Stepped(UpdateAccount(desired))
    {
      StepIsSound(State(), UpdateAccount(desired));
      hide Sound;
      TakeOver(desired);
      hide TakenOver;
      ApplyGamesNow();
    }

    // The desired state of the new account row; leaving Running ends the retries.
    method TakeOver(desired: Desired)
      modifies this
      ensures State() == TakenOver(old(State()), desired)
    {
      if desired != desiredState {
        intentGeneration := intentGeneration + 1;
        if desired != Running {
          ClearRetryTimers();
          ResetSessionConflict();
        }
      }
      desiredState := desired;
    }

    // Synchronous, whatever operation is suspended.
    method BeginShutdownNow()
      modifies this
      ensures Stepped(BeginShutdown)
    {
      StepIsSound(State(), BeginShutdown);
      hide Sound;
      if quiescing {
        return;
      }
      quiescing := true;
      ClearRetryTimers();
      ResetSessionConflict();
    }

    // ---- Retries ----

    method TimerFires(reconnect: bool)
      modifies this
      ensures Stepped(if reconnect then ReconnectFires else ConflictFires)
    {
      StepIsSound(State(), if reconnect then ReconnectFires else ConflictFires);
      hide Sound;
      var timer := if reconnect then reconnectTimer else sessionConflictTimer;
      if timer.None? {
        return;
      }
      if reconnect {
        reconnectTimer := None;
      } else {
        sessionConflictTimer := None;
      }
      if quiescing {
        return;
      }
      queue := queue + [timer.value];
    }

    // The turn of a queued retry comes; `throws` says whether starting fails.
    method RunRetry(index: nat, token: bool, throws: bool)
      requires underway.None? && index < |queue|
      modifies this
      ensures Stepped(RunQueued(index, token, throws))
    {
      StepIsSound(State(), RunQueued(index, token, throws));
      hide Sound;
      var retry := queue[index];
      queue := queue[..index] + queue[index + 1..];
      OperateRetry(retry, token, throws);
    }

    method OperateRetry(retry: Retry, token: bool, throws: bool)
      requires underway.None?
      modifies this
      ensures State() == Retried(old(State()), retry, token, throws)
    {
      if quiescing || desiredState != Running || intentGeneration != retry.generation {
        return;
      }
      match retry.kind {
        case Reconnect(_) =>
          underway := Some(WillStart(retry, token, throws));
        case Conflict(resetCycle) =>
          if resetCycle {
            sessionConflictAttempt := 0;
          }
          if sessionConflictMode == Live {
            RetryLiveSessionConflict(retry);
          } else if !throws {
            StartNow(token, Some(retry));
          }
      }
    }

    method RetryLiveSessionConflict(retry: Retry)
      modifies this
      ensures State() == RetriedLive(old(State()), retry)
    {
      if !blockedByOtherSession {
        ResetSessionConflict();
        ApplyGamesNow();
        return;
      }
      underway := Some(WillProbe(retry));
    }

    // ---- After an await ----

    method Continue(jitter: Jitter)
      requires underway.Some?
      modifies this
      ensures Stepped(Proceed(jitter))
    {
      StepIsSound(State(), Proceed(jitter));
      hide Sound, Continued;
      var step := underway.value;
      underway := None;
      GoOn(step, jitter);
    }

    method GoOn(step: Underway, jitter: Jitter)
      requires underway.None?
      modifies this
      ensures State() == Continued(old(State()), step, jitter)
    {
      hide Started, StartedOrRescheduled, ReconnectPrepared, ConflictPrepared, Armed, LoggingOn, PlayingNoted, LossSettled;
      match step {
        case WillLogOn(_) => LogOn();
        case WillStart(retry, token, throws) => StartOrReschedule(retry, token, throws);
        case WillProbe(_) => Probe();
        case WillReconnect(minimumDelay) => ScheduleReconnect(minimumDelay, jitter);
        case WillRegister(source) => RegisterSessionConflict(source);
        case WillArm(retry) => Arm(retry);
        case WillNotePlaying(nowBlocked, farming) => NotePlaying(nowBlocked, farming);
        case WillSettleLoss(failure) => SettleLoss(failure);
      }
    }

    method LogOn()
      modifies `loginAttemptId, `handledConflictLoginAttemptId, `logOns
      ensures State() == if old(quiescing) then old(State()) else LoggingOn(old(State()))
    {
      if quiescing {
        return;
      }
      loginAttemptId := loginAttemptId + 1;
      handledConflictLoginAttemptId := None;
      logOns := logOns + 1;
    }

    method StartOrReschedule(retry: Retry, token: bool, throws: bool)
      modifies this
      ensures State() == StartedOrRescheduled(old(State()), retry, token, throws)
    {
      // The queue refuses the command when a shutdown has begun.
      if !(throws || quiescing) {
        StartNow(token, Some(retry));
      } else if retry.kind.Reconnect? && desiredState == Running && intentGeneration == retry.generation {
        underway := Some(WillReconnect(retry.kind.minimumDelay));
      }
    }

    method Probe()
      modifies `probes, `underway
      ensures State() == if old(quiescing) then old(State())
                         else old(State()).(probes := old(probes) + 1, underway := Some(WillRegister(Live)))
    {
      if quiescing {
        return;
      }
      probes := probes + 1;
      underway := Some(WillRegister(Live));
    }

    method ScheduleReconnect(minimumDelay: nat, jitter: Jitter)
      modifies this
      ensures State() == ReconnectPrepared(old(State()), minimumDelay, jitter)
    {
      ClearRetryTimers();
      ResetSessionConflict();
      reconnectAttempt := reconnectAttempt + 1;
      var delay := ReconnectDelay(reconnectAttempt, minimumDelay, jitter);
      underway := Some(WillArm(Retry(Reconnect(minimumDelay), intentGeneration, delay)));
    }

    method RegisterSessionConflict(source: Mode)
      modifies this
      ensures State() == ConflictPrepared(old(State()), source)
    {
      ClearRetryTimers();
      sessionConflictMode := source;
      sessionConflictAttempt := sessionConflictAttempt + 1;
      var cooldown := sessionConflictAttempt >= 3;
      underway := Some(WillArm(Retry(Conflict(cooldown), intentGeneration, ConflictDelay(sessionConflictAttempt))));
    }

    method Arm(retry: Retry)
      modifies `reconnectTimer, `sessionConflictTimer
      ensures State() == Armed(old(State()), retry)
    {
      if retry.kind.Reconnect? {
        reconnectTimer := Some(retry);
      } else {
        sessionConflictTimer := Some(retry);
      }
    }

    // ---- Steam's events ----

    method OnLoggedOn(eventIntentGeneration: nat)
      requires !quiescing && underway.None?
      modifies this
      ensures Stepped(LoggedOn(eventIntentGeneration))
    {
      StepIsSound(State(), LoggedOn(eventIntentGeneration));
      hide Sound;
      if eventIntentGeneration != intentGeneration || desiredState != Running {
        return;
      }
      connected := true;
      reconnectAttempt := 0;
      ClearRetryTimers();
      ResetSessionConflict();
      status := Playing;
      ApplyGamesNow();
    }

    method OnPlayingState(eventIntentGeneration: nat, blocked: bool, farming: bool)
      requires !quiescing && underway.None?
      modifies this
      ensures Stepped(PlayingState(eventIntentGeneration, blocked, farming))
    {
      StepIsSound(State(), PlayingState(eventIntentGeneration, blocked, farming));
      hide Sound;
      if eventIntentGeneration != intentGeneration {
        return;
      }
      underway := Some(WillNotePlaying(blocked, farming));
    }

    method NotePlaying(blocked: bool, farming: bool)
      modifies this
      ensures State() == PlayingNoted(old(State()), blocked, farming)
    {
      var wasBlocked := blockedByOtherSession;
      if blocked {
        LeaveToOther(farming);
        hide UsedElsewhere;
        if !wasBlocked && desiredState == Running {
          underway := Some(WillRegister(Live));
        }
        return;
      }
      blockedByOtherSession := false;
      if !wasBlocked {
        return;
      }
      if !manuallyPaused && desiredState == Running {
        sessionConflictTimer := None;
        ResetSessionConflict();
        ApplyGamesNow();
      }
    }

    method LeaveToOther(farming: bool)
      modifies `blockedByOtherSession, `manuallyPaused, `desiredState, `intentGeneration, `status
      ensures State() == UsedElsewhere(old(State()), farming)
    {
      hide FarmPaused;
      blockedByOtherSession := true;
      if farming {
        PauseFarm();
      }
      status := Other;
    }

    method OnLost(eventIntentGeneration: nat, failure: Failure, farming: bool, resumes: bool)
      requires !quiescing && underway.None?
      modifies this
      ensures Stepped(Lost(eventIntentGeneration, failure, farming, resumes))
    {
      StepIsSound(State(), Lost(eventIntentGeneration, failure, farming, resumes));
      hide Sound;
      if eventIntentGeneration != intentGeneration {
        return;
      }
      LoseConnection(failure, farming, resumes);
      hide ConnectionLost;
      underway := Some(WillSettleLoss(failure));
    }

    method SettleLoss(failure: Failure)
      modifies this
      ensures State() == LossSettled(old(State()), failure)
    {
      if handledConflictLoginAttemptId == Some(loginAttemptId) {
        return;
      }
      match failure {
        case Replaced => HandleLoginSessionConflict();
        case Terminal => HandleTerminalFailure();
        case Passing(minimumDelay) =>
          status := Other;
          if desiredState == Running {
            underway := Some(WillReconnect(minimumDelay));
          }
      }
    }

    // A farm that does not resume after the reconnect pauses the account.
    method LoseConnection(failure: Failure, farming: bool, resumes: bool)
      modifies `manuallyPaused, `desiredState, `intentGeneration, `connected
      ensures State() == ConnectionLost(old(State()), failure, farming, resumes)
    {
      var resumeFarming :=
        farming && failure.Passing? && handledConflictLoginAttemptId != Some(loginAttemptId) && resumes;
      hide FarmPaused;
      if farming && !resumeFarming {
        PauseFarm();
      }
      connected := false;
    }

    method HandleLoginSessionConflict()
      modifies this
      ensures State() == LoginConflict(old(State()))
    {
      if handledConflictLoginAttemptId == Some(loginAttemptId) {
        return;
      }
      handledConflictLoginAttemptId := Some(loginAttemptId);
      connected := false;
      blockedByOtherSession := false;
      status := Other;
      underway := Some(WillRegister(Login));
    }

    method HandleTerminalFailure()
      modifies this
      ensures State() == Terminated(old(State()))
    {
      ClearRetryTimers();
      ResetSessionConflict();
      connected := false;
      SetDesiredState(Paused);
      status := Other;
    }
  }
}
