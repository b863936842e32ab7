// The retries of one Steam worker. Operations of an account run one at a time; timers and Steam's events only queue
// operations, and an operation may run long after its cause. The intent generation tells which of them still count.
module RetryTimers {
  import opened Numbers
  import opened Results

  const FIVE_MINUTES := 5 * 60_000
  const FIFTEEN_MINUTES := 15 * 60_000
  const ONE_HOUR := 60 * 60_000

  datatype Desired = Running | Paused | Stopped

  // The statuses that `startNow` tells apart; Playing stands for online and boosting.
  datatype Status = Connecting | Playing | Other

  datatype Mode = NoConflict | Live | Login

  datatype Kind = Reconnect(minimumDelay: nat) | Conflict(resetCycle: bool)

  // An armed timer, and later its queued operation, with the generation it was scheduled under.
  datatype Retry = Retry(kind: Kind, generation: nat, delay: nat)

  datatype Failure = Terminal | Replaced | Passing(minimumDelay: nat)

  // The random part of a reconnect delay.
  type Jitter = j: nat | j < 2500

  // What an operation will do when its current await ends; `cause` is the retry it is the operation of.
  datatype Underway =
    | WillLogOn(cause: Option<Retry>)
    | WillStart(retry: Retry, token: bool, throws: bool)
    | WillProbe(retry: Retry)
    | WillReconnect(minimumDelay: nat)
    | WillRegister(mode: Mode)
    | WillArm(retry: Retry)
    | WillNotePlaying(nowBlocked: bool, farming: bool)
    | WillSettleLoss(failure: Failure)

  // The worker. `logOns` and `probes` count the logins and the live game reports it has sent to Steam.
  datatype Worker = Worker(
    desired: Desired, generation: nat, status: Status, connected: bool, quiescing: bool, manuallyPaused: bool,
    blocked: bool, mode: Mode, attempt: nat, handled: Option<nat>, loginAttempt: nat, reconnectAttempt: nat,
    reconnectTimer: Option<Retry>, conflictTimer: Option<Retry>, queued: seq<Retry>, underway: Option<Underway>,
    logOns: nat, probes: nat)

  datatype Event =
    // Commands.
    | Start(token: bool)
    | Stop
    | Pause(guardedUntil: nat)
    | ForceDisconnect(carriesOn: bool)
    | Attention
    | Resume(token: bool)
    | UpdateAccount(desired: Desired)
    // Synchronous: it may fall into the middle of an operation.
    | BeginShutdown
    // The await of the operation under way ends.
    | Proceed(jitter: Jitter)
    // Timers, and the operations they queue.
    | ReconnectFires
    | ConflictFires
    | RunQueued(index: nat, token: bool, throws: bool)
    // Steam's events, with the generation at the moment they were emitted.
    | LoggedOn(seen: nat)
    | PlayingState(seen: nat, nowBlocked: bool, farming: bool)
    | Lost(seen: nat, failure: Failure, farming: bool, resumes: bool)

  // ---- Delays ----

  function ConflictDelay(attempt: nat): nat {
    if attempt >= 3 then ONE_HOUR else FIVE_MINUTES
  }

  function ReconnectBackoff(attempt: nat): nat {
    Min(FIFTEEN_MINUTES, 10_000 * Power2(Min(attempt, 6)))
  }

  function ReconnectDelay(attempt: nat, minimum: nat, jitter: Jitter): nat {
    Max(ReconnectBackoff(attempt), minimum) + jitter
  }

  // From the first attempt on the backoff grows up to 640 seconds, and the quarter hour is never reached; with the
  // random part a later delay is never shorter by 2.5 seconds or more.
  lemma ReconnectDelayGrows(attempt: nat, later: nat, minimum: nat, jitter: Jitter, laterJitter: Jitter)
    requires 1 <= attempt <= later
    ensures 20_000 <= ReconnectBackoff(attempt) <= ReconnectBackoff(later) <= 640_000 < FIFTEEN_MINUTES
    ensures ReconnectDelay(attempt, minimum, jitter) < ReconnectDelay(later, minimum, laterJitter) + 2500
    ensures ReconnectDelay(later, minimum, laterJitter) < Max(640_000, minimum) + 2500
  {
    Power2Grows(1, Min(attempt, 6));
    Power2Grows(Min(attempt, 6), Min(later, 6));
    Power2Grows(Min(later, 6), 6);
    SmallPowers();
  }

  // The backoff doubles from twenty seconds on until the sixth attempt.
  lemma BackoffDoubles(attempt: nat)
    requires 1 <= attempt
    ensures ReconnectBackoff(1) == 20_000
    ensures ReconnectBackoff(attempt + 1) == if attempt < 6 then 2 * ReconnectBackoff(attempt) else ReconnectBackoff(attempt)
    ensures ReconnectBackoff(6) == 640_000
  {
    SmallPowers();
    if attempt < 6 {
      Power2Grows(attempt, 6);
      assert Power2(attempt + 1) == 2 * Power2(attempt);
    }
  }

  // ---- The operations, up to their next await that matters ----

  function SetDesired(w: Worker, desired: Desired): Worker {
    if w.desired == desired then w else w.(desired := desired, generation := w.generation + 1)
  }

  function ClearTimers(w: Worker): Worker {
    w.(reconnectTimer := None, conflictTimer := None)
  }

  function ResetConflict(w: Worker): Worker {
    w.(attempt := 0, mode := NoConflict, handled := None, blocked := false)
  }

  function ApplyGames(w: Worker): Worker {
    if w.quiescing || !w.connected then w
    else w.(status := if w.manuallyPaused || w.blocked then Other else Playing)
  }

  function LoginBegun(w: Worker, cause: Option<Retry>): Worker {
    SetDesired(w.(manuallyPaused := false), Running).(status := Connecting, underway := Some(WillLogOn(cause)))
  }

  function FarmPaused(w: Worker): Worker {
    SetDesired(w.(manuallyPaused := true), Paused)
  }

  function Started(w: Worker, token: bool, cause: Option<Retry>): Worker {
    if w.quiescing || w.status == Connecting || (w.connected && w.status == Playing) then w
    else if !token then w.(status := Other)
    else LoginBegun(w, cause)
  }

  function LoginConflict(w: Worker): Worker {
    if w.handled == Some(w.loginAttempt) then w
    else
      w.(handled := Some(w.loginAttempt), connected := false, blocked := false, status := Other,
         underway := Some(WillRegister(Login)))
  }

  function Terminated(w: Worker): Worker {
    SetDesired(ResetConflict(ClearTimers(w)).(connected := false), Paused).(status := Other)
  }

  function StoppedNow(w: Worker): Worker {
    SetDesired(ResetConflict(ClearTimers(w)), Stopped).(connected := false, status := Other)
  }

  // A pause whose guard may fail at its start, after clearing the timers, or after the desired state was written.
  function PausedNow(w: Worker, guardedUntil: nat): Worker {
    if guardedUntil == 0 then w
    else
      var cleared := ResetConflict(ClearTimers(w));
      if guardedUntil == 1 then cleared
      else
        var paused := SetDesired(cleared.(manuallyPaused := true), Paused);
        if guardedUntil == 2 then paused else paused.(status := Other)
  }

  function Disconnected(w: Worker, carriesOn: bool): Worker {
    var paused := SetDesired(ResetConflict(ClearTimers(w)).(manuallyPaused := true), Paused);
    if carriesOn then paused.(connected := false, status := Other) else paused
  }

  function Resumed(w: Worker, token: bool): Worker {
    var wanted := SetDesired(w.(manuallyPaused := false), Running);
    if wanted.connected then ApplyGames(wanted) else Started(wanted, token, None)
  }

  function TakenOver(w: Worker, desired: Desired): Worker {
    SetDesired(if desired != w.desired && desired != Running then ResetConflict(ClearTimers(w)) else w, desired)
  }

  function Updated(w: Worker, desired: Desired): Worker {
    ApplyGames(TakenOver(w, desired))
  }

  function RetriedLive(w: Worker, r: Retry): Worker {
    if !w.blocked then ApplyGames(ResetConflict(w)) else w.(underway := Some(WillProbe(r)))
  }

  // The operation of a retry, when its turn comes.
  function Retried(w: Worker, r: Retry, token: bool, throws: bool): Worker {
    if w.quiescing || w.desired != Running || w.generation != r.generation then w
    else
      match r.kind
      case Reconnect(_) => w.(underway := Some(WillStart(r, token, throws)))
      case Conflict(resetCycle) =>
        var cycle := if resetCycle then w.(attempt := 0) else w;
        if cycle.mode == Live then RetriedLive(cycle, r) else if throws then cycle else Started(cycle, token, Some(r))
  }

  function LoggedOnNow(w: Worker): Worker {
    ApplyGames(ResetConflict(ClearTimers(w)).(connected := true, reconnectAttempt := 0, status := Playing))
  }

  // The account is in use elsewhere: a farm pauses it, and no games are reported.
  function UsedElsewhere(w: Worker, farming: bool): Worker {
    (if farming then FarmPaused(w.(blocked := true)) else w.(blocked := true)).(status := Other)
  }

  function PlayingNoted(w: Worker, nowBlocked: bool, farming: bool): Worker {
    if nowBlocked then
      var told := UsedElsewhere(w, farming);
      if !w.blocked && told.desired == Running then told.(underway := Some(WillRegister(Live))) else told
    else if w.blocked && !w.manuallyPaused && w.desired == Running then
      ApplyGames(ResetConflict(w.(blocked := false, conflictTimer := None)))
    else w.(blocked := false)
  }

  predicate KeepsFarming(w: Worker, failure: Failure, resumes: bool) {
    failure.Passing? && w.handled != Some(w.loginAttempt) && resumes
  }

  function ConnectionLost(w: Worker, failure: Failure, farming: bool, resumes: bool): Worker {
    (if farming && !KeepsFarming(w, failure, resumes) then FarmPaused(w) else w).(connected := false)
  }

  // The connection is lost, by a disconnect or an error; both events come down
  // to the same steps.
  function LossSettled(w: Worker, failure: Failure): Worker {
    if w.handled == Some(w.loginAttempt) then w
    else
      match failure
      case Replaced => LoginConflict(w)
      case Terminal => Terminated(w)
      case Passing(minimum) =>
        var told := w.(status := Other);
        if told.desired == Running then told.(underway := Some(WillReconnect(minimum))) else told
  }

  // ---- The rest of an operation after its await ----

  function LoggingOn(w: Worker): Worker {
    w.(loginAttempt := w.loginAttempt + 1, handled := None, logOns := w.logOns + 1)
  }

  // Timers and conflict are cleared at once, the timer is armed after one more await.
  function ReconnectPrepared(w: Worker, minimum: nat, jitter: Jitter): Worker {
    var attempt := w.reconnectAttempt + 1;
    ResetConflict(ClearTimers(w)).(
      reconnectAttempt := attempt,
      underway := Some(WillArm(Retry(Reconnect(minimum), w.generation, ReconnectDelay(attempt, minimum, jitter)))))
  }

  function ConflictPrepared(w: Worker, mode: Mode): Worker {
    var attempt := w.attempt + 1;
    ClearTimers(w).(
      mode := mode, attempt := attempt,
      underway := Some(WillArm(Retry(Conflict(attempt >= 3), w.generation, ConflictDelay(attempt)))))
  }

  // Nobody looks here whether a shutdown has begun.
  function Armed(w: Worker, r: Retry): Worker {
    if r.kind.Reconnect? then w.(reconnectTimer := Some(r)) else w.(conflictTimer := Some(r))
  }

  // A reconnect's start command is refused once a shutdown has begun, which looks like any failed start.
  function StartedOrRescheduled(w: Worker, r: Retry, token: bool, throws: bool): Worker {
    if !(throws || w.quiescing) then Started(w, token, Some(r))
    else if r.kind.Reconnect? && w.desired == Running && w.generation == r.generation then
      w.(underway := Some(WillReconnect(r.kind.minimumDelay)))
    else w
  }

  function Continued(w: Worker, u: Underway, jitter: Jitter): Worker {
    match u
    case WillLogOn(_) => if w.quiescing then w else LoggingOn(w)
    case WillStart(r, token, throws) => StartedOrRescheduled(w, r, token, throws)
    case WillProbe(r) => if w.quiescing then w else w.(probes := w.probes + 1, underway := Some(WillRegister(Live)))
    case WillReconnect(minimum) => ReconnectPrepared(w, minimum, jitter)
    case WillRegister(mode) => ConflictPrepared(w, mode)
    case WillArm(r) => Armed(w, r)
    case WillNotePlaying(nowBlocked, farming) => PlayingNoted(w, nowBlocked, farming)
    case WillSettleLoss(failure) => LossSettled(w, failure)
  }

  // ---- The machine ----

  // Everything that waits for its turn, and that a worker on its way out refuses.
  function Commanded(w: Worker, e: Event): Worker {
    match e
    case Start(token) => Started(w, token, None)
    case Stop => StoppedNow(w)
    case Pause(guardedUntil) => PausedNow(w, guardedUntil)
    case ForceDisconnect(carriesOn) => Disconnected(w, carriesOn)
    case Attention => Disconnected(w, true)
    case Resume(token) => Resumed(w, token)
    case UpdateAccount(desired) => Updated(w, desired)
    case LoggedOn(seen) => if seen != w.generation || w.desired != Running then w else LoggedOnNow(w)
    case PlayingState(seen, blocked, farming) => if seen != w.generation then w else w.(underway := Some(WillNotePlaying(blocked, farming)))
    case Lost(seen, failure, farming, resumes) =>
      if seen != w.generation then w
      else ConnectionLost(w, failure, farming, resumes).(underway := Some(WillSettleLoss(failure)))
    case _ => w
  }

  function Fired(w: Worker, timer: Option<Retry>): Worker {
    if timer.None? || w.quiescing then w else w.(queued := w.queued + [timer.value])
  }

  function ShutDown(w: Worker): Worker {
    if w.quiescing then w else ResetConflict(ClearTimers(w)).(quiescing := true)
  }

  // One step; an operation begins only when none is under way.
  function After(w: Worker, e: Event): Worker {
    match e
    case BeginShutdown => ShutDown(w)
    case ReconnectFires => Fired(w, w.reconnectTimer).(reconnectTimer := None)
    case ConflictFires => Fired(w, w.conflictTimer).(conflictTimer := None)
    case Proceed(jitter) =>
      if w.underway.None? then w else Continued(w.(underway := None), w.underway.value, jitter)
    case RunQueued(i, token, throws) =>
      if w.underway.Some? || i >= |w.queued| then w
      else Retried(w.(queued := w.queued[..i] + w.queued[i + 1..]), w.queued[i], token, throws)
    case _ => if w.underway.Some? || w.quiescing then w else Commanded(w, e)
  }

  // ---- What every step keeps ----

  predicate Pending(w: Worker, r: Retry) {
    w.reconnectTimer == Some(r) || w.conflictTimer == Some(r) || r in w.queued || w.underway == Some(WillArm(r))
  }

  // The retry whose operation is on its way to Steam.
  function Cause(w: Worker): Option<Retry> {
    match w.underway
    case Some(WillLogOn(cause)) => cause
    case Some(WillStart(r, _, _)) => Some(r)
    case Some(WillProbe(r)) => Some(r)
    case _ => None
  }

  // No more than one timer is armed, none while one is about to be, and a retry is on its way to Steam only under the
  // generation it was scheduled under and while running is wanted.
  predicate Inv(w: Worker) {
    && !(w.reconnectTimer.Some? && w.conflictTimer.Some?)
    && (w.underway.Some? && w.underway.value.WillArm? ==> w.reconnectTimer.None? && w.conflictTimer.None?)
    && (Cause(w).Some? ==> w.desired == Running && w.generation == Cause(w).value.generation)
  }

  // What any step does: it leaves the desired state and its generation alone or raises the generation; a retry it
  // schedules carries the generation it ends with; it keeps the invariant; and once a shutdown has begun it is not
  // taken back, nothing more reaches Steam, and a timer that fires queues nothing.
  ghost predicate Sound(w: Worker, next: Worker) {
    && next.generation >= w.generation
    && (next.generation == w.generation ==> next.desired == w.desired)
    && (forall r :: Pending(next, r) && !Pending(w, r) ==> r.generation == next.generation)
    && (Inv(w) ==> Inv(next))
    && (w.quiescing ==> next.quiescing && next.logOns == w.logOns && next.probes == w.probes)
    && (w.quiescing ==> forall r :: r in next.queued ==> r in w.queued)
  }

  lemma StartedIsSound(w: Worker, token: bool, cause: Option<Retry>)
    requires w.underway.None?
    requires cause.Some? ==> w.desired == Running && w.generation == cause.value.generation
    ensures Sound(w, Started(w, token, cause))
    ensures Started(w, token, cause).queued == w.queued
  {
  }

  lemma ResumedIsSound(w: Worker, token: bool)
    requires !w.quiescing && w.underway.None?
    ensures Sound(w, Resumed(w, token))
  {
  }

  // A retry that starts a login, or tries a live session, changes no intent.
  lemma RetriedIsSound(w: Worker, r: Retry, token: bool, throws: bool)
    requires w.underway.None?
    ensures Sound(w, Retried(w, r, token, throws))
    ensures Retried(w, r, token, throws).queued == w.queued
  {
    hide Started, RetriedLive;
    if !(w.quiescing || w.desired != Running || w.generation != r.generation) {
      match r.kind
      case Reconnect(_) =>
      case Conflict(resetCycle) =>
        var cycle := if resetCycle then w.(attempt := 0) else w;
        StartedIsSound(cycle, token, Some(r));
        RetriedLiveIsSound(cycle, r);
    }
  }

  lemma RetriedLiveIsSound(w: Worker, r: Retry)
    requires w.underway.None? && w.desired == Running && w.generation == r.generation
    ensures Sound(w, RetriedLive(w, r))
    ensures RetriedLive(w, r).queued == w.queued
  {
  }

  lemma LostIsSound(w: Worker, failure: Failure, farming: bool, resumes: bool)
    requires !w.quiescing && w.underway.None?
    ensures Sound(w, ConnectionLost(w, failure, farming, resumes).(underway := Some(WillSettleLoss(failure))))
  {
  }

  // Stops, pauses and disconnects schedule nothing.
  lemma HaltIsSound(w: Worker, guardedUntil: nat, carriesOn: bool)
    requires !w.quiescing && w.underway.None?
    ensures Sound(w, StoppedNow(w)) && Sound(w, PausedNow(w, guardedUntil)) && Sound(w, Disconnected(w, carriesOn))
  {
  }

  lemma UpdatedIsSound(w: Worker, desired: Desired)
    requires !w.quiescing && w.underway.None?
    ensures Sound(w, Updated(w, desired))
  {
    TakenOverIsSound(w, desired);
    hide TakenOver;
  }

  lemma TakenOverIsSound(w: Worker, desired: Desired)
    requires !w.quiescing && w.underway.None?
    ensures Sound(w, TakenOver(w, desired))
    ensures !TakenOver(w, desired).quiescing && TakenOver(w, desired).underway.None?
  {
  }

  lemma LoggedOnIsSound(w: Worker)
    requires !w.quiescing && w.underway.None?
    ensures Sound(w, LoggedOnNow(w))
  {
  }

  lemma CommandIsSound(w: Worker, e: Event)
    requires !w.quiescing && w.underway.None?
    ensures Sound(w, Commanded(w, e))
  {
    hide ConnectionLost, Started, Resumed, StoppedNow, PausedNow, Disconnected, Updated, LoggedOnNow;
    match e
    case Start(token) => StartedIsSound(w, token, None);
    case Resume(token) => ResumedIsSound(w, token);
    case Stop => HaltIsSound(w, 0, true);
    case Pause(guardedUntil) => HaltIsSound(w, guardedUntil, true);
    case ForceDisconnect(carriesOn) => HaltIsSound(w, 0, carriesOn);
    case Attention => HaltIsSound(w, 0, true);
    case UpdateAccount(desired) => UpdatedIsSound(w, desired);
    case LoggedOn(seen) => LoggedOnIsSound(w);
    case Lost(seen, failure, farming, resumes) => LostIsSound(w, failure, farming, resumes);
    case _ =>
  }

  // The rest of an operation is sound as well, a shutdown having begun meanwhile or not.
  lemma ContinuedIsSound(w: Worker, jitter: Jitter)
    requires w.underway.Some?
    ensures Sound(w, Continued(w.(underway := None), w.underway.value, jitter))
  {
    hide Started, StartedOrRescheduled, ReconnectPrepared, ConflictPrepared, Armed, PlayingNoted, LossSettled;
    var rest := w.(underway := None);
    match w.underway.value
    case WillLogOn(_) =>
    case WillStart(r, token, throws) => StartsOrReschedulesSoundly(w);
    case WillProbe(r) =>
    case WillReconnect(minimum) => PreparesSoundly(w, minimum, Live, jitter);
    case WillRegister(mode) => PreparesSoundly(w, 0, mode, jitter);
    case WillArm(r) => ArmsSoundly(w);
    case WillNotePlaying(nowBlocked, farming) => NotesSoundly(w, nowBlocked, farming);
    case WillSettleLoss(failure) => SettlesSoundly(w, failure);
  }

  lemma NotesSoundly(w: Worker, nowBlocked: bool, farming: bool)
    requires w.underway.Some? && w.underway.value.WillNotePlaying?
    ensures Sound(w, PlayingNoted(w.(underway := None), nowBlocked, farming))
  {
  }

  lemma SettlesSoundly(w: Worker, failure: Failure)
    requires w.underway.Some? && w.underway.value.WillSettleLoss?
    ensures Sound(w, LossSettled(w.(underway := None), failure))
  {
    hide Terminated;
    TerminatesSoundly(w);
  }

  lemma TerminatesSoundly(w: Worker)
    requires w.underway.Some? && w.underway.value.WillSettleLoss?
    ensures Sound(w, Terminated(w.(underway := None)))
  {
  }

  lemma StartsOrReschedulesSoundly(w: Worker)
    requires w.underway.Some? && w.underway.value.WillStart?
    ensures var u := w.underway.value; Sound(w, StartedOrRescheduled(w.(underway := None), u.retry, u.token, u.throws))
  {
    var u, rest := w.underway.value, w.(underway := None);
    assert rest.desired == w.desired;
    if !(u.throws || w.quiescing) && w.desired == Running && w.generation == u.retry.generation {
      StartedIsSound(rest, u.token, Some(u.retry));
      hide Started;
    }
  }

  lemma PreparesSoundly(w: Worker, minimum: nat, mode: Mode, jitter: Jitter)
    requires w.underway.Some? && Cause(w).None? && !w.underway.value.WillArm?
    ensures Sound(w, ReconnectPrepared(w.(underway := None), minimum, jitter))
    ensures Sound(w, ConflictPrepared(w.(underway := None), mode))
  {
  }

  lemma ArmsSoundly(w: Worker)
    requires w.underway.Some? && w.underway.value.WillArm?
    ensures Sound(w, Armed(w.(underway := None), w.underway.value.retry))
  {
  }

  lemma ReconnectFiresSoundly(w: Worker)
    ensures Sound(w, After(w, ReconnectFires))
  {
  }

  lemma ConflictFiresSoundly(w: Worker)
    ensures Sound(w, After(w, ConflictFires))
  {
  }

  // Wherever in an operation it falls.
  lemma ShutDownIsSound(w: Worker)
    ensures Sound(w, ShutDown(w))
  {
  }

  lemma StepIsSound(w: Worker, e: Event)
    ensures Sound(w, After(w, e))
  {
    match e
    case BeginShutdown => ShutDownIsSound(w);
    case ReconnectFires => ReconnectFiresSoundly(w);
    case ConflictFires => ConflictFiresSoundly(w);
    case Proceed(jitter) => ProceedIsSound(w, jitter);
    case RunQueued(i, token, throws) => RunQueuedIsSound(w, i, token, throws);
    case _ => TurnIsSound(w, e);
  }

  lemma ProceedIsSound(w: Worker, jitter: Jitter)
    ensures Sound(w, After(w, Proceed(jitter)))
  {
    hide Continued;
    if w.underway.Some? {
      ContinuedIsSound(w, jitter);
    }
  }

  lemma RunQueuedIsSound(w: Worker, i: nat, token: bool, throws: bool)
    ensures Sound(w, After(w, RunQueued(i, token, throws)))
  {
    hide Retried;
    if w.underway.None? && i < |w.queued| {
      var rest := w.(queued := w.queued[..i] + w.queued[i + 1..]);
      RetriedIsSound(rest, w.queued[i], token, throws);
      assert forall r :: Pending(rest, r) ==> Pending(w, r);
    }
  }

  lemma TurnIsSound(w: Worker, e: Event)
    requires !e.BeginShutdown? && !e.ReconnectFires? && !e.ConflictFires? && !e.Proceed? && !e.RunQueued?
    ensures Sound(w, After(w, e))
  {
    hide Commanded;
    if !(w.underway.Some? || w.quiescing) {
      CommandIsSound(w, e);
    }
  }

  // ---- What the generation says ----

  function RunOf(w: Worker, events: seq<Event>): Worker
    decreases |events|
  {
    if events == [] then w else RunOf(After(w, events[0]), events[1..])
  }

  // The desired state has been Running in every state of a run, its first and its last included.
  predicate RunningThroughout(w: Worker, events: seq<Event>)
    decreases |events|
  {
    w.desired == Running && (events == [] || RunningThroughout(After(w, events[0]), events[1..]))
  }

  lemma {:induction false} SameGenerationSameIntent(w: Worker, events: seq<Event>)
    ensures RunOf(w, events).generation >= w.generation
    ensures RunOf(w, events).generation == w.generation && RunOf(w, events).desired == Running ==>
      RunningThroughout(w, events)
    decreases |events|
  {
    if events != [] {
      hide After;
      StepIsSound(w, events[0]);
      SameGenerationSameIntent(After(w, events[0]), events[1..]);
    }
  }

  // In every run, shutdowns in the middle of an operation included, at most one timer is armed, and from the beginning
  // of a shutdown on nothing reaches Steam any more.
  lemma {:induction false} RunStaysSound(w: Worker, events: seq<Event>)
    requires Inv(w)
    ensures Inv(RunOf(w, events))
    ensures w.quiescing ==> RunOf(w, events).logOns == w.logOns && RunOf(w, events).probes == w.probes
    ensures w.quiescing ==> forall r :: r in RunOf(w, events).queued ==> r in w.queued
    decreases |events|
  {
    if events != [] {
      hide After, Inv;
      StepIsSound(w, events[0]);
      RunStaysSound(After(w, events[0]), events[1..]);
    }
  }

  // The operation of a retry reaches Steam: a login, or a report of games to try a live session.
  predicate Acts(w: Worker, e: Event, r: Retry) {
    Cause(w) == Some(r) && (After(w, e).logOns != w.logOns || After(w, e).probes != w.probes)
  }

  // A retry that reaches Steam was wanted all the time since it was scheduled: if the desired state left running once,
  // however briefly, every retry scheduled before is dead, whether its timer was about to be armed, was armed, had
  // fired, or its operation waited in the queue or at an await.
  lemma RetryNeedsItsIntent(before: Worker, scheduling: Event, r: Retry, events: seq<Event>, run: Event)
    requires Inv(before) && !Pending(before, r) && Pending(After(before, scheduling), r)
    requires Acts(RunOf(After(before, scheduling), events), run, r)
    ensures RunningThroughout(After(before, scheduling), events)
  {
    var w := After(before, scheduling);
    StepIsSound(before, scheduling);
    hide After;
    RunStaysSound(w, events);
    SameGenerationSameIntent(w, events);
  }

  // A worker that has just been created.
  function Created(desired: Desired): Worker {
    Worker(desired, 0, Other, false, false, false, false, NoConflict, 0, None, 0, 0, None, None, [], None, 0, 0)
  }

  // A worker that has lost its connection and is about to arm its first retry.
  function AboutToArm(): Worker {
    var lost := After(Created(Running), Lost(0, Passing(0), false, false));
    After(After(lost, Proceed(0)), Proceed(0))
  }

  lemma FirstRetry()
    ensures AboutToArm()
         == Created(Running).(status := Other, reconnectAttempt := 1, underway := Some(WillArm(Retry(Reconnect(0), 0, 20_000))))
  {
    var lost := After(Created(Running), Lost(0, Passing(0), false, false));
    assert lost == Created(Running).(underway := Some(WillSettleLoss(Passing(0))));
    var settled := After(lost, Proceed(0));
    assert settled == Created(Running).(status := Other, underway := Some(WillReconnect(0)));
    SmallPowers();
  }

  // A timer can still be armed after a shutdown has begun, by an operation that
  // was at its await; when it fires it queues nothing.
  lemma ShutdownMayLeaveTimer()
    ensures var late := After(After(AboutToArm(), BeginShutdown), Proceed(0));
      late.quiescing && late.reconnectTimer.Some? && After(late, ReconnectFires).queued == []
  {
    FirstRetry();
    hide AboutToArm;
  }

  predicate Timed(w: Worker) {
    w.reconnectTimer.Some? || w.conflictTimer.Some?
  }

  // A timer is armed in some state of the run, its first and its last included.
  predicate ArmedSometime(w: Worker, events: seq<Event>)
    decreases |events|
  {
    Timed(w) || (events != [] && ArmedSometime(After(w, events[0]), events[1..]))
  }

  // What the suspended operation of a worker on its way out still leads to: an
  // armed timer, unless it stands before a login or a probe, or what it has to
  // note or settle calls for no retry.
  predicate WillStillArm(w: Worker) {
    match w.underway
    case None => false
    case Some(WillLogOn(_)) => false
    case Some(WillProbe(_)) => false
    case Some(WillStart(r, _, _)) => r.kind.Reconnect? && w.desired == Running && w.generation == r.generation
    case Some(WillReconnect(_)) => true
    case Some(WillRegister(_)) => true
    case Some(WillArm(_)) => true
    case Some(WillNotePlaying(nowBlocked, farming)) => nowBlocked && !farming && w.desired == Running && !w.blocked
    case Some(WillSettleLoss(failure)) =>
      w.handled != Some(w.loginAttempt) && (failure.Replaced? || (failure.Passing? && w.desired == Running))
  }

  predicate Quiet(w: Worker) {
    w.quiescing && !Timed(w) && !WillStillArm(w)
  }

  lemma NotingStaysQuiet(w: Worker)
    requires Quiet(w) && w.underway.Some? && w.underway.value.WillNotePlaying?
    ensures var u := w.underway.value; Quiet(PlayingNoted(w.(underway := None), u.nowBlocked, u.farming))
  {
  }

  lemma SettlingStaysQuiet(w: Worker)
    requires Quiet(w) && w.underway.Some? && w.underway.value.WillSettleLoss?
    ensures Quiet(LossSettled(w.(underway := None), w.underway.value.failure))
  {
  }

  lemma StartingStaysQuiet(w: Worker)
    requires Quiet(w) && w.underway.Some? && w.underway.value.WillStart?
    ensures var u := w.underway.value; Quiet(StartedOrRescheduled(w.(underway := None), u.retry, u.token, u.throws))
  {
  }

  lemma ContinuingStaysQuiet(w: Worker, jitter: Jitter)
    requires Quiet(w) && w.underway.Some?
    ensures Quiet(Continued(w.(underway := None), w.underway.value, jitter))
  {
    hide PlayingNoted, LossSettled, StartedOrRescheduled;
    match w.underway.value
    case WillStart(_, _, _) => StartingStaysQuiet(w);
    case WillNotePlaying(_, _) => NotingStaysQuiet(w);
    case WillSettleLoss(_) => SettlingStaysQuiet(w);
    case _ =>
  }

  lemma StepStaysQuiet(w: Worker, e: Event)
    requires Quiet(w)
    ensures Quiet(After(w, e))
  {
    hide Continued, Commanded;
    if e.Proceed? && w.underway.Some? {
      ContinuingStaysQuiet(w, e.jitter);
    }
  }

  lemma {:induction false} RunStaysQuiet(w: Worker, events: seq<Event>)
    requires Quiet(w)
    ensures !ArmedSometime(w, events)
    decreases |events|
  {
    if events != [] {
      StepStaysQuiet(w, events[0]);
      hide After;
      RunStaysQuiet(After(w, events[0]), events[1..]);
    }
  }

  // The step that prepares a timer is followed by the one that arms it.
  lemma PreparedArms(w: Worker)
    requires w.underway.Some? && (w.underway.value.WillReconnect? || w.underway.value.WillRegister?)
    ensures Timed(After(After(w, Proceed(0)), Proceed(0)))
  {
    hide Timed;
    var prepared := After(w, Proceed(0));
    assert prepared.underway.Some? && prepared.underway.value.WillArm?;
    ArmingArms(prepared);
  }

  lemma ArmingArms(w: Worker)
    requires w.underway.Some? && w.underway.value.WillArm?
    ensures Timed(After(w, Proceed(0)))
  {
  }

  // Anything else that still arms a timer prepares it next.
  lemma StillArmingPrepares(w: Worker)
    requires w.quiescing && WillStillArm(w)
    requires w.underway.value.WillStart? || w.underway.value.WillNotePlaying? || w.underway.value.WillSettleLoss?
    ensures var next := After(w, Proceed(0));
      next.underway.Some? && (next.underway.value.WillReconnect? || next.underway.value.WillRegister?)
  {
  }

  // At most three awaits lie before the timer.
  lemma StillArmingArms(w: Worker) returns (events: seq<Event>)
    requires w.quiescing && WillStillArm(w)
    ensures ArmedSometime(w, events) && |events| <= 3
  {
    var one := After(w, Proceed(0));
    var two := After(one, Proceed(0));
    var three := After(two, Proceed(0));
    if w.underway.value.WillArm? {
      ArmingArms(w);
    } else if w.underway.value.WillReconnect? || w.underway.value.WillRegister? {
      PreparedArms(w);
    } else {
      StillArmingPrepares(w);
      PreparedArms(one);
    }
    hide After, Timed, WillStillArm;
    events := [Proceed(0), Proceed(0), Proceed(0)];
    assert events[1..][1..][1..] == [] && ArmedSometime(three, []) == Timed(three);
    assert ArmedSometime(two, events[1..][1..]) <== Timed(two) || Timed(three);
    assert ArmedSometime(one, events[1..]) <== Timed(one) || Timed(two) || Timed(three);
  }

  // Exactly when a timer is still armed after a shutdown has begun, whatever
  // happens: when the suspended operation is on its way to one.
  lemma ArmsAfterShutdownIff(w: Worker)
    requires w.quiescing && !Timed(w)
    ensures (exists events: seq<Event> :: ArmedSometime(w, events)) <==> WillStillArm(w)
  {
    if WillStillArm(w) {
      var events := StillArmingArms(w);
    }
    forall events: seq<Event> | !WillStillArm(w)
      ensures !ArmedSometime(w, events)
    {
      RunStaysQuiet(w, events);
    }
  }

  // The operation that a shutdown would interrupt now is on its way to a timer.
  predicate OnItsWayToTimer(w: Worker) {
    match w.underway
    case None => false
    case Some(WillLogOn(_)) => false
    case Some(WillProbe(_)) => false
    case Some(WillStart(r, _, _)) => r.kind.Reconnect? && w.desired == Running && w.generation == r.generation
    case Some(WillReconnect(_)) => true
    case Some(WillRegister(_)) => true
    case Some(WillArm(_)) => true
    case Some(WillNotePlaying(nowBlocked, farming)) => nowBlocked && !farming && w.desired == Running
    case Some(WillSettleLoss(failure)) => failure.Replaced? || (failure.Passing? && w.desired == Running)
  }

  // Seen from the moment the shutdown begins, which clears the timers and the
  // conflict: nothing but the operation under way decides.
  lemma ShutdownLeavesTimerIff(w: Worker)
    requires !w.quiescing
    ensures (exists events: seq<Event> :: ArmedSometime(After(w, BeginShutdown), events)) <==> OnItsWayToTimer(w)
  {
    var quiet := After(w, BeginShutdown);
    assert quiet.quiescing && !Timed(quiet) && (WillStillArm(quiet) <==> OnItsWayToTimer(w));
    ArmsAfterShutdownIff(quiet);
  }

  // ---- What the operations achieve ----

  // An operation can begin.
  predicate Ready(w: Worker) {
    !w.quiescing && w.underway.None?
  }

  // No timer is armed and no conflict is remembered.
  predicate Cleared(w: Worker) {
    !Timed(w) && w.attempt == 0 && w.mode == NoConflict && !w.blocked
  }

  // Whatever ends the wish to run clears timers and conflict with it: a stop, a pause whose guard holds, a disconnect for
  // safety, and an account update that no longer wants to run. By RetryNeedsItsIntent what had fired already is dead.
  lemma EndOfIntentClears(w: Worker, e: Event)
    requires Ready(w)
    requires e.Stop? || e.ForceDisconnect? || e.Attention? || (e.Pause? && e.guardedUntil >= 2)
          || (e.UpdateAccount? && e.desired != Running && e.desired != w.desired)
    ensures var next := After(w, e);
      && Cleared(next) && next.underway.None?
      && next.desired == (if e.Stop? then Stopped else if e.UpdateAccount? then e.desired else Paused)
      && (next.desired != w.desired ==> next.generation == w.generation + 1)
      && (e.Pause? || e.ForceDisconnect? || e.Attention? ==> next.manuallyPaused)
      && (e.Stop? || e.Attention? || (e.ForceDisconnect? && e.carriesOn) ==> !next.connected && next.status == Other)
      && (e.Pause? && e.guardedUntil > 2 ==> next.status == Other)
  {
    assert After(w, e) == Commanded(w, e);
    hide After;
    match e
    case UpdateAccount(desired) => hide StoppedNow, PausedNow, Disconnected; LeavesRunning(w, desired);
    case Stop => hide PausedNow, Disconnected, Updated;
    case Pause(_) => hide StoppedNow, Disconnected, Updated;
    case _ => hide StoppedNow, PausedNow, Updated;
  }

  lemma LeavesRunning(w: Worker, desired: Desired)
    requires Ready(w) && desired != Running && desired != w.desired
    ensures var next := Updated(w, desired);
      Cleared(next) && next.underway.None? && next.desired == desired && next.generation == w.generation + 1
  {
    var left := TakenOver(w, desired);
    assert Cleared(left) && left.underway.None? && left.desired == desired && left.generation == w.generation + 1;
    hide TakenOver;
  }

  // A pause whose guard fails at once does nothing, and one whose guard fails next keeps the wish to run.
  lemma GuardedPause(w: Worker)
    requires Ready(w)
    ensures After(w, Pause(0)) == w
    ensures Cleared(After(w, Pause(1))) && After(w, Pause(1)).desired == w.desired && After(w, Pause(1)).generation == w.generation
  {
  }

  // A start logs on, unless a login or a session is there already or no token is.
  lemma StartLogsOn(w: Worker, token: bool)
    requires Ready(w)
    ensures w.status == Connecting || (w.connected && w.status == Playing) ==> After(w, Start(token)) == w
    ensures w.status != Connecting && !(w.connected && w.status == Playing) && !token ==> After(w, Start(token)) == w.(status := Other)
    ensures w.status != Connecting && !(w.connected && w.status == Playing) && token ==>
      var on := After(After(w, Start(token)), Proceed(0));
      && on.logOns == w.logOns + 1 && on.loginAttempt == w.loginAttempt + 1 && on.handled == None
      && on.status == Connecting && on.desired == Running && !on.manuallyPaused && on.underway.None?
  {
  }

  // A resumption wants to run again: it logs on, or plays at once where the connection stands.
  lemma ResumeRuns(w: Worker)
    requires Ready(w)
    ensures After(w, Resume(true)).desired == Running && !After(w, Resume(true)).manuallyPaused
    ensures w.connected ==> After(w, Resume(true)).status == (if w.blocked then Other else Playing)
    ensures !w.connected && w.status != Connecting ==> After(After(w, Resume(true)), Proceed(0)).logOns == w.logOns + 1
  {
  }

  // A login that is still wanted connects the account, forgets retries and conflict, and plays unless it is paused.
  lemma LoginPlays(w: Worker, seen: nat)
    requires Ready(w)
    ensures seen != w.generation || w.desired != Running ==> After(w, LoggedOn(seen)) == w
    ensures seen == w.generation && w.desired == Running ==>
      var on := After(w, LoggedOn(seen));
      on.connected && Cleared(on) && on.reconnectAttempt == 0 && on.status == (if w.manuallyPaused then Other else Playing)
  {
  }

  // When the other session ends the games are reported again, and the wait for it is over.
  lemma FreedPlaysAgain(w: Worker, farming: bool)
    requires Ready(w) && w.blocked && !w.manuallyPaused && w.desired == Running && w.connected && w.reconnectTimer.None?
    ensures var freed := After(After(w, PlayingState(w.generation, false, farming)), Proceed(0));
      freed.status == Playing && Cleared(freed)
  {
  }

  // A farm that meets another session is paused and waits for nobody; manual boosting registers a conflict.
  lemma UsedElsewhereWaits(w: Worker, farming: bool)
    requires Ready(w) && !w.blocked && w.desired == Running
    ensures var told := After(After(w, PlayingState(w.generation, true, farming)), Proceed(0));
      && told.blocked && told.status == Other
      && (farming ==> told.desired == Paused && told.manuallyPaused && told.underway.None?)
      && (!farming ==> told.desired == Running && told.underway == Some(WillRegister(Live)))
  {
  }

  // A terminal failure is not retried: the account is paused and nothing is left to fire.
  lemma TerminalEnds(w: Worker, farming: bool)
    requires Ready(w) && w.handled != Some(w.loginAttempt)
    ensures var ended := After(After(w, Lost(w.generation, Terminal, farming, false)), Proceed(0));
      ended.desired == Paused && Cleared(ended) && !ended.connected && ended.status == Other && ended.underway.None?
  {
    var told := ConnectionLost(w, Terminal, farming, false);
    var lost := told.(underway := Some(WillSettleLoss(Terminal)));
    assert After(w, Lost(w.generation, Terminal, farming, false)) == lost;
    assert !told.quiescing && told.handled != Some(told.loginAttempt) && told.underway.None?;
    hide ConnectionLost;
    assert After(lost, Proceed(0)) == Terminated(told);
    hide After;
  }

  // ---- Reconnecting ----

  // The worker waits out the reconnect number `n`, counted from one.
  predicate WaitsToReconnect(w: Worker, n: nat, minimum: nat, jitter: Jitter) {
    && Ready(w) && w.desired == Running && w.queued == [] && !w.connected && w.status == Other
    && w.reconnectAttempt == n && w.conflictTimer.None?
    && w.reconnectTimer == Some(Retry(Reconnect(minimum), w.generation, ReconnectDelay(n, minimum, jitter)))
  }

  // The connection is lost for a passing reason, and the retry is prepared and armed.
  function LostPassing(w: Worker, minimum: nat, jitter: Jitter): Worker {
    After(After(After(After(w, Lost(w.generation, Passing(minimum), false, true)), Proceed(0)), Proceed(jitter)), Proceed(0))
  }

  // The timer fires and its operation runs up to the start of a login, or to its failure.
  function ReconnectTried(w: Worker, throws: bool): Worker {
    After(After(After(w, ReconnectFires), RunQueued(0, true, throws)), Proceed(0))
  }

  // A passing loss is retried after the delay its attempt calls for.
  lemma LossIsRetried(w: Worker, minimum: nat, jitter: Jitter)
    requires Ready(w) && w.desired == Running && w.queued == [] && w.handled != Some(w.loginAttempt)
    ensures WaitsToReconnect(LostPassing(w, minimum, jitter), w.reconnectAttempt + 1, minimum, jitter)
    ensures LostPassing(w, minimum, jitter).logOns == w.logOns
  {
    var lost := After(w, Lost(w.generation, Passing(minimum), false, true));
    assert lost == w.(connected := false, underway := Some(WillSettleLoss(Passing(minimum))));
    var settled := w.(connected := false, status := Other, underway := Some(WillReconnect(minimum)));
    assert After(lost, Proceed(0)) == settled;
    hide After;
    PreparedReconnects(settled, minimum, jitter);
  }

  lemma PreparedReconnects(w: Worker, minimum: nat, jitter: Jitter)
    requires !w.quiescing && w.underway == Some(WillReconnect(minimum))
    requires w.desired == Running && w.queued == [] && !w.connected && w.status == Other
    ensures var armed := After(After(w, Proceed(jitter)), Proceed(0));
      WaitsToReconnect(armed, w.reconnectAttempt + 1, minimum, jitter) && armed.logOns == w.logOns
  {
    var prepared := ReconnectPrepared(w.(underway := None), minimum, jitter);
    assert After(w, Proceed(jitter)) == prepared;
    assert After(prepared, Proceed(0)) == Armed(prepared.(underway := None), prepared.underway.value.retry);
    hide ReconnectDelay;
  }

  lemma ReconnectBegins(w: Worker, n: nat, minimum: nat, jitter: Jitter, throws: bool)
    requires WaitsToReconnect(w, n, minimum, jitter)
    ensures After(After(w, ReconnectFires), RunQueued(0, true, throws))
         == w.(reconnectTimer := None, underway := Some(WillStart(w.reconnectTimer.value, true, throws)))
  {
    var fired := After(w, ReconnectFires);
    assert fired.queued == [w.reconnectTimer.value];
    assert fired.queued[..0] + fired.queued[1..] == [];
    assert fired.(queued := []) == w.(reconnectTimer := None);
  }

  lemma ReconnectLogsOn(w: Worker, n: nat, minimum: nat, jitter: Jitter)
    requires WaitsToReconnect(w, n, minimum, jitter)
    ensures After(ReconnectTried(w, false), Proceed(0))
         == LoggingOn(w.(reconnectTimer := None, manuallyPaused := false, status := Connecting))
  {
    ReconnectBegins(w, n, minimum, jitter, false);
    var r, rest := w.reconnectTimer.value, w.(reconnectTimer := None);
    var begun := rest.(underway := Some(WillStart(r, true, false)));
    var starting := rest.(manuallyPaused := false, status := Connecting, underway := Some(WillLogOn(Some(r))));
    assert rest == begun.(underway := None);
    assert After(begun, Proceed(0)) == starting;
    assert ReconnectTried(w, false) == starting;
    assert starting.(underway := None) == rest.(manuallyPaused := false, status := Connecting);
    hide ReconnectTried, WaitsToReconnect;
  }

  // The retry logs on, and when that is lost again the next wait follows.
  lemma ReconnectGoesOn(w: Worker, n: nat, minimum: nat, jitter: Jitter, nextMinimum: nat, nextJitter: Jitter)
    requires WaitsToReconnect(w, n, minimum, jitter)
    ensures var tried := After(ReconnectTried(w, false), Proceed(0));
      && tried.logOns == w.logOns + 1 && tried.status == Connecting && tried.desired == Running
      && WaitsToReconnect(LostPassing(tried, nextMinimum, nextJitter), n + 1, nextMinimum, nextJitter)
      && LostPassing(tried, nextMinimum, nextJitter).logOns == w.logOns + 1
  {
    ReconnectLogsOn(w, n, minimum, jitter);
    hide After, LostPassing, ReconnectTried;
    LossIsRetried(After(ReconnectTried(w, false), Proceed(0)), nextMinimum, nextJitter);
  }

  // A start that fails is tried again as well, with no login sent.
  lemma FailedStartIsRescheduled(w: Worker, n: nat, minimum: nat, jitter: Jitter, nextJitter: Jitter)
    requires WaitsToReconnect(w, n, minimum, jitter)
    ensures var again := After(After(ReconnectTried(w, true), Proceed(nextJitter)), Proceed(0));
      WaitsToReconnect(again, n + 1, minimum, nextJitter) && again.logOns == w.logOns
  {
    ReconnectBegins(w, n, minimum, jitter, true);
    var failed := w.(reconnectTimer := None, underway := Some(WillReconnect(minimum)));
    assert ReconnectTried(w, true) == failed;
    hide After;
    PreparedReconnects(failed, minimum, nextJitter);
  }

  // While every login is lost again, one login goes out after each wait, and the waits are those of attempts in a row.
  function Reconnects(w: Worker, minimums: seq<nat>, jitters: seq<Jitter>): Worker
    requires |jitters| == |minimums|
  {
    if minimums == [] then w
    else
      var last := |minimums| - 1;
      var before := Reconnects(w, minimums[..last], jitters[..last]);
      LostPassing(After(ReconnectTried(before, false), Proceed(0)), minimums[last], jitters[last])
  }

  function LastOr<T>(values: seq<T>, other: T): T {
    if values == [] then other else values[|values| - 1]
  }

  lemma {:induction false} ReconnectsGoOn(w: Worker, n: nat, minimum: nat, jitter: Jitter, minimums: seq<nat>, jitters: seq<Jitter>)
    requires WaitsToReconnect(w, n, minimum, jitter) && |jitters| == |minimums|
    ensures var end := Reconnects(w, minimums, jitters);
      && WaitsToReconnect(end, n + |minimums|, LastOr(minimums, minimum), LastOr(jitters, jitter))
      && end.logOns == w.logOns + |minimums|
    decreases |minimums|
  {
    hide After, LostPassing, ReconnectTried, WaitsToReconnect;
    if minimums != [] {
      var last := |minimums| - 1;
      ReconnectsGoOn(w, n, minimum, jitter, minimums[..last], jitters[..last]);
      ReconnectGoesOn(Reconnects(w, minimums[..last], jitters[..last]), n + last,
                      LastOr(minimums[..last], minimum), LastOr(jitters[..last], jitter), minimums[last], jitters[last]);
    }
  }

  // ---- The conflict cycle ----

  function CycleDelay(n: nat): nat {
    if n % 3 == 2 then ONE_HOUR else FIVE_MINUTES
  }

  // The worker waits out the conflict number `n` of an unbroken series, counted from nought.
  predicate InConflict(w: Worker, n: nat) {
    && !w.quiescing && w.desired == Running && w.queued == [] && w.underway.None?
    && w.attempt == n % 3 + 1
    && w.conflictTimer == Some(Retry(Conflict(n % 3 == 2), w.generation, CycleDelay(n)))
    && w.reconnectTimer.None?
    && (w.mode == Live ==> w.blocked)
    && (w.mode != Live ==> w.status == Other && !w.connected)
  }

  // The next conflict is registered and its timer armed.
  function RegisteredFully(w: Worker): Worker {
    After(After(w, Proceed(0)), Proceed(0))
  }

  // Steam reports that the session was replaced elsewhere.
  function ReplacedOnce(w: Worker): Worker {
    After(After(w, Lost(w.generation, Replaced, false, false)), Proceed(0))
  }

  // The timer fires, its operation runs, and Steam reports the account in use once more.
  function Round(w: Worker): Worker {
    var tried := After(After(After(w, ConflictFires), RunQueued(0, true, false)), Proceed(0));
    RegisteredFully(if w.mode == Live then tried else ReplacedOnce(tried))
  }

  function Rounds(w: Worker, k: nat): Worker {
    if k == 0 then w else Round(Rounds(w, k - 1))
  }

  lemma NextInCycle(n: nat)
    ensures (if n % 3 == 2 then 0 else n % 3 + 1) == (n + 1) % 3
  {
  }

  // The retry begins: its timer is gone, and after the hour the count starts anew.
  lemma RetryBegins(w: Worker, n: nat)
    requires InConflict(w, n)
    ensures After(After(w, ConflictFires), RunQueued(0, true, false))
         == Retried(w.(conflictTimer := None), w.conflictTimer.value, true, false)
  {
    var queued := After(w, ConflictFires);
    assert queued.queued == [w.conflictTimer.value];
    assert queued.queued[..0] + queued.queued[1..] == [];
    hide Retried;
    assert queued.(queued := queued.queued[..0] + queued.queued[1..]) == w.(conflictTimer := None);
  }

  // One more conflict registered on a count of `n % 3` leads to wait number `n`.
  lemma RegisteredInCycle(w: Worker, mode: Mode, n: nat)
    requires !w.quiescing && w.desired == Running && w.queued == [] && w.attempt == n % 3
    requires w.underway == Some(WillRegister(mode))
    requires mode == Live ==> w.blocked
    requires mode != Live ==> w.status == Other && !w.connected
    ensures InConflict(RegisteredFully(w), n)
    ensures RegisteredFully(w).logOns == w.logOns && RegisteredFully(w).probes == w.probes
  {
    var prepared := ConflictPrepared(w.(underway := None), mode);
    assert After(w, Proceed(0)) == prepared;
    assert After(prepared, Proceed(0)) == Armed(prepared.(underway := None), prepared.underway.value.retry);
  }

  // The retry of a live session reports its games, and the account is still blocked.
  lemma LiveRoundGoesOn(w: Worker, n: nat)
    requires InConflict(w, n) && w.mode == Live
    ensures InConflict(Round(w), n + 1)
    ensures Round(w).logOns + Round(w).probes == w.logOns + w.probes + 1
  {
    NextInCycle(n);
    RetryBegins(w, n);
    var r, fired := w.conflictTimer.value, w.(conflictTimer := None);
    var cycle := fired.(attempt := (n + 1) % 3);
    var probing := cycle.(underway := Some(WillProbe(r)));
    assert Retried(fired, r, true, false) == probing;
    var probed := cycle.(probes := w.probes + 1, underway := Some(WillRegister(Live)));
    assert After(probing, Proceed(0)) == probed;
    hide After, Retried, RegisteredFully, InConflict;
    assert cycle.(underway := None) == cycle;
    RegisteredInCycle(probed, Live, n + 1);
  }

  // The retry of a login conflict logs on.
  lemma LoginRetried(w: Worker, n: nat)
    requires InConflict(w, n) && w.mode != Live
    ensures var cycle := w.(conflictTimer := None, attempt := (n + 1) % 3);
      After(After(After(w, ConflictFires), RunQueued(0, true, false)), Proceed(0))
      == LoggingOn(cycle.(manuallyPaused := false, status := Connecting))
  {
    NextInCycle(n);
    RetryBegins(w, n);
    var r, fired := w.conflictTimer.value, w.(conflictTimer := None);
    var cycle := fired.(attempt := (n + 1) % 3);
    var starting := cycle.(manuallyPaused := false, status := Connecting, underway := Some(WillLogOn(Some(r))));
    assert Retried(fired, r, true, false) == starting;
    hide Retried;
  }

  // After a new login Steam reports that the session was replaced.
  lemma LoginRoundGoesOn(w: Worker, n: nat)
    requires InConflict(w, n) && w.mode != Live
    ensures InConflict(Round(w), n + 1)
    ensures Round(w).logOns + Round(w).probes == w.logOns + w.probes + 1
  {
    LoginRetried(w, n);
    var started := LoggingOn(w.(conflictTimer := None, attempt := (n + 1) % 3, manuallyPaused := false, status := Connecting));
    var told := started.(handled := Some(started.loginAttempt), connected := false, blocked := false, status := Other,
                         underway := Some(WillRegister(Login)));
    hide After, ReplacedOnce, RegisteredFully;
    ReplacedRegisters(started);
    RegisteredInCycle(told, Login, n + 1);
    hide InConflict;
  }

  lemma ReplacedRegisters(w: Worker)
    requires !w.quiescing && w.handled == None && w.underway.None?
    ensures ReplacedOnce(w)
         == w.(handled := Some(w.loginAttempt), connected := false, blocked := false, status := Other,
               underway := Some(WillRegister(Login)))
  {
  }

  lemma RoundGoesOn(w: Worker, n: nat)
    requires InConflict(w, n)
    ensures InConflict(Round(w), n + 1)
    ensures Round(w).logOns + Round(w).probes == w.logOns + w.probes + 1
  {
    hide *;
    if w.mode == Live {
      LiveRoundGoesOn(w, n);
    } else {
      LoginRoundGoesOn(w, n);
    }
  }

  // While every retry meets one more conflict, the waits are 5, 5 and 60 minutes over and over, one attempt each.
  lemma {:induction false} ConflictDelaysCycle(w: Worker, k: nat)
    requires InConflict(w, 0)
    ensures InConflict(Rounds(w, k), k)
    ensures Rounds(w, k).conflictTimer.Some? && Rounds(w, k).conflictTimer.value.delay == CycleDelay(k)
    ensures Rounds(w, k).logOns + Rounds(w, k).probes == w.logOns + w.probes + k
  {
    hide Round;
    if k > 0 {
      ConflictDelaysCycle(w, k - 1);
      RoundGoesOn(Rounds(w, k - 1), k - 1);
    }
  }

  // A login between two conflicts starts the series anew: the hour is never reached that way.
  lemma LoginRestartsCycle(w: Worker)
    requires !w.quiescing && w.desired == Running && w.underway.None? && w.queued == []
    ensures var on := After(w, LoggedOn(w.generation));
      InConflict(RegisteredFully(ReplacedOnce(on)), 0)
  {
    var on := After(w, LoggedOn(w.generation));
    assert on == LoggedOnNow(w);
    ReplacedRegisters(on);
    var told := on.(handled := Some(on.loginAttempt), connected := false, blocked := false, status := Other,
                    underway := Some(WillRegister(Login)));
    hide After, ReplacedOnce, RegisteredFully, InConflict;
    RegisteredInCycle(told, Login, 0);
  }
}
