// The card farming controller as a protocol of overlapping asynchronous calls
// (apps/server/src/farming/controller.ts). Every stretch of code between two
// awaits is one step; whoever is in flight at an await can be overtaken by any
// call. What the controller would select is an arbitrary input here, see
// FarmingSelection for the rules it obeys.
module FarmingProtocol {
  import opened Results

  datatype Phase = Stopped | Scanning | Warming | Farming | Completed | Blocked | Failed

  datatype Reason = NoReason | UserStop | Shutdown | FarmingFailed | ScanFailed | NoEligibleGames | Resumed | Other(code: nat)

  datatype Session = Session(
    generation: nat,
    // The generation the pending timer was set for.
    timer: Option<nat>,
    phase: Phase,
    reason: Reason,
    applied: bool,
    activeAppIds: seq<nat>)

  // Where a suspended call is waiting. An advance remembers the start call it
  // belongs to, which continues once the advance is over.
  datatype Await =
    | AtAvailability
    | AtBegin
    | AtDiscover
    | AtApply(appIds: seq<nat>, warmingUp: bool)
    | AtEnd

  datatype Origin = FromTick | FromStart(resumed: bool)

  datatype Task =
    | Advance(generation: nat, at: Await, origin: Origin)
    | Scan(generation: nat)
    // What is left of a start call once the advance it waited for is over.
    | StartTail(generation: nat, resumed: bool)
    // An adapter.end of a session that was halted meanwhile.
    | Cleanup

  datatype Cell = Cell(session: Session, tasks: seq<Task>, shuttingDown: bool)

  predicate IsActive(s: Session) { s.phase in {Scanning, Warming, Farming} }

  predicate IsCurrent(c: Cell, generation: nat) { !c.shuttingDown && c.session.generation == generation }

  // ---- Pieces shared by several steps ------------------------------------------------

  function Halted(s: Session, reason: Reason): Session
  {
    s.(generation := s.generation + 1,
       timer := None,
       activeAppIds := [],
       phase := if reason.UserStop? then Stopped else if IsActive(s) then Blocked else s.phase,
       reason := if reason.UserStop? then NoReason else if IsActive(s) then reason else s.reason,
       applied := false)
  }

  // The task at i is over; a start call that waited for it continues.
  function Finish(tasks: seq<Task>, i: nat): seq<Task>
    requires i < |tasks|
  {
    var rest := tasks[..i] + tasks[i + 1..];
    if tasks[i].Advance? && tasks[i].origin.FromStart? then rest + [StartTail(tasks[i].generation, tasks[i].origin.resumed)] else rest
  }

  // Leaves an adapter.end in flight when the payload had been applied.
  function FinishWith(tasks: seq<Task>, i: nat, cleanup: bool): seq<Task>
    requires i < |tasks|
  {
    if cleanup then Finish(tasks, i) + [Cleanup] else Finish(tasks, i)
  }

  // The catch block of advance, for a call that is still current.
  function Caught(c: Cell, i: nat): Cell
    requires i < |c.tasks|
  {
    c.(session := Halted(c.session, FarmingFailed).(phase := Failed),
       tasks := FinishWith(c.tasks, i, c.session.applied))
  }

  function Waiting(c: Cell, i: nat, at: Await): Cell
    requires i < |c.tasks| && c.tasks[i].Advance?
  {
    c.(tasks := c.tasks[i := c.tasks[i].(at := at)])
  }

  datatype Choice = Choice(appIds: seq<nat>, warmingUp: bool, noneEligible: bool)

  // The games are chosen: complete, keep the running selection or apply a new one.
  function Selected(c: Cell, i: nat, choice: Choice): Cell
    requires i < |c.tasks| && c.tasks[i].Advance?
  {
    var Choice(appIds, warmingUp, noneEligible) := choice;
    if appIds == [] then
      var completed := c.(session := c.session.(phase := Completed, activeAppIds := [],
                                                reason := if noneEligible then NoEligibleGames else NoReason));
      if c.session.applied then Waiting(completed, i, AtEnd) else completed.(tasks := Finish(c.tasks, i))
    else if appIds != c.session.activeAppIds then
      Waiting(c.(session := c.session.(applied := true)), i, AtApply(appIds, warmingUp))
    else Running(c, i, appIds, warmingUp)
  }

  function Running(c: Cell, i: nat, appIds: seq<nat>, warmingUp: bool): Cell
    requires i < |c.tasks| && c.tasks[i].Advance?
  {
    c.(session := c.session.(applied := true, activeAppIds := appIds,
                             phase := if warmingUp then Warming else Farming,
                             timer := Some(c.tasks[i].generation)),
       tasks := Finish(c.tasks, i))
  }

  // What a suspended call gets back: an error, or an answer. An availability
  // answer says whether farming is allowed or why not; scanDue and the choice
  // are what the controller computes from its games before the next await.
  datatype Reply = Throws | Answer(allowed: bool, refusal: Reason, beginFirst: bool, scanDue: bool, choice: Choice)

  function ResumeAdvance(c: Cell, i: nat, reply: Reply): Cell
    requires i < |c.tasks| && c.tasks[i].Advance?
  {
    var task := c.tasks[i];
    if !IsCurrent(c, task.generation) then c.(tasks := Finish(c.tasks, i))
    else if reply.Throws? then Caught(c, i)
    else
      match task.at
      case AtAvailability =>
        if !reply.allowed then
          c.(session := Halted(c.session, reply.refusal), tasks := FinishWith(c.tasks, i, c.session.applied))
        else if task.origin.FromStart? && reply.beginFirst then
          Waiting(c.(session := c.session.(applied := true)), i, AtBegin)
        else if task.origin.FromStart? || reply.scanDue then Waiting(c, i, AtDiscover)
        else Selected(c, i, reply.choice)
      case AtBegin => Waiting(c, i, AtDiscover)
      case AtDiscover => Selected(c, i, reply.choice)
      case AtApply(appIds, warmingUp) => Running(c, i, appIds, warmingUp)
      case AtEnd => c.(tasks := Finish(c.tasks, i))
  }

  function ResumeScan(c: Cell, i: nat, reply: Reply): Cell
    requires i < |c.tasks| && c.tasks[i].Scan?
  {
    var rest := Finish(c.tasks, i);
    if !IsCurrent(c, c.tasks[i].generation) then c.(tasks := rest)
    else if reply.Throws? then c.(session := c.session.(phase := Failed, reason := ScanFailed), tasks := rest)
    else c.(session := c.session.(phase := Stopped), tasks := rest)
  }

  // ---- The calls ---------------------------------------------------------------------

  datatype Event =
    | CallStart(expected: Option<nat>, resumed: bool)
    | CallScan(expected: Option<nat>)
    | CallReconfigure
    | CallHalt(reason: Reason)
    | CallStop
    | CallBeginShutdown
    | CallInitialize
    | TimerFires
    | Resume(index: nat, reply: Reply)

  predicate Superseded(c: Cell, expected: Option<nat>)
  {
    expected.Some? && expected.value != c.session.generation
  }

  function Next(c: Cell, e: Event): Cell
  {
    var s := c.session;
    match e
    case CallStart(expected, resumed) =>
      if c.shuttingDown || Superseded(c, expected) || IsActive(s) then c
      else
        var generation := s.generation + 1;
        c.(session := s.(generation := generation, phase := Scanning, reason := NoReason, applied := false),
           tasks := c.tasks + [Advance(generation, AtAvailability, FromStart(resumed))])
    case CallScan(expected) =>
      if c.shuttingDown || Superseded(c, expected) || IsActive(s) then c
      else
        var generation := s.generation + 1;
        c.(session := s.(generation := generation, phase := Scanning, reason := NoReason),
           tasks := c.tasks + [Scan(generation)])
    case CallReconfigure =>
      if IsActive(s) && s.timer.Some? then
        c.(session := s.(timer := None), tasks := c.tasks + [Advance(s.generation, AtAvailability, FromTick)])
      else c
    case CallHalt(reason) => c.(session := Halted(s, reason))
    case CallStop => c.(session := Halted(s, UserStop), tasks := c.tasks + [Cleanup])
    case CallBeginShutdown => c.(session := Halted(s, Shutdown), shuttingDown := true)
    case CallInitialize => c.(shuttingDown := false)
    case TimerFires =>
      if s.timer.None? then c
      else if IsCurrent(c, s.timer.value) then
        c.(session := s.(timer := None), tasks := c.tasks + [Advance(s.timer.value, AtAvailability, FromTick)])
      else c.(session := s.(timer := None))
    case Resume(i, reply) =>
      if i >= |c.tasks| then c
      else
        match c.tasks[i]
        case Advance(_, _, _) => ResumeAdvance(c, i, reply)
        case Scan(_) => ResumeScan(c, i, reply)
        // Not guarded by a generation: it writes to whatever session is active now.
        case StartTail(_, resumed) =>
          c.(session := if IsActive(s) && resumed then s.(reason := Resumed) else s, tasks := Finish(c.tasks, i))
        case Cleanup => c.(tasks := Finish(c.tasks, i))
  }

  function After(c: Cell, events: seq<Event>): Cell
    decreases |events|
  {
    if events == [] then c else After(Next(c, events[0]), events[1..])
  }

  const FRESH := Cell(Session(0, None, Stopped, NoReason, false, []), [], false)

  // ---- Drivers -------------------------------------------------------------------------

  // A live task is a current advance or a current scan. It drives the session
  // unless it merely waits for the end of a completed run.
  predicate IsLive(task: Task, generation: nat)
  {
    (task.Advance? || task.Scan?) && task.generation == generation
  }

  predicate Drives(task: Task, generation: nat)
  {
    IsLive(task, generation) && !(task.Advance? && task.at.AtEnd?)
  }

  // Which of the two is counted.
  datatype Census = Live | Driving

  predicate Counts(task: Task, generation: nat, census: Census)
  {
    if census.Live? then IsLive(task, generation) else Drives(task, generation)
  }

  function Count(tasks: seq<Task>, generation: nat, census: Census): nat
  {
    if tasks == [] then 0
    else (if Counts(tasks[0], generation, census) then 1 else 0) + Count(tasks[1..], generation, census)
  }

  // Live tasks or driving tasks, and the timer.
  function Drivers(c: Cell, census: Census): nat
  {
    Count(c.tasks, c.session.generation, census) + if c.session.timer.Some? then 1 else 0
  }

  predicate NotAhead(task: Task, generation: nat)
  {
    match task
    case Advance(g, _, _) => g <= generation
    case Scan(g) => g <= generation
    case StartTail(g, _) => g <= generation
    case Cleanup => true
  }

  // What a suspended call says about the session it belongs to.
  predicate TaskFits(task: Task, s: Session)
  {
    && NotAhead(task, s.generation)
    && (task.Scan? && task.generation == s.generation ==> s.phase.Scanning?)
    && (task.Advance? && task.generation == s.generation ==>
          && (task.at.AtEnd? ==> s.phase.Completed?)
          && (task.at.AtApply? ==> task.at.appIds != []))
  }

  ghost predicate TasksFit(tasks: seq<Task>, s: Session)
  {
    forall k :: 0 <= k < |tasks| ==> TaskFits(tasks[k], s)
  }

  // Games are reported exactly while warming or farming; only then is there a
  // timer, set by the current generation; nothing is active during a shutdown.
  predicate SessionShape(s: Session, shuttingDown: bool)
  {
    && (s.activeAppIds != [] <==> s.phase.Warming? || s.phase.Farming?)
    && (s.timer.Some? ==> s.timer.value == s.generation && (s.phase.Warming? || s.phase.Farming?))
    && (shuttingDown ==> !IsActive(s))
  }

  // An active session has exactly one driver, any other has none; and there is
  // never more than one live task or timer, waiting for the end included.
  ghost predicate Inv(c: Cell)
  {
    && Drivers(c, Driving) == (if IsActive(c.session) then 1 else 0)
    && Drivers(c, Live) <= 1
    && SessionShape(c.session, c.shuttingDown)
    && TasksFit(c.tasks, c.session)
  }

  lemma {:induction false} CountConcat(a: seq<Task>, b: seq<Task>, generation: nat, census: Census)
    ensures Count(a + b, generation, census) == Count(a, generation, census) + Count(b, generation, census)
  {
    if a == [] {
      assert a + b == b;
    } else {
      assert (a + b)[1..] == a[1..] + b;
      CountConcat(a[1..], b, generation, census);
    }
  }

  lemma CountOne(task: Task, generation: nat, census: Census)
    ensures Count([task], generation, census) == if Counts(task, generation, census) then 1 else 0
  {
    assert [task][1..] == [];
  }

  lemma CountSplit(tasks: seq<Task>, i: nat, generation: nat, census: Census)
    requires i < |tasks|
    ensures Count(tasks, generation, census)
         == Count(tasks[..i], generation, census) + (if Counts(tasks[i], generation, census) then 1 else 0)
            + Count(tasks[i + 1..], generation, census)
  {
    assert tasks == tasks[..i] + [tasks[i]] + tasks[i + 1..];
    CountConcat(tasks[..i] + [tasks[i]], tasks[i + 1..], generation, census);
    CountConcat(tasks[..i], [tasks[i]], generation, census);
    CountOne(tasks[i], generation, census);
  }

  lemma CountReplaced(tasks: seq<Task>, i: nat, task: Task, generation: nat, census: Census)
    requires i < |tasks|
    ensures Count(tasks[i := task], generation, census) + (if Counts(tasks[i], generation, census) then 1 else 0)
         == Count(tasks, generation, census) + if Counts(task, generation, census) then 1 else 0
  {
    CountSplit(tasks, i, generation, census);
    var replaced := tasks[i := task];
    assert replaced[..i] == tasks[..i] && replaced[i + 1..] == tasks[i + 1..];
    CountSplit(replaced, i, generation, census);
  }

  lemma CountFinished(tasks: seq<Task>, i: nat, cleanup: bool, generation: nat, census: Census)
    requires i < |tasks|
    ensures Count(FinishWith(tasks, i, cleanup), generation, census) + (if Counts(tasks[i], generation, census) then 1 else 0)
         == Count(tasks, generation, census)
  {
    CountSplit(tasks, i, generation, census);
    var rest := tasks[..i] + tasks[i + 1..];
    CountConcat(tasks[..i], tasks[i + 1..], generation, census);
    var finished := Finish(tasks, i);
    if tasks[i].Advance? && tasks[i].origin.FromStart? {
      var tail := StartTail(tasks[i].generation, tasks[i].origin.resumed);
      CountConcat(rest, [tail], generation, census);
      CountOne(tail, generation, census);
    }
    CountConcat(finished, [Cleanup], generation, census);
    CountOne(Cleanup, generation, census);
  }

  lemma FinishedTasks(tasks: seq<Task>, i: nat, cleanup: bool)
    requires i < |tasks|
    ensures forall k :: 0 <= k < |FinishWith(tasks, i, cleanup)| ==>
              var task := FinishWith(tasks, i, cleanup)[k];
              task in tasks || (task.StartTail? && tasks[i].Advance? && task.generation == tasks[i].generation) || task.Cleanup?
  {}

  lemma {:induction false} StaleTasksDoNotCount(tasks: seq<Task>, generation: nat, census: Census)
    requires forall k :: 0 <= k < |tasks| ==> NotAhead(tasks[k], generation)
    ensures Count(tasks, generation + 1, census) == 0
  {
    if tasks != [] {
      StaleTasksDoNotCount(tasks[1..], generation, census);
    }
  }

  // What drives is live.
  lemma {:induction false} DriversAreLive(tasks: seq<Task>, generation: nat)
    ensures Count(tasks, generation, Driving) <= Count(tasks, generation, Live)
  {
    if tasks != [] {
      DriversAreLive(tasks[1..], generation);
    }
  }

  // ---- One step keeps the invariant ------------------------------------------------------

  lemma HaltKeepsInv(c: Cell, reason: Reason, tasks: seq<Task>, down: bool)
    requires Inv(c) && TasksFit(tasks, c.session)
    ensures Inv(Cell(Halted(c.session, reason), tasks, down))
    ensures Inv(Cell(Halted(c.session, reason).(phase := Failed), tasks, down))
  {
    StaleTasksDoNotCount(tasks, c.session.generation, Driving);
    StaleTasksDoNotCount(tasks, c.session.generation, Live);
  }

  lemma FinishedFits(tasks: seq<Task>, i: nat, cleanup: bool, s: Session)
    requires i < |tasks| && TasksFit(tasks, s)
    ensures TasksFit(FinishWith(tasks, i, cleanup), s)
  {
    FinishedTasks(tasks, i, cleanup);
    assert TaskFits(tasks[i], s);
  }

  // While a live task is suspended no timer is set and no other task is live.
  lemma OnlyLiveTask(c: Cell, i: nat)
    requires Inv(c) && i < |c.tasks| && IsLive(c.tasks[i], c.session.generation)
    ensures c.session.timer.None?
    ensures forall k :: 0 <= k < |c.tasks| && k != i ==> !IsLive(c.tasks[k], c.session.generation)
    ensures Count(c.tasks, c.session.generation, Live) == 1
    ensures IsActive(c.session) <==> Drives(c.tasks[i], c.session.generation)
  {
    var g := c.session.generation;
    CountSplit(c.tasks, i, g, Live);
    CountSplit(c.tasks, i, g, Driving);
    DriversAreLive(c.tasks[..i], g);
    DriversAreLive(c.tasks[i + 1..], g);
    forall k | 0 <= k < |c.tasks| && k != i
      ensures !IsLive(c.tasks[k], g)
    {
      if k < i {
        CountSplit(c.tasks[..i], k, g, Live);
        assert c.tasks[..i][k] == c.tasks[k];
      } else {
        CountSplit(c.tasks[i + 1..], k - i - 1, g, Live);
        assert c.tasks[i + 1..][k - i - 1] == c.tasks[k];
      }
    }
  }

  // The driver goes on to its next await.
  lemma WaitingKeepsInv(c: Cell, i: nat, s: Session, at: Await)
    requires Inv(c) && i < |c.tasks| && c.tasks[i].Advance? && Drives(c.tasks[i], c.session.generation)
    requires s.generation == c.session.generation && s.timer.None? && SessionShape(s, c.shuttingDown)
    requires IsActive(s) <==> !at.AtEnd?
    requires TaskFits(c.tasks[i].(at := at), s)
    ensures Inv(Waiting(c.(session := s), i, at))
  {
    OnlyLiveTask(c, i);
    CountReplaced(c.tasks, i, c.tasks[i].(at := at), s.generation, Driving);
    CountReplaced(c.tasks, i, c.tasks[i].(at := at), s.generation, Live);
  }

  // The driver is over; it leaves a timer or an inactive session.
  lemma FinishKeepsInv(c: Cell, i: nat, s: Session)
    requires Inv(c) && i < |c.tasks| && Drives(c.tasks[i], c.session.generation)
    requires s.generation == c.session.generation && SessionShape(s, c.shuttingDown)
    requires IsActive(s) <==> s.timer.Some?
    ensures Inv(c.(session := s, tasks := Finish(c.tasks, i)))
  {
    OnlyLiveTask(c, i);
    assert TaskFits(c.tasks[i], c.session);
    CountFinished(c.tasks, i, false, s.generation, Driving);
    CountFinished(c.tasks, i, false, s.generation, Live);
    var tasks := Finish(c.tasks, i);
    forall k | 0 <= k < |tasks|
      ensures TaskFits(tasks[k], s)
    {
      FinishedFromOthers(c.tasks, i, k);
    }
  }

  lemma FinishedFromOthers(tasks: seq<Task>, i: nat, k: nat)
    requires i < |tasks| && k < |Finish(tasks, i)|
    ensures (Finish(tasks, i)[k].StartTail? && tasks[i].Advance? && Finish(tasks, i)[k].generation == tasks[i].generation)
         || exists j :: 0 <= j < |tasks| && j != i && tasks[j] == Finish(tasks, i)[k]
  {
    if k < i {
      assert Finish(tasks, i)[k] == tasks[k];
    } else if k < |tasks| - 1 {
      assert Finish(tasks, i)[k] == tasks[k + 1];
    }
  }

  lemma SelectedKeepsInv(c: Cell, i: nat, choice: Choice)
    requires Inv(c) && i < |c.tasks| && c.tasks[i].Advance?
    requires IsCurrent(c, c.tasks[i].generation) && !c.tasks[i].at.AtEnd?
    ensures Inv(Selected(c, i, choice))
    ensures choice.appIds != [] ==> Inv(Running(c, i, choice.appIds, choice.warmingUp))
  {
    hide Inv, Finish;
    OnlyLiveTask(c, i);
    var s := c.session;
    assert SessionShape(s, c.shuttingDown) && TasksFit(c.tasks, s) by { InvParts(c); }
    var Choice(appIds, warmingUp, noneEligible) := choice;
    if appIds == [] {
      var completed := s.(phase := Completed, activeAppIds := [],
                          reason := if noneEligible then NoEligibleGames else NoReason);
      if s.applied {
        WaitingKeepsInv(c, i, completed, AtEnd);
      } else {
        FinishKeepsInv(c, i, completed);
      }
    } else {
      WaitingKeepsInv(c, i, s.(applied := true), AtApply(appIds, warmingUp));
      FinishKeepsInv(c, i, s.(applied := true, activeAppIds := appIds,
                              phase := if warmingUp then Warming else Farming,
                              timer := Some(c.tasks[i].generation)));
    }
  }

  lemma InvParts(c: Cell)
    requires Inv(c)
    ensures SessionShape(c.session, c.shuttingDown) && TasksFit(c.tasks, c.session)
  {}

  // A task that drives nothing is over without effect.
  lemma DroppedKeepsInv(c: Cell, i: nat)
    requires Inv(c) && i < |c.tasks| && !Drives(c.tasks[i], c.session.generation)
    ensures Inv(c.(tasks := Finish(c.tasks, i)))
  {
    CountFinished(c.tasks, i, false, c.session.generation, Driving);
    CountFinished(c.tasks, i, false, c.session.generation, Live);
    FinishedFits(c.tasks, i, false, c.session);
  }

  lemma ResumeAdvanceKeepsInv(c: Cell, i: nat, reply: Reply)
    requires Inv(c) && i < |c.tasks| && c.tasks[i].Advance?
    ensures Inv(ResumeAdvance(c, i, reply))
  {
    hide Selected, Running, Inv, Finish, FinishWith;
    InvParts(c);
    var task, s := c.tasks[i], c.session;
    if !IsCurrent(c, task.generation) {
      if Drives(task, s.generation) { OnlyLiveTask(c, i); }
      DroppedKeepsInv(c, i);
    } else if reply.Throws? {
      FinishedFits(c.tasks, i, s.applied, s);
      HaltKeepsInv(c, FarmingFailed, FinishWith(c.tasks, i, s.applied), c.shuttingDown);
    } else {
      match task.at
      case AtAvailability =>
        OnlyLiveTask(c, i);
        FinishedFits(c.tasks, i, s.applied, s);
        HaltKeepsInv(c, reply.refusal, FinishWith(c.tasks, i, s.applied), c.shuttingDown);
        SelectedKeepsInv(c, i, reply.choice);
        WaitingKeepsInv(c, i, s.(applied := true), AtBegin);
        WaitingKeepsInv(c, i, s, AtDiscover);
      case AtBegin =>
        OnlyLiveTask(c, i);
        WaitingKeepsInv(c, i, s, AtDiscover);
      case AtDiscover => SelectedKeepsInv(c, i, reply.choice);
      case AtApply(appIds, warmingUp) =>
        assert TaskFits(task, s);
        SelectedKeepsInv(c, i, Choice(appIds, warmingUp, false));
      case AtEnd => DroppedKeepsInv(c, i);
    }
  }

  lemma ResumeKeepsInv(c: Cell, i: nat, reply: Reply)
    requires Inv(c) && i < |c.tasks|
    ensures Inv(Next(c, Resume(i, reply)))
  {
    hide ResumeAdvance, Inv, Finish;
    InvParts(c);
    var s := c.session;
    match c.tasks[i]
    case Advance(_, _, _) => ResumeAdvanceKeepsInv(c, i, reply);
    case Scan(g) =>
      if IsCurrent(c, g) {
        OnlyLiveTask(c, i);
        assert TaskFits(c.tasks[i], s);
        FinishKeepsInv(c, i, s.(phase := Failed, reason := ScanFailed));
        FinishKeepsInv(c, i, s.(phase := Stopped));
      } else {
        if Drives(c.tasks[i], s.generation) { OnlyLiveTask(c, i); }
        DroppedKeepsInv(c, i);
      }
    case StartTail(_, resumed) =>
      DroppedKeepsInv(c, i);
      ReasonIsFree(c.(tasks := Finish(c.tasks, i)), Resumed);
    case Cleanup => DroppedKeepsInv(c, i);
  }

  lemma ReasonIsFree(c: Cell, reason: Reason)
    requires Inv(c)
    ensures Inv(c.(session := c.session.(reason := reason)))
  {
    var s := c.session.(reason := reason);
    forall k | 0 <= k < |c.tasks|
      ensures TaskFits(c.tasks[k], s)
    {
      assert TaskFits(c.tasks[k], c.session);
    }
  }

  lemma StepKeepsInv(c: Cell, e: Event)
    requires Inv(c)
    ensures Inv(Next(c, e))
  {
    hide ResumeAdvance, ResumeScan;
    var s := c.session;
    match e
    case CallStart(_, resumed) =>
      AppendDriver(c.tasks, s.generation, Advance(s.generation + 1, AtAvailability, FromStart(resumed)));
    case CallScan(_) => AppendDriver(c.tasks, s.generation, Scan(s.generation + 1));
    case CallReconfigure =>
      AppendTask(c.tasks, Advance(s.generation, AtAvailability, FromTick), s.generation);
    case CallHalt(reason) => HaltKeepsInv(c, reason, c.tasks, c.shuttingDown);
    case CallStop => HaltKeepsInv(c, UserStop, c.tasks + [Cleanup], c.shuttingDown);
    case CallBeginShutdown => HaltKeepsInv(c, Shutdown, c.tasks, true);
    case CallInitialize =>
    case TimerFires =>
      AppendTask(c.tasks, Advance(s.generation, AtAvailability, FromTick), s.generation);
    case Resume(i, reply) =>
      if i < |c.tasks| { ResumeKeepsInv(c, i, reply); }
  }

  lemma AppendTask(tasks: seq<Task>, task: Task, generation: nat)
    ensures Count(tasks + [task], generation, Driving)
         == Count(tasks, generation, Driving) + if Drives(task, generation) then 1 else 0
    ensures Count(tasks + [task], generation, Live)
         == Count(tasks, generation, Live) + if IsLive(task, generation) then 1 else 0
  {
    CountConcat(tasks, [task], generation, Driving);
    CountOne(task, generation, Driving);
    CountConcat(tasks, [task], generation, Live);
    CountOne(task, generation, Live);
  }

  lemma AppendDriver(tasks: seq<Task>, generation: nat, task: Task)
    requires forall k :: 0 <= k < |tasks| ==> NotAhead(tasks[k], generation)
    requires Drives(task, generation + 1)
    ensures Count(tasks + [task], generation + 1, Driving) == Count(tasks + [task], generation + 1, Live) == 1
  {
    StaleTasksDoNotCount(tasks, generation, Driving);
    StaleTasksDoNotCount(tasks, generation, Live);
    AppendTask(tasks, task, generation + 1);
  }

  // ---- Over every interleaving -------------------------------------------------------------

  lemma {:induction false} RunKeepsInv(c: Cell, events: seq<Event>)
    requires Inv(c)
    ensures Inv(After(c, events))
    decreases |events|
  {
    if events != [] {
      StepKeepsInv(c, events[0]);
      RunKeepsInv(Next(c, events[0]), events[1..]);
    }
  }

  // Whatever the order of calls, timers and answers: an active session has
  // exactly one driver, an idle one has none; there is never a second live task
  // or timer, not even beside an advance that waits for the end of its run; and
  // games are reported exactly while warming or farming.
  lemma OneDriverInEveryRun(events: seq<Event>)
    ensures var c := After(FRESH, events);
            && (Drivers(c, Driving) == 1 <==> IsActive(c.session))
            && (Drivers(c, Driving) == 0 <==> !IsActive(c.session))
            && Drivers(c, Live) <= 1
            && (c.session.activeAppIds != [] <==> c.session.phase.Warming? || c.session.phase.Farming?)
  {
    RunKeepsInv(FRESH, events);
  }

  // ---- Generations ---------------------------------------------------------------------------

  // A step that takes a new generation: a halt, stop or shutdown, a start or
  // scan that is let in, and a current advance that fails or is refused.
  predicate Overtakes(c: Cell, e: Event)
  {
    match e
    case CallStart(expected, _) => !c.shuttingDown && !Superseded(c, expected) && !IsActive(c.session)
    case CallScan(expected) => !c.shuttingDown && !Superseded(c, expected) && !IsActive(c.session)
    case CallHalt(_) => true
    case CallStop => true
    case CallBeginShutdown => true
    case Resume(i, reply) =>
      && i < |c.tasks| && c.tasks[i].Advance? && IsCurrent(c, c.tasks[i].generation)
      && (reply.Throws? || (c.tasks[i].at.AtAvailability? && !reply.allowed))
    case _ => false
  }

  predicate OvertakenAlong(c: Cell, events: seq<Event>)
    decreases |events|
  {
    events != [] && (Overtakes(c, events[0]) || OvertakenAlong(Next(c, events[0]), events[1..]))
  }

  lemma StepCountsGeneration(c: Cell, e: Event)
    ensures Next(c, e).session.generation == c.session.generation + if Overtakes(c, e) then 1 else 0
  {}

  lemma {:induction false} GenerationOnlyGrows(c: Cell, events: seq<Event>)
    ensures c.session.generation <= After(c, events).session.generation
    decreases |events|
  {
    if events != [] {
      hide Next, Overtakes;
      StepCountsGeneration(c, events[0]);
      GenerationOnlyGrows(Next(c, events[0]), events[1..]);
    }
  }

  // The generation at the end of a run differs exactly when some step of the
  // run took a new one.
  lemma {:induction false} GenerationTellsOvertaken(c: Cell, events: seq<Event>)
    ensures After(c, events).session.generation != c.session.generation <==> OvertakenAlong(c, events)
    decreases |events|
  {
    if events != [] {
      hide Next, Overtakes;
      StepCountsGeneration(c, events[0]);
      GenerationOnlyGrows(Next(c, events[0]), events[1..]);
      GenerationTellsOvertaken(Next(c, events[0]), events[1..]);
    }
  }

  // The guard handed to apply, begin, discover or end before a halt is false
  // ever after: no later start, scan or re-initialisation revives it.
  lemma HaltedGuardStaysFalse(c: Cell, generation: nat, halt: Event, later: seq<Event>)
    requires generation <= c.session.generation
    requires halt.CallHalt? || halt.CallStop? || halt.CallBeginShutdown?
    ensures !IsCurrent(After(Next(c, halt), later), generation)
  {
    GenerationOnlyGrows(Next(c, halt), later);
  }

  // An advance or scan that is overtaken once changes no session any more,
  // however much later its await ends and whatever has happened meanwhile.
  lemma OvertakenTaskChangesNothing(c: Cell, between: seq<Event>, i: nat, reply: Reply)
    requires OvertakenAlong(c, between)
    requires var late := After(c, between);
             && i < |late.tasks| && (late.tasks[i].Advance? || late.tasks[i].Scan?)
             && late.tasks[i].generation <= c.session.generation
    ensures Next(After(c, between), Resume(i, reply)).session == After(c, between).session
  {
    GenerationOnlyGrows(c, between);
    GenerationTellsOvertaken(c, between);
  }

  // ---- What Steam was told and takes back ------------------------------------------------------

  // The calls that wait for an operation of the adapter: begin clears the list
  // of games, apply hands over a new one, end takes everything back.
  predicate TellsGames(task: Task) { task.Advance? && (task.at.AtBegin? || task.at.AtApply?) }

  function GamesTold(task: Task): seq<nat>
    requires TellsGames(task)
  {
    if task.at.AtApply? then task.at.appIds else []
  }

  predicate TakesBack(task: Task) { task.Cleanup? || (task.Advance? && task.at.AtEnd?) }

  // The step makes this call wait there: its operation is begun.
  ghost predicate Begins(c: Cell, e: Event, task: Task)
  {
    multiset(Next(c, e).tasks)[task] > multiset(c.tasks)[task]
  }

  ghost predicate BeginsTelling(c: Cell, e: Event)
  {
    exists task :: TellsGames(task) && Begins(c, e, task)
  }

  ghost predicate BeginsEnding(c: Cell, e: Event)
  {
    exists task :: TakesBack(task) && Begins(c, e, task)
  }

  // The list Steam was handed last, unless the run it belongs to was given up.
  ghost function ToldAfter(c: Cell, e: Event, told: Option<seq<nat>>): Option<seq<nat>>
  {
    if BeginsTelling(c, e) then
      var task :| TellsGames(task) && Begins(c, e, task);
      Some(GamesTold(task))
    else if Overtakes(c, e) && !e.CallScan? then None
    else told
  }

  ghost function Told(c: Cell, events: seq<Event>, told: Option<seq<nat>>): Option<seq<nat>>
    decreases |events|
  {
    if events == [] then told else Told(Next(c, events[0]), events[1..], ToldAfter(c, events[0], told))
  }

  // A current advance leaves the session idle: nothing is left to farm, farming
  // is refused, or something failed, be it the end of a completed run.
  predicate GivesUp(c: Cell, e: Event)
  {
    && e.Resume? && e.index < |c.tasks| && c.tasks[e.index].Advance?
    && IsCurrent(c, c.tasks[e.index].generation)
    && !IsActive(Next(c, e).session)
    && (c.tasks[e.index].at.AtEnd? ==> e.reply.Throws?)
  }

  predicate LiveAt(c: Cell, k: nat) { k < |c.tasks| && c.tasks[k].Advance? && c.tasks[k].generation == c.session.generation }

  // The applied flag says whether Steam holds a list. The games reported are
  // that list, unless an apply that is in flight is about to change them.
  ghost predicate KnowsWhatWasTold(c: Cell, told: Option<seq<nat>>)
  {
    && (c.session.applied <==> told.Some?)
    && (forall k: nat :: LiveAt(c, k) && TellsGames(c.tasks[k]) ==> told == Some(GamesTold(c.tasks[k])))
    && (forall k: nat :: LiveAt(c, k) && c.tasks[k].origin.FromStart? ==> c.session.activeAppIds == [])
    && (c.session.activeAppIds != [] ==>
          told == Some(c.session.activeAppIds) || exists k: nat :: LiveAt(c, k) && c.tasks[k].at.AtApply?)
  }

  lemma MovedBegins(c: Cell, e: Event, i: nat, task: Task)
    requires i < |c.tasks| && task != c.tasks[i] && Next(c, e).tasks == c.tasks[i := task]
    ensures forall other :: Begins(c, e, other) <==> other == task
  {
    assert multiset(Next(c, e).tasks) == multiset(c.tasks) - multiset{c.tasks[i]} + multiset{task};
  }

  // A call that is over makes room for the rest of its start and for an end.
  lemma FinishedCalls(tasks: seq<Task>, i: nat, cleanup: bool, task: Task)
    requires i < |tasks|
    ensures multiset(FinishWith(tasks, i, cleanup))[task] <=
            multiset(tasks)[task] + (if task.StartTail? then 1 else 0) + (if task.Cleanup? && cleanup then 1 else 0)
    ensures cleanup && tasks[i] != Cleanup ==> multiset(FinishWith(tasks, i, cleanup))[Cleanup] == multiset(tasks)[Cleanup] + 1
  {
    assert tasks == tasks[..i] + [tasks[i]] + tasks[i + 1..];
  }

  lemma FinishedBegins(c: Cell, e: Event, i: nat, cleanup: bool)
    requires i < |c.tasks| && (cleanup ==> c.tasks[i].Advance?) && Next(c, e).tasks == FinishWith(c.tasks, i, cleanup)
    ensures !BeginsTelling(c, e)
    ensures BeginsEnding(c, e) <==> cleanup
  {
    hide FinishWith, Next;
    forall task
      ensures Begins(c, e, task) ==> task.StartTail? || (task.Cleanup? && cleanup)
    {
      FinishedCalls(c.tasks, i, cleanup, task);
    }
    if cleanup {
      FinishedCalls(c.tasks, i, cleanup, Cleanup);
      assert Begins(c, e, Cleanup);
    }
  }

  lemma AppendedBegins(c: Cell, e: Event, task: Task)
    requires Next(c, e).tasks == c.tasks + [task]
    ensures forall other :: Begins(c, e, other) <==> other == task
  {}

  // The same, told by the one advance that is live.
  predicate DriverKnows(c: Cell, i: nat, told: Option<seq<nat>>)
    requires i < |c.tasks| && c.tasks[i].Advance?
  {
    && (c.session.applied <==> told.Some?)
    && (TellsGames(c.tasks[i]) ==> told == Some(GamesTold(c.tasks[i])))
    && (c.tasks[i].origin.FromStart? ==> c.session.activeAppIds == [])
    && (c.session.activeAppIds != [] ==> told == Some(c.session.activeAppIds) || c.tasks[i].at.AtApply?)
  }

  lemma KnowsIffDriverKnows(c: Cell, i: nat, told: Option<seq<nat>>)
    requires LiveAt(c, i) && forall k: nat :: LiveAt(c, k) ==> k == i
    ensures KnowsWhatWasTold(c, told) <==> DriverKnows(c, i, told)
  {
    if KnowsWhatWasTold(c, told) {
      assert DriverKnows(c, i, told);
    }
    if DriverKnows(c, i, told) && c.tasks[i].at.AtApply? {
      assert LiveAt(c, i) && c.tasks[i].at.AtApply?;
    }
  }

  lemma OnlyDriver(c: Cell, i: nat)
    requires Inv(c) && LiveAt(c, i)
    ensures c.session.timer.None? && forall k: nat :: LiveAt(c, k) ==> k == i
  {
    hide Inv;
    OnlyLiveTask(c, i);
    assert forall k: nat :: LiveAt(c, k) ==> IsLive(c.tasks[k], c.session.generation);
  }

  // The driver goes on to its next await: what it begins there is all that is begun.
  lemma MovedKnows(c: Cell, i: nat, reply: Reply, at: Await, told: Option<seq<nat>>)
    requires Inv(c) && KnowsWhatWasTold(c, told) && LiveAt(c, i) && at != c.tasks[i].at
    requires var next := Next(c, Resume(i, reply));
             && next.tasks == c.tasks[i := c.tasks[i].(at := at)]
             && next.session.generation == c.session.generation
             && next.session.applied == (c.session.applied || at.AtBegin? || at.AtApply?)
             && next.session.activeAppIds == (if at.AtEnd? then [] else c.session.activeAppIds)
             && !Overtakes(c, Resume(i, reply))
    requires !c.tasks[i].at.AtApply? && (at.AtBegin? ==> c.tasks[i].origin.FromStart?)
    ensures var e := Resume(i, reply);
            KnowsWhatWasTold(Next(c, e), ToldAfter(c, e, told)) && (BeginsEnding(c, e) <==> at.AtEnd?)
  {
    var e, moved := Resume(i, reply), c.tasks[i].(at := at);
    MovedBegins(c, e, i, moved);
    OnlyDriver(c, i);
    hide Inv, Next, Begins, Overtakes, KnowsWhatWasTold;
    var next := Next(c, e);
    assert Begins(c, e, moved);
    assert ToldAfter(c, e, told) == if TellsGames(moved) then Some(GamesTold(moved)) else told;
    assert LiveAt(next, i) && next.tasks[i] == moved;
    assert forall k: nat :: LiveAt(next, k) ==> LiveAt(c, k);
    KnowsIffDriverKnows(c, i, told);
    KnowsIffDriverKnows(next, i, ToldAfter(c, e, told));
  }

  lemma IdleKnows(c: Cell, told: Option<seq<nat>>)
    requires forall k: nat :: !LiveAt(c, k)
    requires (c.session.applied <==> told.Some?) && (c.session.activeAppIds != [] ==> told == Some(c.session.activeAppIds))
    ensures KnowsWhatWasTold(c, told)
  {}

  // A halted session has no driver of its own yet.
  lemma HaltedKnows(c: Cell, reason: Reason, tasks: seq<Task>, down: bool)
    requires TasksFit(tasks, c.session)
    ensures KnowsWhatWasTold(Cell(Halted(c.session, reason), tasks, down), None)
    ensures KnowsWhatWasTold(Cell(Halted(c.session, reason).(phase := Failed), tasks, down), None)
  {
    forall k: nat | k < |tasks|
      ensures NotAhead(tasks[k], c.session.generation)
    {
      assert TaskFits(tasks[k], c.session);
    }
  }

  // A call that is over and was no apply of this run changes nothing that is known.
  lemma DroppedKnows(c: Cell, i: nat, s: Session, down: bool, told: Option<seq<nat>>)
    requires i < |c.tasks| && KnowsWhatWasTold(c, told) && (LiveAt(c, i) ==> !c.tasks[i].at.AtApply?)
    requires s.generation == c.session.generation && s.applied == c.session.applied && s.activeAppIds == c.session.activeAppIds
    ensures KnowsWhatWasTold(Cell(s, Finish(c.tasks, i), down), told)
  {
    var next := Cell(s, Finish(c.tasks, i), down);
    forall k: nat | LiveAt(next, k)
      ensures exists j: nat :: LiveAt(c, j) && c.tasks[j] == next.tasks[k]
    {
      FinishedFromOthers(c.tasks, i, k);
    }
    if k: nat :| LiveAt(c, k) && c.tasks[k].at.AtApply? {
      var moved := if k < i then k else k - 1;
      assert next.tasks[moved] == c.tasks[k];
      assert LiveAt(next, moved) && next.tasks[moved].at.AtApply?;
    }
  }

  // The driver is over and leaves no other.
  lemma NoDriverLeft(c: Cell, i: nat, s: Session)
    requires Inv(c) && LiveAt(c, i) && s.generation == c.session.generation
    ensures forall k: nat :: !LiveAt(c.(session := s, tasks := Finish(c.tasks, i)), k)
  {
    OnlyDriver(c, i);
    hide Inv;
    var next := c.(session := s, tasks := Finish(c.tasks, i));
    forall k: nat
      ensures LiveAt(next, k) ==> exists j: nat :: j != i && LiveAt(c, j)
    {
      if LiveAt(next, k) {
        FinishedFromOthers(c.tasks, i, k);
        var j: nat :| j < |c.tasks| && j != i && c.tasks[j] == next.tasks[k];
        assert j != i && LiveAt(c, j);
      }
    }
  }

  lemma SelectedTells(c: Cell, i: nat, reply: Reply, told: Option<seq<nat>>)
    requires Inv(c) && KnowsWhatWasTold(c, told) && LiveAt(c, i) && IsCurrent(c, c.tasks[i].generation)
    requires !reply.Throws? && ((c.tasks[i].at.AtAvailability? && reply.allowed) || c.tasks[i].at.AtDiscover?)
    requires Next(c, Resume(i, reply)) == Selected(c, i, reply.choice)
    ensures var e := Resume(i, reply);
            && KnowsWhatWasTold(Next(c, e), ToldAfter(c, e, told))
            && (BeginsEnding(c, e) <==> told.Some? && reply.choice.appIds == [])
            && (GivesUp(c, e) <==> reply.choice.appIds == [])
  {
    var e, choice := Resume(i, reply), reply.choice;
    OnlyLiveTask(c, i);
    OnlyDriver(c, i);
    KnowsIffDriverKnows(c, i, told);
    hide Inv, Next, Overtakes, KnowsWhatWasTold, Finish;
    if choice.appIds == [] && c.session.applied {
      MovedKnows(c, i, reply, AtEnd, told);
    } else if choice.appIds != [] && choice.appIds != c.session.activeAppIds {
      MovedKnows(c, i, reply, AtApply(choice.appIds, choice.warmingUp), told);
    } else {
      EndedTells(c, i, reply, told);
    }
  }

  lemma FailedTells(c: Cell, i: nat, reply: Reply, reason: Reason, told: Option<seq<nat>>)
    requires Inv(c) && KnowsWhatWasTold(c, told) && LiveAt(c, i) && Overtakes(c, Resume(i, reply))
    requires var next := Next(c, Resume(i, reply));
             && (next.session == Halted(c.session, reason) || next.session == Halted(c.session, reason).(phase := Failed))
             && next.tasks == FinishWith(c.tasks, i, c.session.applied)
    ensures var e := Resume(i, reply);
            KnowsWhatWasTold(Next(c, e), ToldAfter(c, e, told)) && (BeginsEnding(c, e) <==> told.Some?)
  {
    var e := Resume(i, reply);
    InvParts(c);
    hide Inv, Finish, Next, Overtakes;
    FinishedFits(c.tasks, i, c.session.applied, c.session);
    FinishedBegins(c, e, i, c.session.applied);
    hide FinishWith;
    var next := Next(c, e);
    HaltedKnows(c, reason, next.tasks, next.shuttingDown);
  }

  // The driver is over and the session goes on without one, or has ended.
  lemma EndedTells(c: Cell, i: nat, reply: Reply, told: Option<seq<nat>>)
    requires Inv(c) && KnowsWhatWasTold(c, told) && LiveAt(c, i) && !Overtakes(c, Resume(i, reply))
    requires var next := Next(c, Resume(i, reply));
             && next.tasks == Finish(c.tasks, i) && next.session.generation == c.session.generation
             && (next.session.applied <==> told.Some?)
             && (next.session.activeAppIds != [] ==> told == Some(next.session.activeAppIds))
    ensures var e := Resume(i, reply);
            KnowsWhatWasTold(Next(c, e), ToldAfter(c, e, told)) && !BeginsEnding(c, e)
  {
    var e := Resume(i, reply);
    var next := Next(c, e);
    NoDriverLeft(c, i, next.session);
    FinishedBegins(c, e, i, false);
    hide Inv, Finish, Next, Overtakes;
    assert forall k: nat :: LiveAt(next, k) ==> LiveAt(c.(session := next.session, tasks := Finish(c.tasks, i)), k);
    IdleKnows(next, told);
  }

  // What the resumption of a live advance has to keep.
  ghost predicate Tells(c: Cell, e: Event, told: Option<seq<nat>>)
  {
    KnowsWhatWasTold(Next(c, e), ToldAfter(c, e, told)) && (BeginsEnding(c, e) <==> told.Some? && GivesUp(c, e))
  }

  lemma AvailabilityTells(c: Cell, i: nat, reply: Reply, told: Option<seq<nat>>)
    requires Inv(c) && KnowsWhatWasTold(c, told) && LiveAt(c, i) && IsCurrent(c, c.tasks[i].generation)
    requires !reply.Throws? && c.tasks[i].at.AtAvailability?
    ensures Tells(c, Resume(i, reply), told)
  {
    var e, task := Resume(i, reply), c.tasks[i];
    InvParts(c);
    OnlyLiveTask(c, i);
    assert Next(c, e) == ResumeAdvance(c, i, reply);
    hide Inv, KnowsWhatWasTold, Finish, FinishWith, BeginsEnding, ToldAfter, TasksFit, Next, Selected;
    if !reply.allowed {
      FailedTells(c, i, reply, reply.refusal, told);
    } else if task.origin.FromStart? && reply.beginFirst {
      MovedKnows(c, i, reply, AtBegin, told);
    } else if task.origin.FromStart? || reply.scanDue {
      MovedKnows(c, i, reply, AtDiscover, told);
    } else {
      SelectedTells(c, i, reply, told);
    }
  }

  lemma ResumedAdvanceTells(c: Cell, i: nat, reply: Reply, told: Option<seq<nat>>)
    requires Inv(c) && KnowsWhatWasTold(c, told) && LiveAt(c, i) && IsCurrent(c, c.tasks[i].generation)
    ensures Tells(c, Resume(i, reply), told)
  {
    var e, task := Resume(i, reply), c.tasks[i];
    InvParts(c);
    OnlyLiveTask(c, i);
    OnlyDriver(c, i);
    KnowsIffDriverKnows(c, i, told);
    assert TaskFits(task, c.session);
    assert Next(c, e) == ResumeAdvance(c, i, reply);
    hide Inv, KnowsWhatWasTold, Finish, FinishWith, BeginsEnding, ToldAfter, TasksFit, TaskFits, Next, Selected;
    if reply.Throws? {
      FailedTells(c, i, reply, FarmingFailed, told);
    } else {
      match task.at
      case AtAvailability => AvailabilityTells(c, i, reply, told);
      case AtBegin => MovedKnows(c, i, reply, AtDiscover, told);
      case AtDiscover => SelectedTells(c, i, reply, told);
      case AtApply(appIds, _) => EndedTells(c, i, reply, told);
      case AtEnd => EndedTells(c, i, reply, told);
    }
  }

  // One step, whatever it is: an end is begun exactly by a stop, and by an
  // advance that gives up a run Steam was told of.
  lemma StepTakesBack(c: Cell, e: Event, told: Option<seq<nat>>)
    requires Inv(c) && KnowsWhatWasTold(c, told)
    ensures KnowsWhatWasTold(Next(c, e), ToldAfter(c, e, told))
    ensures BeginsEnding(c, e) <==> e.CallStop? || (told.Some? && GivesUp(c, e))
  {
    InvParts(c);
    if e.Resume? {
      if e.index < |c.tasks| {
        ResumeTakesBack(c, e.index, e.reply, told);
      } else {
        assert Next(c, e) == c;
      }
    } else if Next(c, e).tasks != c.tasks {
      CallTakesBack(c, e, told);
    } else if e.CallHalt? || e.CallBeginShutdown? {
      HaltedKnows(c, if e.CallHalt? then e.reason else Shutdown, c.tasks, Next(c, e).shuttingDown);
    }
  }

  lemma ResumeTakesBack(c: Cell, i: nat, reply: Reply, told: Option<seq<nat>>)
    requires Inv(c) && KnowsWhatWasTold(c, told) && i < |c.tasks|
    ensures var e := Resume(i, reply);
            && KnowsWhatWasTold(Next(c, e), ToldAfter(c, e, told))
            && (BeginsEnding(c, e) <==> told.Some? && GivesUp(c, e))
  {
    var e := Resume(i, reply);
    if c.tasks[i].Advance? && IsCurrent(c, c.tasks[i].generation) {
      ResumedAdvanceTells(c, i, reply, told);
    } else {
      InvParts(c);
      if LiveAt(c, i) { OnlyLiveTask(c, i); }
      var next := Next(c, e);
      assert next.tasks == Finish(c.tasks, i) && !Overtakes(c, e);
      FinishedBegins(c, e, i, false);
      hide Inv, Finish, Next, KnowsWhatWasTold;
      DroppedKnows(c, i, next.session, next.shuttingDown, told);
    }
  }

  // Where a timer is set nothing is suspended that could still act.
  lemma TimerMeansNoDriver(c: Cell)
    requires Inv(c) && c.session.timer.Some?
    ensures forall k: nat :: !LiveAt(c, k)
  {
    forall k: nat
      ensures !LiveAt(c, k)
    {
      if LiveAt(c, k) { OnlyLiveTask(c, k); }
    }
  }

  lemma FreshDriverKnows(c: Cell, e: Event, told: Option<seq<nat>>, task: Task)
    requires task.Advance? && task.at.AtAvailability?
    requires var next := Next(c, e);
             && next.tasks == c.tasks + [task] && task.generation == next.session.generation
             && (forall k: nat :: k < |c.tasks| ==> !LiveAt(next, k))
             && (next.session.applied <==> told.Some?)
             && (next.session.activeAppIds != [] ==> told == Some(next.session.activeAppIds) && task.origin.FromTick?)
    ensures KnowsWhatWasTold(Next(c, e), told)
  {
    hide Next;
    var next, last := Next(c, e), |c.tasks|;
    assert next.tasks[last] == task && LiveAt(next, last);
    KnowsIffDriverKnows(next, last, told);
  }

  // A call that is let in begins nothing but itself.
  lemma CallTakesBack(c: Cell, e: Event, told: Option<seq<nat>>)
    requires Inv(c) && KnowsWhatWasTold(c, told) && !e.Resume? && Next(c, e).tasks != c.tasks
    ensures KnowsWhatWasTold(Next(c, e), ToldAfter(c, e, told))
    ensures BeginsEnding(c, e) <==> e.CallStop?
  {
    InvParts(c);
    CallBegins(c, e, told);
    hide BeginsEnding, ToldAfter, Inv;
    if e.CallStop? {
      HaltedKnows(c, UserStop, c.tasks + [Cleanup], c.shuttingDown);
    } else if e.CallStart? || e.CallScan? {
      LetInKnows(c, e, told);
    } else {
      TimerMeansNoDriver(c);
      assert forall k: nat :: k < |c.tasks| && LiveAt(Next(c, e), k) ==> LiveAt(c, k);
      FreshDriverKnows(c, e, told, Advance(c.session.generation, AtAvailability, FromTick));
    }
  }

  lemma CallBegins(c: Cell, e: Event, told: Option<seq<nat>>)
    requires SessionShape(c.session, c.shuttingDown) && !e.Resume? && Next(c, e).tasks != c.tasks
    ensures BeginsEnding(c, e) <==> e.CallStop?
    ensures ToldAfter(c, e, told) == if e.CallStop? || e.CallStart? then None else told
  {
    var task := Next(c, e).tasks[|c.tasks|];
    AppendedBegins(c, e, task);
    assert Begins(c, e, task);
    assert !TellsGames(task) && (TakesBack(task) <==> e.CallStop?);
    hide Begins, Next;
  }

  lemma LetInKnows(c: Cell, e: Event, told: Option<seq<nat>>)
    requires SessionShape(c.session, c.shuttingDown) && TasksFit(c.tasks, c.session)
    requires KnowsWhatWasTold(c, told) && (e.CallStart? || e.CallScan?) && Next(c, e).tasks != c.tasks
    ensures KnowsWhatWasTold(Next(c, e), if e.CallStart? then None else told)
  {
    var next := Next(c, e);
    forall k: nat | k < |c.tasks|
      ensures !LiveAt(next, k)
    {
      assert TaskFits(c.tasks[k], c.session);
    }
    assert c.session.activeAppIds == [] && (c.session.applied <==> told.Some?);
    hide KnowsWhatWasTold, TasksFit;
    if e.CallScan? {
      IdleKnows(next, told);
    } else {
      FreshDriverKnows(c, e, None, next.tasks[|c.tasks|]);
    }
  }

  // Steam and the session agree after every run, and no run is given up behind
  // Steam's back: the step that leaves a told session idle begins an end, and an
  // end is begun by no other step but a stop.
  lemma {:induction false} EveryRunTakesBack(c: Cell, events: seq<Event>, told: Option<seq<nat>>)
    requires Inv(c) && KnowsWhatWasTold(c, told)
    ensures KnowsWhatWasTold(After(c, events), Told(c, events, told))
    ensures forall e :: BeginsEnding(After(c, events), e) <==>
              e.CallStop? || (Told(c, events, told).Some? && GivesUp(After(c, events), e))
    decreases |events|
  {
    hide Next, Inv, KnowsWhatWasTold, ToldAfter, BeginsEnding, GivesUp;
    if events == [] {
      forall e
        ensures BeginsEnding(c, e) <==> e.CallStop? || (told.Some? && GivesUp(c, e))
      {
        StepTakesBack(c, e, told);
      }
    } else {
      StepTakesBack(c, events[0], told);
      StepKeepsInv(c, events[0]);
      EveryRunTakesBack(Next(c, events[0]), events[1..], ToldAfter(c, events[0], told));
    }
  }

  // ---- What becomes of a run --------------------------------------------------------------------

  // How a run is given up tells why: an error is a failure, a refusal blocks the
  // session for the reason given, and only an empty choice completes it.
  lemma GivenUpFor(c: Cell, e: Event)
    requires Inv(c) && GivesUp(c, e)
    ensures var s, at := Next(c, e).session, c.tasks[e.index].at;
            && s.timer.None? && s.activeAppIds == []
            && (s.phase.Failed? <==> e.reply.Throws?)
            && (s.phase.Blocked? || s.phase.Stopped? <==> !e.reply.Throws? && at.AtAvailability? && !e.reply.allowed)
            && (s.phase.Blocked? ==> s.reason == e.reply.refusal)
            && (s.phase.Completed? ==> e.reply.choice.appIds == []
                                       && s.reason == if e.reply.choice.noneEligible then NoEligibleGames else NoReason)
  {
    InvParts(c);
    OnlyLiveTask(c, e.index);
    hide Inv;
  }

  // How many answers an advance waits for at most.
  function AnswersLeft(at: Await): nat
  {
    match at
    case AtAvailability => 4
    case AtBegin => 3
    case AtDiscover => 2
    case AtApply(_, _) => 1
    case AtEnd => 0
  }

  predicate Favourable(reply: Reply) { reply.Answer? && reply.allowed }

  // The run is complete, or it farms and will look again.
  predicate Settled(s: Session)
  {
    || s.phase.Completed?
    || ((s.phase.Warming? || s.phase.Farming?) && s.timer == Some(s.generation) && s.activeAppIds != [])
  }

  // The games are chosen at this answer.
  predicate Chooses(task: Task, reply: Reply)
    requires task.Advance? && reply.Answer?
  {
    task.at.AtDiscover? || (task.at.AtAvailability? && task.origin.FromTick? && !reply.scanDue)
  }

  // A favourable answer settles the run or brings its advance one await nearer
  // to that: a start begins farming mode before it looks at the badges, and a
  // tick looks at them when a scan is due. The list chosen is the one applied,
  // and the one applied is farmed.
  lemma FavourableAnswer(c: Cell, i: nat, reply: Reply)
    requires Inv(c) && i < |c.tasks| && c.tasks[i].Advance? && IsCurrent(c, c.tasks[i].generation)
    requires !c.tasks[i].at.AtEnd? && Favourable(reply)
    ensures var next, task := Next(c, Resume(i, reply)), c.tasks[i];
            && next.session.generation == c.session.generation && !next.shuttingDown
            && (Settled(next.session) ||
                (i < |next.tasks| && next.tasks[i].Advance? && next.tasks[i].generation == task.generation
                 && !next.tasks[i].at.AtEnd? && AnswersLeft(next.tasks[i].at) < AnswersLeft(task.at)))
            && (next.session.phase.Completed? <==> Chooses(task, reply) && reply.choice.appIds == [])
            && (!Chooses(task, reply) && !task.at.AtApply? ==>
                  next.tasks == c.tasks[i := task.(at := if task.at.AtAvailability? && task.origin.FromStart? && reply.beginFirst
                                                         then AtBegin else AtDiscover)])
            && (Chooses(task, reply) && reply.choice.appIds != [] ==>
                  || next.tasks == c.tasks[i := task.(at := AtApply(reply.choice.appIds, reply.choice.warmingUp))]
                  || (next.session.activeAppIds == c.session.activeAppIds == reply.choice.appIds
                      && next.session.phase == if reply.choice.warmingUp then Warming else Farming))
            && (task.at.AtApply? ==>
                  && next.session.activeAppIds == task.at.appIds
                  && next.session.phase == if task.at.warmingUp then Warming else Farming)
  {
    InvParts(c);
    OnlyLiveTask(c, i);
    assert TaskFits(c.tasks[i], c.session);
    hide Inv, Finish, TasksFit;
  }

  function Answers(i: nat, replies: seq<Reply>): seq<Event>
  {
    seq(|replies|, k requires 0 <= k < |replies| => Resume(i, replies[k]))
  }

  // So an advance that nothing overtakes and nothing fails settles its run after
  // at most four answers, whatever they choose.
  lemma {:induction false} UndisturbedAdvanceSettles(c: Cell, i: nat, replies: seq<Reply>)
    requires Inv(c) && i < |c.tasks| && c.tasks[i].Advance? && IsCurrent(c, c.tasks[i].generation)
    requires !c.tasks[i].at.AtEnd? && AnswersLeft(c.tasks[i].at) <= |replies|
    requires forall k :: 0 <= k < |replies| ==> Favourable(replies[k])
    ensures exists n :: 0 <= n <= AnswersLeft(c.tasks[i].at) <= |replies| && Settled(After(c, Answers(i, replies[..n])).session)
    decreases |replies|
  {
    var next := Next(c, Resume(i, replies[0]));
    FavourableAnswer(c, i, replies[0]);
    StepKeepsInv(c, Resume(i, replies[0]));
    hide Inv, Next, Settled;
    if Settled(next.session) {
      assert Answers(i, replies[..1]) == [Resume(i, replies[0])];
      assert After(c, [Resume(i, replies[0])]) == next by { assert [Resume(i, replies[0])][1..] == []; }
    } else {
      UndisturbedAdvanceSettles(next, i, replies[1..]);
      var n :| 0 <= n <= AnswersLeft(next.tasks[i].at) <= |replies[1..]|
               && Settled(After(next, Answers(i, replies[1..][..n])).session);
      var events := Answers(i, replies[..n + 1]);
      assert events[1..] == Answers(i, replies[1..][..n]);
      assert After(c, events) == After(next, events[1..]);
    }
  }

  // A halt of any kind leaves nothing that acts on the session: what was active
  // is stopped by the user or blocked for the reason, what was idle keeps its
  // phase unless the user stops it.
  lemma HaltSilences(c: Cell, e: Event)
    requires Inv(c) && (e.CallHalt? || e.CallStop? || e.CallBeginShutdown?)
    ensures var s, reason := Next(c, e).session, if e.CallHalt? then e.reason else if e.CallStop? then UserStop else Shutdown;
            && !IsActive(s) && s.timer.None? && s.activeAppIds == [] && Drivers(Next(c, e), Live) == 0
            && (s.phase.Stopped? && s.reason.NoReason? <== reason.UserStop?)
            && (!reason.UserStop? && IsActive(c.session) ==> s.phase.Blocked? && s.reason == reason)
            && (!reason.UserStop? && !IsActive(c.session) ==> s.phase == c.session.phase && s.reason == c.session.reason)
  {
    InvParts(c);
    var next := Next(c, e);
    forall k | 0 <= k < |next.tasks|
      ensures NotAhead(next.tasks[k], c.session.generation)
    {
      assert k < |c.tasks| ==> TaskFits(c.tasks[k], c.session);
    }
    StaleTasksDoNotCount(next.tasks, c.session.generation, Live);
  }

  // A session that farms looks at its games again when its timer fires, and at
  // once when the settings change.
  lemma TimerGivesWay(c: Cell, e: Event)
    requires Inv(c) && c.session.timer.Some? && (e.TimerFires? || e.CallReconfigure?)
    ensures Next(c, e) == c.(session := c.session.(timer := None),
                             tasks := c.tasks + [Advance(c.session.generation, AtAvailability, FromTick)])
  {
    InvParts(c);
  }

  // A scan looks at the badges and leaves the session as idle as it was; a start
  // that is over marks the session it started, if that was to resume.
  lemma ScanAndStartEnd(c: Cell, i: nat, reply: Reply)
    requires Inv(c) && i < |c.tasks|
    ensures c.tasks[i].Scan? && IsCurrent(c, c.tasks[i].generation) ==>
              Next(c, Resume(i, reply)).session
              == if reply.Throws? then c.session.(phase := Failed, reason := ScanFailed) else c.session.(phase := Stopped)
    ensures c.tasks[i].StartTail? && c.tasks[i].generation == c.session.generation ==>
              Next(c, Resume(i, reply)).session
              == if c.tasks[i].resumed && IsActive(c.session) then c.session.(reason := Resumed) else c.session
  {}

  // ---- The unguarded rest of start -------------------------------------------------------------

  // The rest of start after its advance carries no generation: resumed over a
  // session of another generation it leaves that session alone exactly when the
  // start was no resumption, nothing is active, or the session is marked already.
  lemma TailSparesLaterSession(c: Cell, i: nat, reply: Reply)
    requires i < |c.tasks| && c.tasks[i].StartTail? && c.tasks[i].generation != c.session.generation
    ensures Next(c, Resume(i, reply)).session == c.session
       <==> !c.tasks[i].resumed || !IsActive(c.session) || c.session.reason.Resumed?
  {}

  // What it writes, if it writes, is the mark and nothing else.
  lemma TailWritesOnlyReason(c: Cell, i: nat, reply: Reply)
    requires i < |c.tasks| && c.tasks[i].StartTail?
    ensures var next := Next(c, Resume(i, reply)).session;
            next == c.session || next == c.session.(reason := Resumed)
  {}

  predicate LetsIn(c: Cell, e: Event)
  {
    (e.CallStart? || e.CallScan?) && Overtakes(c, e)
  }

  predicate LetsInAlong(c: Cell, events: seq<Event>)
    decreases |events|
  {
    events != [] && (LetsIn(c, events[0]) || LetsInAlong(Next(c, events[0]), events[1..]))
  }

  // Only a start or scan makes an idle session active.
  lemma StepActivates(c: Cell, e: Event)
    requires Inv(c)
    ensures IsActive(Next(c, e).session) ==>
              (IsActive(c.session) && Next(c, e).session.generation == c.session.generation) || LetsIn(c, e)
  {
    match e
    case Resume(i, reply) =>
      if i < |c.tasks| && c.tasks[i].Advance? && IsCurrent(c, c.tasks[i].generation) {
        OnlyLiveTask(c, i);
      }
    case _ =>
  }

  lemma {:induction false} ActiveSinceLetIn(c: Cell, events: seq<Event>)
    requires Inv(c) && !LetsInAlong(c, events)
    ensures IsActive(After(c, events).session) ==>
              IsActive(c.session) && After(c, events).session.generation == c.session.generation
    decreases |events|
  {
    if events != [] {
      hide Next, Inv, LetsIn;
      StepActivates(c, events[0]);
      StepKeepsInv(c, events[0]);
      ActiveSinceLetIn(Next(c, events[0]), events[1..]);
    }
  }

  // Over whole runs, from the step that lets the start in to the moment its rest
  // is resumed: the rest marks a session that is not its own exactly when the
  // start was a resumption, something has overtaken it, and the session then
  // active is not marked yet; and that takes another start or scan meanwhile.
  lemma OvertakenStartMarks(c: Cell, expected: Option<nat>, resumed: bool, between: seq<Event>, i: nat, reply: Reply)
    requires Inv(c) && Overtakes(c, CallStart(expected, resumed))
    requires var late := After(Next(c, CallStart(expected, resumed)), between);
             i < |late.tasks| && late.tasks[i] == StartTail(c.session.generation + 1, resumed)
    ensures var begun := Next(c, CallStart(expected, resumed));
            var late := After(begun, between);
            && (late.tasks[i].generation != late.session.generation <==> OvertakenAlong(begun, between))
            && (OvertakenAlong(begun, between) ==>
                  (Next(late, Resume(i, reply)).session != late.session
                   <==> resumed && IsActive(late.session) && !late.session.reason.Resumed?))
            && (OvertakenAlong(begun, between) && Next(late, Resume(i, reply)).session != late.session ==>
                  LetsInAlong(begun, between))
  {
    var begun := Next(c, CallStart(expected, resumed));
    var late := After(begun, between);
    StepKeepsInv(c, CallStart(expected, resumed));
    GenerationTellsOvertaken(begun, between);
    if OvertakenAlong(begun, between) {
      TailSparesLaterSession(late, i, reply);
      if !LetsInAlong(begun, between) {
        ActiveSinceLetIn(begun, between);
      }
    }
  }

  // It does happen: a start halted while its advance was in flight marks the
  // session of a later start as resumed.
  lemma OvertakenStartMarksLaterSession()
    ensures var events := [CallStart(None, true), CallHalt(UserStop), CallStart(None, false),
                           Resume(0, Throws), Resume(1, Throws)];
            var c := After(FRESH, events);
            IsActive(c.session) && c.session.generation == 3 && c.session.reason == Resumed
  {
    var c1 := Next(FRESH, CallStart(None, true));
    var c2 := Next(c1, CallHalt(UserStop));
    var c3 := Next(c2, CallStart(None, false));
    var c4 := Next(c3, Resume(0, Throws));
    assert c3.tasks == [Advance(1, AtAvailability, FromStart(true)), Advance(3, AtAvailability, FromStart(false))];
    assert c4.tasks == [Advance(3, AtAvailability, FromStart(false)), StartTail(1, true)];
    var c5 := Next(c4, Resume(1, Throws));
    var events := [CallStart(None, true), CallHalt(UserStop), CallStart(None, false), Resume(0, Throws), Resume(1, Throws)];
    assert events[1..][1..][1..][1..][1..] == [];
    assert After(c4, events[1..][1..][1..][1..]) == c5;
  }
}
