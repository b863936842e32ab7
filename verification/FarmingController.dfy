// The farming controller of one account as the object the server runs: fields
// updated in place, one method per call and per continuation after an await.
// Each method is one step of FarmingProtocol
// (apps/server/src/farming/controller.ts).
module FarmingController {
  import opened Results
  import opened FarmingProtocol

  class Controller {
    var generation: nat
    var timer: Option<nat>
    var phase: Phase
    var reason: Reason
    var applied: bool
    var activeAppIds: seq<nat>
    // Calls suspended at an await.
    var tasks: seq<Task>
    var shuttingDown: bool

    function State(): Cell
      reads this
    {
      Cell(Session(generation, timer, phase, reason, applied, activeAppIds), tasks, shuttingDown)
    }

    constructor ()
      ensures State() == FRESH && Inv(State())
    {
      generation, timer, phase, reason := 0, None, Stopped, NoReason;
      applied, activeAppIds, tasks, shuttingDown := false, [], [], false;
    }

    predicate Active()
      reads this
    {
      phase == Scanning || phase == Warming || phase == Farming
    }

    predicate Current(g: nat)
      reads this
    {
      !shuttingDown && generation == g
    }

    // Invalidates synchronously whatever is in flight.
    method Halt(why: Reason)
      requires Inv(State())
      modifies this
      ensures State() == Next(old(State()), CallHalt(why)) && Inv(State())
    {
      StepKeepsInv(State(), CallHalt(why));
      Invalidate(why);
    }

    method Invalidate(why: Reason)
      modifies this
      ensures State() == old(State()).(session := Halted(old(State()).session, why))
    {
      generation := generation + 1;
      timer := None;
      activeAppIds := [];
      if why == UserStop || Active() {
        phase := if why == UserStop then Stopped else Blocked;
        reason := if why == UserStop then NoReason else why;
      }
      applied := false;
    }

    method Start(expected: Option<nat>, resumed: bool)
      requires Inv(State())
      modifies this
      ensures State() == Next(old(State()), CallStart(expected, resumed)) && Inv(State())
    {
      StepKeepsInv(State(), CallStart(expected, resumed));
      if shuttingDown { return; }
      if expected.Some? && expected.value != generation { return; }
      if Active() { return; }
      generation := generation + 1;
      phase := Scanning;
      reason := NoReason;
      applied := false;
      tasks := tasks + [Advance(generation, AtAvailability, FromStart(resumed))];
    }

    method ScanBadges(expected: Option<nat>)
      requires Inv(State())
      modifies this
      ensures State() == Next(old(State()), CallScan(expected)) && Inv(State())
    {
      StepKeepsInv(State(), CallScan(expected));
      if shuttingDown { return; }
      if expected.Some? && expected.value != generation { return; }
      if Active() { return; }
      generation := generation + 1;
      phase := Scanning;
      reason := NoReason;
      tasks := tasks + [Scan(generation)];
    }

    // A set timer means that nothing is in flight: it is replaced by an advance.
    // Otherwise the advance in flight will meet the new settings on its own.
    method Reconfigure()
      requires Inv(State())
      modifies this
      ensures State() == Next(old(State()), CallReconfigure) && Inv(State())
    {
      StepKeepsInv(State(), CallReconfigure);
      if !Active() { return; }
      if timer.Some? {
        timer := None;
        tasks := tasks + [Advance(generation, AtAvailability, FromTick)];
      }
    }

    method Stop()
      requires Inv(State())
      modifies this
      ensures State() == Next(old(State()), CallStop) && Inv(State())
    {
      StepKeepsInv(State(), CallStop);
      Invalidate(UserStop);
      tasks := tasks + [Cleanup];
    }

    method BeginShutdown()
      requires Inv(State())
      modifies this
      ensures State() == Next(old(State()), CallBeginShutdown) && Inv(State())
    {
      StepKeepsInv(State(), CallBeginShutdown);
      shuttingDown := true;
      Invalidate(Shutdown);
    }

    method Initialize()
      requires Inv(State())
      modifies this
      ensures State() == Next(old(State()), CallInitialize) && Inv(State())
    {
      StepKeepsInv(State(), CallInitialize);
      shuttingDown := false;
    }

    method TimerExpires()
      requires Inv(State())
      modifies this
      ensures State() == Next(old(State()), TimerFires) && Inv(State())
    {
      StepKeepsInv(State(), TimerFires);
      if timer.Some? {
        var g := timer.value;
        timer := None;
        if Current(g) {
          tasks := tasks + [Advance(g, AtAvailability, FromTick)];
        }
      }
    }

    // The promise of one suspended call settles.
    method Continue(i: nat, reply: Reply)
      requires Inv(State()) && i < |tasks|
      modifies this
      ensures State() == Next(old(State()), Resume(i, reply)) && Inv(State())
    {
      StepKeepsInv(State(), Resume(i, reply));
      hide Inv, Finish, FinishWith, ResumeAdvance;
      match tasks[i]
      case Advance(g, at, origin) => ContinueAdvance(i, reply);
      case Scan(g) =>
        var current := Current(g);
        tasks := Finish(tasks, i);
        if current {
          if reply.Throws? {
            phase := Failed;
            reason := ScanFailed;
          } else {
            phase := Stopped;
          }
        }
      case StartTail(_, resumed) =>
        tasks := Finish(tasks, i);
        if Active() && resumed { reason := Resumed; }
      case Cleanup =>
        tasks := Finish(tasks, i);
    }

    method ContinueAdvance(i: nat, reply: Reply)
      requires Inv(State()) && i < |tasks| && tasks[i].Advance?
      modifies this
      ensures State() == ResumeAdvance(old(State()), i, reply) && Inv(State())
    {
      ResumeAdvanceKeepsInv(State(), i, reply);
      InvParts(State());
      assert TaskFits(tasks[i], State().session);
      hide Inv, Finish, FinishWith, Selected, Running, TasksFit;
      var task := tasks[i];
      if !Current(task.generation) {
        tasks := Finish(tasks, i);
        return;
      }
      if reply.Throws? {
        var wasApplied := applied;
        tasks := FinishWith(tasks, i, wasApplied);
        Invalidate(FarmingFailed);
        phase := Failed;
        return;
      }
      match task.at
      case AtAvailability =>
        if !reply.allowed {
          var wasApplied := applied;
          tasks := FinishWith(tasks, i, wasApplied);
          Invalidate(reply.refusal);
        } else if task.origin.FromStart? && reply.beginFirst {
          applied := true;
          tasks := tasks[i := task.(at := AtBegin)];
        } else if task.origin.FromStart? || reply.scanDue {
          tasks := tasks[i := task.(at := AtDiscover)];
        } else {
          UseChoice(i, reply.choice);
        }
      case AtBegin =>
        tasks := tasks[i := task.(at := AtDiscover)];
      case AtDiscover =>
        UseChoice(i, reply.choice);
      case AtApply(appIds, warmingUp) =>
        KeepRunning(i, appIds, warmingUp);
      case AtEnd =>
        tasks := Finish(tasks, i);
    }

    method UseChoice(i: nat, choice: Choice)
      requires Inv(State()) && i < |tasks| && tasks[i].Advance?
      requires IsCurrent(State(), tasks[i].generation) && !tasks[i].at.AtEnd?
      modifies this
      ensures State() == Selected(old(State()), i, choice) && Inv(State())
    {
      SelectedKeepsInv(State(), i, choice);
      hide Inv, Finish;
      if choice.appIds == [] {
        var wasApplied := applied;
        phase := Completed;
        reason := if choice.noneEligible then NoEligibleGames else NoReason;
        activeAppIds := [];
        if wasApplied {
          tasks := tasks[i := tasks[i].(at := AtEnd)];
        } else {
          tasks := Finish(tasks, i);
        }
      } else if choice.appIds != activeAppIds {
        applied := true;
        tasks := tasks[i := tasks[i].(at := AtApply(choice.appIds, choice.warmingUp))];
      } else {
        KeepRunning(i, choice.appIds, choice.warmingUp);
      }
    }

    method KeepRunning(i: nat, appIds: seq<nat>, warmingUp: bool)
      requires Inv(State()) && i < |tasks| && tasks[i].Advance? && appIds != []
      requires IsCurrent(State(), tasks[i].generation) && !tasks[i].at.AtEnd?
      modifies this
      ensures State() == Running(old(State()), i, appIds, warmingUp) && Inv(State())
    {
      SelectedKeepsInv(State(), i, Choice(appIds, warmingUp, false));
      hide Inv, Finish;
      applied := true;
      activeAppIds := appIds;
      phase := if warmingUp then Warming else Farming;
      timer := Some(tasks[i].generation);
      tasks := Finish(tasks, i);
    }
  }
}
