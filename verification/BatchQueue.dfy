// The queue of confirmed market batches: one job per account, its commands in order and at most once each.
module BatchQueue {
  import opened Results

  const PREVIEW_MS := 2 * 60 * 1000
  const DEADLINE_MS := 60 * 60 * 1000
  const RETENTION_MS := 60 * 60 * 1000
  const MAX_ENTRIES := 200
  const MAX_COMMANDS := 50

  datatype Kind = Sale | Cancel

  datatype ItemStatus = Queued | Running | Skipped | Failed | Cancelled | PendingConfirmation | Listed

  datatype JobStatus = Active | Waiting | Stopped | Completed

  // What one command came back with: an answer, or an error with the flags the queue looks at.
  datatype Outcome =
    | Answered(ok: bool, pendingConfirmation: bool)
    | Threw(notSubmitted: bool, stopBatch: bool, tooManyRequests: bool)

  // Where the run of a job stands: between two commands, in one of its two awaits, or over.
  datatype Phase =
    | Choosing(next: nat, submitted: bool)
    | Paused(index: nat)
    | Executing(index: nat)
    | Over

  // A job. `begun` is a history of the command indexes handed to Steam, in the order they began.
  datatype Job = Job(
    accountId: nat, actor: nat, kind: Kind, delaySeconds: nat, executable: seq<bool>, items: seq<ItemStatus>,
    completedCount: nat, status: JobStatus, stopRequested: bool, aborted: bool, deadline: int,
    nextActionAt: Option<int>, finishedAt: Option<int>, phase: Phase, begun: seq<nat>)

  datatype JobEvent =
    | WaitOver(ok: bool, at: int)
    | Replied(outcome: Outcome, at: int)
    | StopAsked

  predicate Settled(status: ItemStatus) {
    status != Queued && status != Running
  }

  function CountSettled(items: seq<ItemStatus>): nat {
    if items == [] then 0
    else CountSettled(items[..|items| - 1]) + (if Settled(items[|items| - 1]) then 1 else 0)
  }

  // The indexes below `n` whose command can be executed, in order.
  function Executables(executable: seq<bool>, n: nat): seq<nat>
    requires n <= |executable|
  {
    if n == 0 then []
    else Executables(executable, n - 1) + (if executable[n - 1] then [n - 1] else [])
  }

  // ---- One job ----

  predicate ShouldContinue(j: Job, now: int) {
    !j.stopRequested && !j.aborted && now < j.deadline
  }

  // The first executable command at or after `from`, or the number of commands.
  function NextExecutable(executable: seq<bool>, from: nat): (r: nat)
    requires from <= |executable|
    ensures from <= r <= |executable|
    ensures r < |executable| ==> executable[r]
    ensures forall k :: from <= k < r ==> !executable[k]
    decreases |executable| - from
  {
    if from < |executable| && !executable[from] then NextExecutable(executable, from + 1) else from
  }

  function StatusOf(outcome: Outcome, kind: Kind): (r: ItemStatus)
    ensures Settled(r)
  {
    match outcome
    case Answered(ok, pending) =>
      if !ok then Failed else if kind == Cancel then Cancelled else if pending then PendingConfirmation else Listed
    case Threw(notSubmitted, _, _) => if notSubmitted then Skipped else Failed
  }

  predicate WasSubmitted(outcome: Outcome) {
    outcome.Threw? ==> !outcome.notSubmitted
  }

  predicate EndsBatch(outcome: Outcome) {
    outcome.Threw? && (outcome.stopBatch || outcome.tooManyRequests)
  }

  function SettleRest(items: seq<ItemStatus>): (r: seq<ItemStatus>)
    ensures |r| == |items|
    ensures forall k :: 0 <= k < |items| ==> r[k] == if Settled(items[k]) then items[k] else Skipped
  {
    if items == [] then []
    else SettleRest(items[..|items| - 1]) + [if Settled(items[|items| - 1]) then items[|items| - 1] else Skipped]
  }

  // The job after the queue has finished it.
  function Finished(j: Job, now: int): Job {
    j.(items := SettleRest(j.items), completedCount := |j.items|, nextActionAt := None, finishedAt := Some(now),
       status := if j.stopRequested then Stopped else Completed, phase := Over)
  }

  function Begun(j: Job, index: nat): Job
    requires index < |j.items|
  {
    j.(items := j.items[index := Running], status := Active, nextActionAt := None, phase := Executing(index),
       begun := j.begun + [index])
  }

  // The job after it has chosen what comes next: the pause before a command, the command itself, or the end.
  ghost function Chosen(j: Job, now: int): Job
    requires JobInv(j) && j.phase.Choosing?
  {
    var index := NextExecutable(j.executable, j.phase.next);
    if index == |j.items| then Finished(j, now)
    else if !ShouldContinue(j, now) then Finished(j.(stopRequested := true), now)
    else if j.phase.submitted then
      j.(status := Waiting, nextActionAt := Some(now + j.delaySeconds * 1000), phase := Paused(index))
    else Begun(j, index)
  }

  ghost function AfterWait(j: Job, ok: bool, now: int): Job
    requires JobInv(j) && j.phase.Paused?
  {
    if !ok || !ShouldContinue(j, now) then Finished(j.(stopRequested := true), now) else Begun(j, j.phase.index)
  }

  // The job with the reply of its running command written down.
  ghost function Recorded(j: Job, outcome: Outcome): (r: Job)
    requires JobInv(j) && j.phase.Executing?
    ensures !r.stopRequested ==> JobInv(r)
  {
    var index := j.phase.index;
    CountUpdate(j.items, index, StatusOf(outcome, j.kind));
    j.(items := j.items[index := StatusOf(outcome, j.kind)], completedCount := j.completedCount + 1,
       stopRequested := j.stopRequested || EndsBatch(outcome), phase := Choosing(index + 1, WasSubmitted(outcome)))
  }

  ghost function AfterReply(j: Job, outcome: Outcome, now: int): Job
    requires JobInv(j) && j.phase.Executing?
  {
    var settled := Recorded(j, outcome);
    if settled.stopRequested then Finished(settled, now) else Chosen(settled, now)
  }

  function AfterStop(j: Job): Job {
    if j.finishedAt.None? then j.(stopRequested := true, aborted := true) else j
  }

  // A job as `confirm` builds it, before its run has looked at the first command.
  function NewJob(accountId: nat, actor: nat, kind: Kind, delaySeconds: nat, executable: seq<bool>, now: int): Job {
    var items := seq(|executable|, k requires 0 <= k < |executable| => if executable[k] then Queued else Skipped);
    Job(accountId, actor, kind, delaySeconds, executable, items, CountSettled(items), Active, false, false,
        now + DEADLINE_MS, None, None, Choosing(0, false), [])
  }

  predicate RanPrefix(j: Job, n: nat)
    requires |j.items| == |j.executable|
  {
    n <= |j.items| && j.begun == Executables(j.executable, n) && forall k :: n <= k < |j.items| ==> j.items[k] == Skipped
  }

  predicate SettledBelow(j: Job, n: nat)
    requires n <= |j.items|
  {
    forall k :: 0 <= k < n ==> Settled(j.items[k])
  }

  predicate QueuedFrom(j: Job, n: nat)
    requires |j.items| == |j.executable|
  {
    forall k :: n <= k < |j.items| ==> j.items[k] == if j.executable[k] then Queued else Skipped
  }

  // What the phase says about the items, the history and the end of the job.
  ghost predicate Progress(j: Job)
    requires |j.items| == |j.executable|
  {
    match j.phase
    case Choosing(i, _) =>
      i <= |j.items| && SettledBelow(j, i) && QueuedFrom(j, i) && j.begun == Executables(j.executable, i)
      && j.finishedAt.None? && !j.stopRequested && j.status == Active
    case Paused(i) =>
      i < |j.items| && j.executable[i] && SettledBelow(j, i) && QueuedFrom(j, i)
      && j.begun == Executables(j.executable, i) && j.finishedAt.None? && j.status == Waiting && j.nextActionAt.Some?
    case Executing(i) =>
      i < |j.items| && j.executable[i] && SettledBelow(j, i) && j.items[i] == Running && QueuedFrom(j, i + 1)
      && j.begun == Executables(j.executable, i + 1) && j.finishedAt.None? && j.status == Active && j.nextActionAt.None?
    case Over =>
      j.finishedAt.Some? && SettledBelow(j, |j.items|) && j.status == (if j.stopRequested then Stopped else Completed)
      && (exists n: nat :: RanPrefix(j, n))
      && (!j.stopRequested ==> j.begun == Executables(j.executable, |j.items|))
  }

  ghost predicate JobInv(j: Job) {
    && |j.items| == |j.executable|
    && j.completedCount == CountSettled(j.items)
    && (j.aborted ==> j.stopRequested)
    && Progress(j)
  }

  lemma {:induction false} CountAll(items: seq<ItemStatus>)
    requires forall k :: 0 <= k < |items| ==> Settled(items[k])
    ensures CountSettled(items) == |items|
  {
    if items != [] {
      CountAll(items[..|items| - 1]);
    }
  }

  // Changing one item changes the count by that item alone.
  lemma {:induction false} CountUpdate(items: seq<ItemStatus>, index: nat, status: ItemStatus)
    requires index < |items|
    ensures CountSettled(items[index := status]) + (if Settled(items[index]) then 1 else 0)
         == CountSettled(items) + (if Settled(status) then 1 else 0)
  {
    var last := |items| - 1;
    if index < last {
      CountUpdate(items[..last], index, status);
      assert items[index := status][..last] == items[..last][index := status];
    } else {
      assert items[index := status][..last] == items[..last];
    }
  }

  lemma {:induction false} SkipsAddNothing(executable: seq<bool>, low: nat, high: nat)
    requires low <= high <= |executable|
    requires forall k :: low <= k < high ==> !executable[k]
    ensures Executables(executable, low) == Executables(executable, high)
    decreases high
  {
    if low < high {
      SkipsAddNothing(executable, low, high - 1);
    }
  }

  lemma FinishedKeepsInv(j: Job, n: nat, now: int)
    requires |j.items| == |j.executable| && n <= |j.items|
    requires j.begun == Executables(j.executable, n) && QueuedFrom(j, n)
    requires j.aborted ==> j.stopRequested
    requires !j.stopRequested ==> j.begun == Executables(j.executable, |j.items|)
    ensures JobInv(Finished(j, now))
  {
    CountAll(SettleRest(j.items));
    assert RanPrefix(Finished(j, now), n);
  }

  lemma ChosenKeepsInv(j: Job, now: int)
    requires JobInv(j) && j.phase.Choosing?
    ensures JobInv(Chosen(j, now))
    ensures !Chosen(j, now).phase.Choosing?
  {
    var index := NextExecutable(j.executable, j.phase.next);
    SkipsAddNothing(j.executable, j.phase.next, index);
    if index == |j.items| {
      FinishedKeepsInv(j, index, now);
    } else if !ShouldContinue(j, now) {
      FinishedKeepsInv(j.(stopRequested := true), index, now);
    } else if !j.phase.submitted {
      CountUpdate(j.items, index, Running);
    }
  }

  lemma AfterWaitKeepsInv(j: Job, ok: bool, now: int)
    requires JobInv(j) && j.phase.Paused?
    ensures JobInv(AfterWait(j, ok, now))
    ensures !AfterWait(j, ok, now).phase.Choosing?
  {
    if !ok || !ShouldContinue(j, now) {
      FinishedKeepsInv(j.(stopRequested := true), j.phase.index, now);
    } else {
      CountUpdate(j.items, j.phase.index, Running);
    }
  }

  lemma AfterReplyKeepsInv(j: Job, outcome: Outcome, now: int)
    requires JobInv(j) && j.phase.Executing?
    ensures JobInv(AfterReply(j, outcome, now))
    ensures !AfterReply(j, outcome, now).phase.Choosing?
  {
    hide Chosen, CountSettled, Executables;
    var settled := Recorded(j, outcome);
    if settled.stopRequested {
      assert JobInv(Finished(settled, now)) by {
        FinishedKeepsInv(settled, j.phase.index + 1, now);
      }
    } else {
      ChosenKeepsInv(settled, now);
    }
  }

  // A job seen from outside is never between two commands.
  ghost predicate AtRest(j: Job) {
    JobInv(j) && !j.phase.Choosing?
  }

  // The job after one event; an event that its phase is not waiting for does not concern it.
  ghost function After(j: Job, e: JobEvent): Job
    requires AtRest(j)
  {
    match e
    case WaitOver(ok, at) => if j.phase.Paused? then AfterWait(j, ok, at) else j
    case Replied(outcome, at) => if j.phase.Executing? then AfterReply(j, outcome, at) else j
    case StopAsked => AfterStop(j)
  }

  lemma StopKeepsInv(j: Job)
    requires AtRest(j)
    ensures AtRest(AfterStop(j))
  {
    hide CountSettled, Executables;
    var r := AfterStop(j);
    match j.phase
    case Paused(i) => assert SettledBelow(r, i) && QueuedFrom(r, i);
    case Executing(i) => assert SettledBelow(r, i) && QueuedFrom(r, i + 1);
    case Over => assert r == j;
  }

  lemma EventKeepsInv(j: Job, e: JobEvent)
    requires AtRest(j)
    ensures AtRest(After(j, e))
  {
    hide JobInv, AfterWait, AfterReply, AfterStop;
    match e {
      case WaitOver(ok, at) =>
        if j.phase.Paused? {
          AfterWaitKeepsInv(j, ok, at);
          assert AtRest(After(j, e));
        } else {
          assert AtRest(After(j, e));
        }
      case Replied(outcome, at) =>
        if j.phase.Executing? {
          AfterReplyKeepsInv(j, outcome, at);
          assert AtRest(After(j, e));
        } else {
          assert AtRest(After(j, e));
        }
      case StopAsked =>
        StopKeepsInv(j);
        assert AtRest(After(j, e));
    }
  }

  lemma EventKeepsOwner(j: Job, e: JobEvent)
    requires AtRest(j)
    ensures After(j, e).accountId == j.accountId
  {
    hide CountSettled, Executables;
  }

  lemma NewJobInv(accountId: nat, actor: nat, kind: Kind, delaySeconds: nat, executable: seq<bool>, now: int)
    ensures JobInv(NewJob(accountId, actor, kind, delaySeconds, executable, now))
  {
  }

  ghost function RunOf(j: Job, events: seq<JobEvent>): (r: Job)
    requires AtRest(j)
    ensures AtRest(r)
    decreases |events|
  {
    if events == [] then j
    else
      EventKeepsInv(j, events[0]);
      RunOf(After(j, events[0]), events[1..])
  }

  lemma {:induction false} ExecutablesAscend(executable: seq<bool>, n: nat)
    requires n <= |executable|
    ensures forall b :: b in Executables(executable, n) ==> b < n && executable[b]
    ensures forall x, y :: 0 <= x < y < |Executables(executable, n)| ==>
      Executables(executable, n)[x] < Executables(executable, n)[y]
    ensures forall b :: 0 <= b < n && executable[b] ==> b in Executables(executable, n)
  {
    if n > 0 {
      ExecutablesAscend(executable, n - 1);
      var shorter := Executables(executable, n - 1);
      var longer := Executables(executable, n);
      assert forall b :: b in longer <==> b in shorter || (executable[n - 1] && b == n - 1);
      assert forall x :: 0 <= x < |shorter| ==> shorter[x] in shorter;
    }
  }

  lemma {:induction false} ExecutablesPrefix(executable: seq<bool>, low: nat, high: nat)
    requires low <= high <= |executable|
    ensures Executables(executable, low) <= Executables(executable, high)
    decreases high
  {
    if low < high {
      ExecutablesPrefix(executable, low, high - 1);
    }
  }

  // Whatever the results, errors and stops: the commands begun are the executable ones in order, each at most once and
  // none left out below the last, the counter equals the number of settled items, and an ended job has none unsettled
  // and, unless it was stopped, none unbegun.
  lemma RunsInOrder(j: Job, events: seq<JobEvent>)
    requires AtRest(j)
    ensures var r := RunOf(j, events); r.completedCount == CountSettled(r.items)
    ensures var r := RunOf(j, events); forall x, y :: 0 <= x < y < |r.begun| ==> r.begun[x] < r.begun[y]
    ensures var r := RunOf(j, events); r.begun <= Executables(r.executable, |r.executable|)
    ensures var r := RunOf(j, events); forall b :: b in r.begun ==> b < |r.executable| && r.executable[b]
    ensures var r := RunOf(j, events); r.phase == Over ==> r.completedCount == |r.items|
    ensures var r := RunOf(j, events); r.phase == Over && r.status == Completed ==> forall b :: 0 <= b < |r.executable| && r.executable[b] ==> b in r.begun
  {
    var r := RunOf(j, events);
    hide RunOf;
    var n := match r.phase
      case Choosing(i, _) => i
      case Paused(i) => i
      case Executing(i) => i + 1
      case Over => (var n: nat :| RanPrefix(r, n); n);
    ExecutablesAscend(r.executable, n);
    ExecutablesAscend(r.executable, |r.items|);
    ExecutablesPrefix(r.executable, n, |r.items|);
    if r.phase == Over {
      CountAll(r.items);
    }
  }

  // ---- What the items tell ----

  // What an item's status says about its command: it is listed, waiting for a confirmation or cancelled only after Steam
  // said so, skipped when nothing was submitted, and anything else that went wrong is a failure.
  lemma StatusTells(outcome: Outcome, kind: Kind)
    ensures StatusOf(outcome, kind) == Listed <==> outcome == Answered(true, false) && kind == Sale
    ensures StatusOf(outcome, kind) == PendingConfirmation <==> outcome == Answered(true, true) && kind == Sale
    ensures StatusOf(outcome, kind) == Cancelled <==> outcome.Answered? && outcome.ok && kind == Cancel
    ensures StatusOf(outcome, kind) == Skipped <==> outcome.Threw? && outcome.notSubmitted
    ensures StatusOf(outcome, kind) == Failed <==> (if outcome.Answered? then !outcome.ok else !outcome.notSubmitted)
  {
  }

  // The replies that came back along a run, by command.
  ghost function Replies(j: Job, events: seq<JobEvent>): map<nat, Outcome>
    requires AtRest(j)
    decreases |events|
  {
    if events == [] then map[]
    else
      EventKeepsInv(j, events[0]);
      var later := Replies(After(j, events[0]), events[1..]);
      if events[0].Replied? && j.phase.Executing? then later[j.phase.index := events[0].outcome] else later
  }

  // A settled item stays as it is; another one is settled by the reply to its command or skipped.
  predicate ItemAfter(before: ItemStatus, after: ItemStatus, replied: bool, status: ItemStatus) {
    if Settled(before) then after == before && !replied
    else if replied then after == status
    else after == Queued || after == Running || after == Skipped
  }

  lemma StepSettles(j: Job, e: JobEvent)
    requires AtRest(j)
    ensures var r := After(j, e); |r.items| == |j.items| && r.kind == j.kind
    ensures var r := After(j, e); forall k :: 0 <= k < |j.items| ==>
      var replied := e.Replied? && j.phase == Executing(k);
      ItemAfter(j.items[k], r.items[k], replied, if replied then StatusOf(e.outcome, j.kind) else Skipped)
  {
    hide CountSettled, Executables, SettleRest;
    if e.Replied? && j.phase.Executing? {
      ReplySettles(j, e.outcome, e.at);
    }
  }

  lemma ReplySettles(j: Job, outcome: Outcome, at: int)
    requires AtRest(j) && j.phase.Executing?
    ensures var r := AfterReply(j, outcome, at); |r.items| == |j.items| && r.kind == j.kind
    ensures var r := AfterReply(j, outcome, at); forall k :: 0 <= k < |j.items| ==>
      ItemAfter(j.items[k], r.items[k], k == j.phase.index, StatusOf(outcome, j.kind))
  {
    hide CountSettled, Executables, SettleRest, StatusOf;
  }

  // Over every run each item shows what its own command came back with, and no item shows an outcome that never came.
  lemma {:induction false} ItemsTellReplies(j: Job, events: seq<JobEvent>)
    requires AtRest(j)
    ensures var r := RunOf(j, events); |r.items| == |j.items| && r.kind == j.kind
    ensures forall k :: k in Replies(j, events) ==> k < |j.items|
    ensures var r, replies := RunOf(j, events), Replies(j, events); forall k :: 0 <= k < |j.items| ==>
      ItemAfter(j.items[k], r.items[k], k in replies, if k in replies then StatusOf(replies[k], j.kind) else Skipped)
    decreases |events|
  {
    if events != [] {
      var next := After(j, events[0]);
      EventKeepsInv(j, events[0]);
      StepSettles(j, events[0]);
      ItemsTellReplies(next, events[1..]);
      if j.phase.Executing? { assert j.phase.index < |j.items|; }
      hide After, JobInv;
    }
  }

  // ---- When a job stops early ----

  // An error that ends the batch, or a rate limit, is the last thing a batch does.
  lemma EndingReplyStops(j: Job, outcome: Outcome, at: int)
    requires AtRest(j) && j.phase.Executing? && outcome.Threw? && (outcome.stopBatch || outcome.tooManyRequests)
    ensures var r := After(j, Replied(outcome, at)); r.phase.Over? && r.status == Stopped && r.begun == j.begun && r.finishedAt == Some(at)
  {
    hide Executables, Chosen;
  }

  // Nothing in the event asks for an end: no stop, no broken wait, no ending error, and the hour is not over.
  predicate Harmless(j: Job, e: JobEvent) {
    match e
    case WaitOver(ok, at) => ok && at < j.deadline
    case Replied(outcome, at) => at < j.deadline && (outcome.Threw? ==> !outcome.stopBatch && !outcome.tooManyRequests)
    case StopAsked => false
  }

  lemma HarmlessGoesOn(j: Job, e: JobEvent)
    requires AtRest(j) && !j.stopRequested && Harmless(j, e)
    ensures !After(j, e).stopRequested && After(j, e).deadline == j.deadline
  {
    hide CountSettled, Executables, SettleRest;
  }

  // A job stops early for no other reason: undisturbed it is never stopped, and when it is over every command that can
  // be executed has been begun. That it is over after at most two awaits per command is AwaitsRunOut.
  lemma {:induction false} UndisturbedCompletes(j: Job, events: seq<JobEvent>)
    requires AtRest(j) && !j.stopRequested
    requires forall k :: 0 <= k < |events| ==> Harmless(j, events[k])
    ensures var r := RunOf(j, events); !r.stopRequested && (r.phase.Over? ==>
      r.status == Completed && r.begun == Executables(r.executable, |r.executable|))
    decreases |events|
  {
    if events != [] {
      var next := After(j, events[0]);
      EventKeepsInv(j, events[0]);
      HarmlessGoesOn(j, events[0]);
      forall k | 0 <= k < |events[1..]|
        ensures Harmless(next, events[1..][k])
      {
        assert events[1..][k] == events[k + 1];
      }
      hide After, JobInv;
      UndisturbedCompletes(next, events[1..]);
    }
  }

  predicate Late(j: Job, e: JobEvent) {
    j.stopRequested || match e case WaitOver(_, at) => j.deadline <= at case Replied(_, at) => j.deadline <= at case StopAsked => true
  }

  lemma LateEventBeginsNothing(j: Job, e: JobEvent)
    requires AtRest(j) && Late(j, e)
    ensures After(j, e).begun == j.begun && After(j, e).deadline == j.deadline
    ensures j.stopRequested ==> After(j, e).stopRequested
  {
  }

  // Once a stop was asked for, or from the deadline on, no command begins, whatever still comes back.
  lemma {:induction false} NothingBeginsTooLate(j: Job, events: seq<JobEvent>)
    requires AtRest(j)
    requires forall k :: 0 <= k < |events| ==> Late(j, events[k])
    ensures RunOf(j, events).begun == j.begun
    decreases |events|
  {
    if events != [] {
      var next := After(j, events[0]);
      EventKeepsInv(j, events[0]);
      LateEventBeginsNothing(j, events[0]);
      var rest := events[1..];
      forall k | 0 <= k < |rest|
        ensures Late(next, rest[k])
      {
        assert rest[k] == events[k + 1];
      }
      NothingBeginsTooLate(next, rest);
    }
  }

  // A stop of a job under way is final: nothing more is begun, whatever comes back, and it ends as stopped.
  lemma StopIsFinal(j: Job, events: seq<JobEvent>)
    requires AtRest(j) && j.finishedAt.None?
    ensures AtRest(After(j, StopAsked))
    ensures var r := RunOf(After(j, StopAsked), events); r.begun == j.begun && r.stopRequested && (r.phase.Over? ==> r.status == Stopped)
  {
    EventKeepsInv(j, StopAsked);
    NothingBeginsTooLate(After(j, StopAsked), events);
    StopLasts(After(j, StopAsked), events);
  }

  lemma {:induction false} StopLasts(j: Job, events: seq<JobEvent>)
    requires AtRest(j) && j.stopRequested
    ensures RunOf(j, events).stopRequested
    decreases |events|
  {
    if events != [] {
      EventKeepsInv(j, events[0]);
      LateEventBeginsNothing(j, events[0]);
      hide After, JobInv;
      StopLasts(After(j, events[0]), events[1..]);
    }
  }

  // The awaits a job still has before it: two for each command not yet reached.
  function Remaining(j: Job): nat
    requires j.phase.Paused? || j.phase.Executing? ==> j.phase.index < |j.items|
  {
    match j.phase
    case Choosing(i, _) => 2 * |j.items| + 2
    case Paused(i) => 2 * (|j.items| - i)
    case Executing(i) => 2 * (|j.items| - i) - 1
    case Over => 0
  }

  // Every await that ends brings the end of the job nearer, so a batch of n commands is over after at most 2n awaits.
  lemma AwaitsRunOut(j: Job, e: JobEvent)
    requires AtRest(j)
    ensures AtRest(After(j, e))
    ensures Remaining(After(j, e)) <= Remaining(j) <= 2 * |j.items|
    ensures (e.WaitOver? && j.phase.Paused?) || (e.Replied? && j.phase.Executing?) ==> Remaining(After(j, e)) < Remaining(j)
  {
    EventKeepsInv(j, e);
  }

  // After a command that reached Steam, the next one begins only when a pause has run its full length.
  lemma SubmissionsArePaced(j: Job, outcome: Outcome, at: int)
    requires AtRest(j) && j.phase.Executing? && WasSubmitted(outcome)
    ensures var r := AfterReply(j, outcome, at); r.phase.Over? || (r.phase.Paused? && r.nextActionAt == Some(at + j.delaySeconds * 1000))
    ensures AfterReply(j, outcome, at).begun == j.begun
  {
  }

  // One that did not costs no pause: the next command begins at once, if there is one and nothing asks for an end.
  lemma UnsubmittedCostsNoPause(j: Job, outcome: Outcome, at: int)
    requires AtRest(j) && j.phase.Executing? && !j.stopRequested && at < j.deadline
    requires outcome.Threw? && outcome.notSubmitted && !outcome.stopBatch && !outcome.tooManyRequests
    ensures var r, next := AfterReply(j, outcome, at), NextExecutable(j.executable, j.phase.index + 1);
      if next == |j.items| then r.phase.Over? && r.status == Completed
      else r.phase == Executing(next) && r.begun == j.begun + [next]
  {
    hide CountSettled, Executables, SettleRest;
  }

  // ---- All jobs ----

  predicate Unfinished(jobs: map<nat, Job>, id: nat) {
    id in jobs && jobs[id].finishedAt.None?
  }

  // The active map names exactly the unfinished jobs, under their own accounts.
  ghost predicate Consistent(jobs: map<nat, Job>, active: map<nat, nat>) {
    && (forall id :: id in jobs ==> JobInv(jobs[id]))
    && (forall id :: Unfinished(jobs, id) ==> jobs[id].accountId in active && active[jobs[id].accountId] == id)
    && (forall a :: a in active ==> Unfinished(jobs, active[a]) && jobs[active[a]].accountId == a)
  }

  lemma OneUnfinishedJobEach(jobs: map<nat, Job>, active: map<nat, nat>, one: nat, other: nat)
    requires Consistent(jobs, active)
    requires Unfinished(jobs, one) && Unfinished(jobs, other)
    ensures jobs[one].accountId == jobs[other].accountId <==> one == other
  {
  }

  // The map of active jobs after job `id` became `j`.
  function ActiveAfter(active: map<nat, nat>, id: nat, j: Job): map<nat, nat> {
    if j.finishedAt.Some? && j.accountId in active && active[j.accountId] == id then active - {j.accountId} else active
  }

  // A step of one job's run keeps the two maps in agreement.
  lemma JobStepKeepsConsistent(jobs: map<nat, Job>, active: map<nat, nat>, id: nat, j: Job)
    requires Consistent(jobs, active) && Unfinished(jobs, id)
    requires JobInv(j) && j.accountId == jobs[id].accountId
    ensures Consistent(jobs[id := j], ActiveAfter(active, id, j))
  {
    hide JobInv;
  }

  // A new job under an idle account keeps them in agreement.
  lemma NewJobKeepsConsistent(jobs: map<nat, Job>, active: map<nat, nat>, id: nat, j: Job)
    requires Consistent(jobs, active) && id !in jobs
    requires j.accountId !in active && JobInv(j) && j.finishedAt.None?
    ensures Consistent(jobs[id := j], active[j.accountId := id])
  {
    hide JobInv;
  }

  // ---- The queue ----

  datatype Command = Command(assetId: nat, executable: bool)

  datatype Prepared =
    Prepared(accountId: nat, actor: nat, kind: Kind, commands: seq<Command>, delaySeconds: nat, expiresAt: int)

  datatype QueueError = AlreadyRunning | TooManyBatches | BadSelection | InvalidPreview | Expired | NothingEligible | NotFound

  function ExecutableOf(commands: seq<Command>): (r: seq<bool>)
    ensures |r| == |commands| && forall k :: 0 <= k < |commands| ==> r[k] == commands[k].executable
  {
    seq(|commands|, k requires 0 <= k < |commands| => commands[k].executable)
  }

  function FirstJob(entry: Prepared, now: int): Job {
    NewJob(entry.accountId, entry.actor, entry.kind, entry.delaySeconds, ExecutableOf(entry.commands), now)
  }

  // The job once its run has got to its first await.
  ghost function StartedJob(entry: Prepared, now: int): Job {
    NewJobInv(entry.accountId, entry.actor, entry.kind, entry.delaySeconds, ExecutableOf(entry.commands), now);
    Chosen(FirstJob(entry, now), now)
  }

  predicate SomeExecutable(commands: seq<Command>) {
    exists k :: 0 <= k < |commands| && commands[k].executable
  }

  predicate Owns(previews: map<nat, Prepared>, token: nat, accountId: nat, actor: nat) {
    token in previews && previews[token].accountId == accountId && previews[token].actor == actor
  }

  predicate Confirmable(entry: Prepared, now: int) {
    now < entry.expiresAt && SomeExecutable(entry.commands)
  }

  function LivePreviews(previews: map<nat, Prepared>, now: int): map<nat, Prepared> {
    map t | t in previews && now < previews[t].expiresAt :: previews[t]
  }

  predicate Retained(j: Job, now: int) {
    j.finishedAt.Some? ==> now - j.finishedAt.value < RETENTION_MS
  }

  function RetainedJobs(jobs: map<nat, Job>, now: int): map<nat, Job> {
    map id | id in jobs && Retained(jobs[id], now) :: jobs[id]
  }

  function WithoutOwner(previews: map<nat, Prepared>, accountId: nat, actor: nat): map<nat, Prepared> {
    map t | t in previews && !(previews[t].accountId == accountId && previews[t].actor == actor) :: previews[t]
  }

  function WithoutAccount(previews: map<nat, Prepared>, accountId: nat): map<nat, Prepared> {
    map t | t in previews && previews[t].accountId != accountId :: previews[t]
  }

  // Pruning removes no job that still runs.
  lemma RetainedKeepsConsistent(jobs: map<nat, Job>, active: map<nat, nat>, now: int)
    requires Consistent(jobs, active)
    ensures Consistent(RetainedJobs(jobs, now), active)
    ensures forall id :: Unfinished(jobs, id) ==> Unfinished(RetainedJobs(jobs, now), id)
  {
    hide JobInv;
    var kept := RetainedJobs(jobs, now);
    forall id | Unfinished(jobs, id)
      ensures Unfinished(kept, id)
    {
    }
  }

  // The jobs with every unfinished one of the given accounts stopped.
  function StopAll(jobs: map<nat, Job>, accounts: set<nat>): map<nat, Job> {
    map id | id in jobs :: if jobs[id].accountId in accounts then AfterStop(jobs[id]) else jobs[id]
  }

  lemma StopNobody(jobs: map<nat, Job>)
    ensures StopAll(jobs, {}) == jobs
  {
  }

  // The jobs with the one an account has under way stopped.
  function StopOne(jobs: map<nat, Job>, active: map<nat, nat>, accountId: nat): map<nat, Job> {
    if accountId in active && active[accountId] in jobs then
      jobs[active[accountId] := AfterStop(jobs[active[accountId]])]
    else jobs
  }

  lemma StopOneMore(jobs: map<nat, Job>, active: map<nat, nat>, done: set<nat>, a: nat)
    requires Consistent(StopAll(jobs, done), active) && a in active && a !in done
    ensures StopAll(jobs, done + {a}) == StopOne(StopAll(jobs, done), active, a)
  {
    hide JobInv;
    var now := StopAll(jobs, done);
    var next := StopAll(jobs, done + {a});
    forall id | id in jobs
      ensures next[id] == now[active[a] := AfterStop(now[active[a]])][id]
    {
      assert Unfinished(now, active[a]);
      if jobs[id].accountId == a && id != active[a] {
        assert !Unfinished(now, id);
      }
    }
  }

  lemma StoppedEverywhere(jobs: map<nat, Job>, active: map<nat, nat>)
    requires Consistent(StopAll(jobs, active.Keys), active)
    ensures forall id :: Unfinished(StopAll(jobs, active.Keys), id) ==>
      StopAll(jobs, active.Keys)[id].stopRequested && StopAll(jobs, active.Keys)[id].aborted
  {
    hide JobInv;
  }

  class MarketBatchQueue {
    var previews: map<nat, Prepared>
    var jobs: map<nat, Job>
    var active: map<nat, nat>
    // Random identifiers never repeat; a counter stands for them.
    var issued: nat

    ghost predicate Valid()
      reads this
    {
      && Consistent(jobs, active)
      && (forall id :: id in jobs ==> id < issued && !jobs[id].phase.Choosing?)
      && (forall t :: t in previews ==> t < issued && 1 <= |previews[t].commands| <= MAX_COMMANDS)
      && |previews| <= MAX_ENTRIES && |jobs| <= MAX_ENTRIES
    }

    constructor ()
      ensures Valid() && previews == map[] && jobs == map[] && active == map[]
    {
      previews, jobs, active, issued := map[], map[], map[], 0;
    }

    method DropExpiredPreviews(now: int)
      modifies `previews
      ensures previews == LivePreviews(old(previews), now)
    {
      var tokens := previews.Keys;
      while tokens != {}
        invariant tokens <= previews.Keys <= old(previews).Keys
        invariant forall t :: t in previews ==> previews[t] == old(previews)[t]
        invariant forall t :: t in old(previews) && t !in tokens ==> (t in previews <==> now < old(previews)[t].expiresAt)
        decreases tokens
      {
        var t :| t in tokens;
        tokens := tokens - {t};
        if previews[t].expiresAt <= now {
          previews := previews - {t};
        }
      }
    }

    method DropOldJobs(now: int)
      modifies `jobs
      ensures jobs == RetainedJobs(old(jobs), now)
    {
      var ids := jobs.Keys;
      while ids != {}
        invariant ids <= jobs.Keys <= old(jobs).Keys
        invariant forall id :: id in jobs ==> jobs[id] == old(jobs)[id]
        invariant forall id :: id in old(jobs) && id !in ids ==> (id in jobs <==> Retained(old(jobs)[id], now))
        decreases ids
      {
        var id :| id in ids;
        ids := ids - {id};
        if jobs[id].finishedAt.Some? && now - jobs[id].finishedAt.value >= RETENTION_MS {
          jobs := jobs - {id};
        }
      }
    }

    method Prune(now: int) returns (r: Result<bool, QueueError>)
      requires Valid()
      modifies `previews, `jobs
      ensures Valid()
      ensures previews == LivePreviews(old(previews), now) && jobs == RetainedJobs(old(jobs), now)
      ensures r == if |previews| >= MAX_ENTRIES || |jobs| >= MAX_ENTRIES then Err(TooManyBatches) else Ok(true)
    {
      hide JobInv;
      DropExpiredPreviews(now);
      DropOldJobs(now);
      RetainedKeepsConsistent(old(jobs), active, now);
      SubmapIsSmaller(previews, old(previews));
      SubmapIsSmaller(jobs, old(jobs));
      r := if |previews| >= MAX_ENTRIES || |jobs| >= MAX_ENTRIES then Err(TooManyBatches) else Ok(true);
    }

    // Prepares a batch for review; an owner keeps only the newest preview of an account.
    method Create(accountId: nat, actor: nat, kind: Kind, commands: seq<Command>, delaySeconds: nat, now: int)
      returns (r: Result<nat, QueueError>)
      requires Valid()
      modifies this
      ensures Valid() && active == old(active)
      ensures r.Err? && r.error == AlreadyRunning <==> accountId in active
      ensures accountId in active ==> previews == old(previews) && jobs == old(jobs)
      ensures accountId !in active ==> jobs == RetainedJobs(old(jobs), now)
      ensures accountId !in active ==> (r.Ok? <==>
        |LivePreviews(old(previews), now)| < MAX_ENTRIES && |jobs| < MAX_ENTRIES && 1 <= |commands| <= MAX_COMMANDS)
      ensures accountId !in active && r.Err? ==> previews == LivePreviews(old(previews), now)
      ensures r.Ok? ==> r.value !in old(previews)
      ensures r.Ok? ==> previews == WithoutOwner(LivePreviews(old(previews), now), accountId, actor)[r.value := Prepared(accountId, actor, kind, commands, delaySeconds, now + PREVIEW_MS)]
    {
      hide JobInv, Consistent;
      if accountId in active {
        return Err(AlreadyRunning);
      }
      var pruned := Prune(now);
      if pruned.Err? {
        return Err(pruned.error);
      }
      if |commands| == 0 || |commands| > MAX_COMMANDS {
        return Err(BadSelection);
      }
      ghost var live := previews;
      previews := WithoutOwner(previews, accountId, actor);
      SubmapIsSmaller(previews, live);
      previews := previews[issued := Prepared(accountId, actor, kind, commands, delaySeconds, now + PREVIEW_MS)];
      r := Ok(issued);
      issued := issued + 1;
    }

    // Consumes a preview and starts its job, which runs up to its first await.
    method Confirm(accountId: nat, actor: nat, token: nat, now: int) returns (r: Result<nat, QueueError>)
      requires Valid()
      modifies this
      ensures Valid()
      ensures r.Ok? <==>
        Owns(old(previews), token, accountId, actor) && Confirmable(old(previews)[token], now) && accountId !in old(active)
        && |LivePreviews(old(previews) - {token}, now)| < MAX_ENTRIES && |RetainedJobs(old(jobs), now)| < MAX_ENTRIES
      // Its owner uses a token up at the first try, whatever becomes of it; nobody else can.
      ensures Owns(old(previews), token, accountId, actor) ==> token !in previews
      ensures r == Err(InvalidPreview) <==> !Owns(old(previews), token, accountId, actor)
      ensures r == Err(InvalidPreview) ==> previews == old(previews) && jobs == old(jobs)
      ensures r.Err? ==> active == old(active) && (jobs == old(jobs) || jobs == RetainedJobs(old(jobs), now))
      ensures r.Ok? ==> r.value !in old(jobs)
      ensures r.Ok? ==> jobs == RetainedJobs(old(jobs), now)[r.value := StartedJob(old(previews)[token], now)]
      ensures r.Ok? ==> active == old(active)[accountId := r.value]
    {
      hide JobInv, Consistent, StartedJob, Unfinished, RetainedJobs, Confirmable, SomeExecutable;
      if !Owns(previews, token, accountId, actor) {
        return Err(InvalidPreview);
      }
      var entry := previews[token];
      UseUp(token);
      r := StartConfirmed(entry, now);
    }

    method UseUp(token: nat)
      requires Valid()
      modifies `previews
      ensures Valid() && previews == old(previews) - {token}
    {
      hide JobInv, Consistent;
      previews := previews - {token};
      SubmapIsSmaller(previews, old(previews));
    }

    // What is left to check once the token is used up, and the start.
    method StartConfirmed(entry: Prepared, now: int) returns (r: Result<nat, QueueError>)
      requires Valid()
      modifies this
      ensures Valid()
      ensures r.Ok? <==>
        Confirmable(entry, now) && entry.accountId !in old(active)
        && |LivePreviews(old(previews), now)| < MAX_ENTRIES && |RetainedJobs(old(jobs), now)| < MAX_ENTRIES
      ensures previews == old(previews) || previews == LivePreviews(old(previews), now)
      // The first guard that fails names the error.
      ensures r == Err(Expired) <==> entry.expiresAt <= now
      ensures r == Err(NothingEligible) <==> now < entry.expiresAt && !SomeExecutable(entry.commands)
      ensures r == Err(AlreadyRunning) <==> Confirmable(entry, now) && entry.accountId in old(active)
      ensures r == Err(TooManyBatches) <==> Confirmable(entry, now) && entry.accountId !in old(active) && !r.Ok?
      ensures r.Err? ==> r.error != InvalidPreview && active == old(active)
      ensures r.Err? ==> jobs == old(jobs) || jobs == RetainedJobs(old(jobs), now)
      ensures r.Ok? ==> r.value == old(issued) && active == old(active)[entry.accountId := r.value]
      ensures r.Ok? ==> jobs == RetainedJobs(old(jobs), now)[r.value := StartedJob(entry, now)]
    {
      hide JobInv, Consistent, StartedJob, Unfinished;
      if entry.expiresAt <= now {
        return Err(Expired);
      }
      if !SomeExecutable(entry.commands) {
        return Err(NothingEligible);
      }
      if entry.accountId in active {
        return Err(AlreadyRunning);
      }
      var pruned := Prune(now);
      if pruned.Err? {
        return Err(pruned.error);
      }
      var id := Launch(entry, now);
      r := Ok(id);
    }

    method Launch(entry: Prepared, now: int) returns (id: nat)
      requires Valid() && SomeExecutable(entry.commands) && entry.accountId !in active && |jobs| < MAX_ENTRIES
      modifies `jobs, `active, `issued
      ensures Valid()
      ensures id == old(issued) && jobs == old(jobs)[id := StartedJob(entry, now)]
      ensures active == old(active)[entry.accountId := id]
    {
      var job := BeginJob(entry, now);
      hide StartedJob;
      id := Enter(job);
    }

    method BeginJob(entry: Prepared, now: int) returns (job: Job)
      requires SomeExecutable(entry.commands)
      ensures job == StartedJob(entry, now)
      ensures AtRest(job) && job.finishedAt.None? && job.accountId == entry.accountId
    {
      FirstCommandBegins(entry, now);
      hide JobInv, FirstJob;
      job := Run(FirstJob(entry, now), now);
    }

    // A job under way is entered as the active one of its idle account.
    method Enter(job: Job) returns (id: nat)
      requires Valid() && AtRest(job) && job.finishedAt.None? && job.accountId !in active && |jobs| < MAX_ENTRIES
      modifies `jobs, `active, `issued
      ensures Valid()
      ensures id == old(issued) && jobs == old(jobs)[id := job] && active == old(active)[job.accountId := id]
    {
      hide JobInv;
      id := issued;
      NewJobKeepsConsistent(jobs, active, id, job);
      hide Consistent;
      issued := issued + 1;
      jobs := jobs[id := job];
      active := active[job.accountId := id];
    }

    // Goes on with the loop over the commands until the job waits, calls out or ends.
    method Run(job: Job, now: int) returns (r: Job)
      requires JobInv(job) && job.phase.Choosing?
      ensures r == Chosen(job, now)
    {
      var index := job.phase.next;
      while index < |job.items| && !job.executable[index]
        invariant job.phase.next <= index <= |job.items|
        invariant NextExecutable(job.executable, job.phase.next) == NextExecutable(job.executable, index)
      {
        index := index + 1;
      }
      if index == |job.items| {
        r := Finish(job, now);
      } else if !ShouldContinue(job, now) {
        r := Finish(job.(stopRequested := true), now);
      } else if job.phase.submitted {
        r := job.(status := Waiting, nextActionAt := Some(now + job.delaySeconds * 1000), phase := Paused(index));
      } else {
        r := Begun(job, index);
      }
    }

    method Finish(job: Job, now: int) returns (r: Job)
      ensures r == Finished(job, now)
    {
      var items := job.items;
      for k := 0 to |items|
        invariant |items| == |job.items|
        invariant forall i :: 0 <= i < k ==> items[i] == if Settled(job.items[i]) then job.items[i] else Skipped
        invariant forall i :: k <= i < |items| ==> items[i] == job.items[i]
      {
        if items[k] == Queued || items[k] == Running {
          items := items[k := Skipped];
        }
      }
      assert items == SettleRest(job.items);
      CountAll(items);
      r := job.(items := items, completedCount := CountSettled(items), nextActionAt := None, finishedAt := Some(now),
                status := if job.stopRequested then Stopped else Completed, phase := Over);
    }

    // One await of a job's run ends, or somebody asks for a stop.
    method Handle(id: nat, e: JobEvent)
      requires Valid() && Unfinished(jobs, id)
      modifies `jobs, `active
      ensures Valid()
      ensures jobs == old(jobs)[id := After(old(jobs)[id], e)]
      ensures active == ActiveAfter(old(active), id, jobs[id])
    {
      hide JobInv, AfterWait, AfterReply;
      var job := jobs[id];
      assert AtRest(job);
      EventKeepsInv(job, e);
      EventKeepsOwner(job, e);
      match e {
        case WaitOver(ok, at) =>
          if job.phase.Paused? {
            job := Resume(job, ok, at);
          }
        case Replied(outcome, at) =>
          if job.phase.Executing? {
            job := Settle(job, outcome, at);
          }
        case StopAsked =>
          job := job.(stopRequested := true, aborted := true);
      }
      assert job == After(jobs[id], e);
      Store(id, job);
    }

    // Writes a job back, and clears its account when it has ended.
    method Store(id: nat, job: Job)
      requires Valid() && Unfinished(jobs, id)
      requires AtRest(job) && job.accountId == jobs[id].accountId
      modifies `jobs, `active
      ensures Valid()
      ensures jobs == old(jobs)[id := job] && active == ActiveAfter(old(active), id, job)
    {
      hide JobInv;
      JobStepKeepsConsistent(jobs, active, id, job);
      assert jobs[id := job].Keys == jobs.Keys;
      hide Consistent;
      jobs := jobs[id := job];
      if job.finishedAt.Some? && job.accountId in active && active[job.accountId] == id {
        active := active - {job.accountId};
      }
    }

    method Resume(job: Job, ok: bool, now: int) returns (r: Job)
      requires JobInv(job) && job.phase.Paused?
      ensures r == AfterWait(job, ok, now)
    {
      if !ok || !ShouldContinue(job, now) {
        r := Finish(job.(stopRequested := true), now);
      } else {
        r := Begun(job, job.phase.index);
      }
    }

    method Settle(job: Job, outcome: Outcome, now: int) returns (r: Job)
      requires JobInv(job) && job.phase.Executing?
      ensures r == AfterReply(job, outcome, now)
    {
      hide Chosen, Finished, CountSettled, Executables;
      var index := job.phase.index;
      r := job.(items := job.items[index := StatusOf(outcome, job.kind)], completedCount := job.completedCount + 1,
                phase := Choosing(index + 1, WasSubmitted(outcome)));
      if outcome.Threw? && (outcome.stopBatch || outcome.tooManyRequests) {
        r := r.(stopRequested := true);
      }
      assert r == Recorded(job, outcome);
      if r.stopRequested {
        r := Finish(r, now);
      } else {
        r := Run(r, now);
      }
    }

    method Stop(accountId: nat, actor: nat, id: nat, now: int) returns (r: Result<Job, QueueError>)
      requires Valid()
      modifies `jobs, `active
      ensures Valid() && active == old(active)
      ensures r.Ok? <==> id in old(jobs) && old(jobs)[id].accountId == accountId && old(jobs)[id].actor == actor && Retained(old(jobs)[id], now)
      ensures r.Err? ==> r.error == NotFound && jobs == old(jobs)
      ensures r.Ok? ==> jobs == old(jobs)[id := AfterStop(old(jobs)[id])] && r.value == jobs[id]
    {
      hide Consistent, JobInv;
      if !(id in jobs && jobs[id].accountId == accountId && jobs[id].actor == actor && Retained(jobs[id], now)) {
        return Err(NotFound);
      }
      if jobs[id].finishedAt.None? {
        Handle(id, StopAsked);
      }
      r := Ok(jobs[id]);
    }

    // Ends what an account has under way and what it could still confirm.
    method StopAccount(accountId: nat)
      requires Valid()
      modifies `previews, `jobs, `active
      ensures Valid() && Consistent(jobs, active) && active == old(active)
      ensures previews == WithoutAccount(old(previews), accountId)
      ensures jobs == StopOne(old(jobs), active, accountId)
    {
      hide JobInv;
      previews := WithoutAccount(previews, accountId);
      SubmapIsSmaller(previews, old(previews));
      if accountId in active {
        Handle(active[accountId], StopAsked);
      }
    }

    // After a shutdown every unfinished job is stopped and no preview is left to confirm.
    method Shutdown()
      requires Valid()
      modifies `previews, `jobs, `active
      ensures Valid() && active == old(active) && previews == map[]
      ensures jobs == StopAll(old(jobs), active.Keys)
      ensures forall id :: Unfinished(jobs, id) ==> jobs[id].stopRequested && jobs[id].aborted
    {
      StopAccounts();
      StoppedEverywhere(old(jobs), active);
      hide Consistent, StopAll, AfterStop, Unfinished;
      previews := map[];
    }

    method StopAccounts()
      requires Valid()
      modifies `previews, `jobs, `active
      ensures Valid() && active == old(active) && jobs == StopAll(old(jobs), active.Keys)
    {
      hide *;
      var accounts := active.Keys;
      ghost var before, running, done := jobs, active, {};
      StopNobody(jobs);
      while accounts != {}
        invariant Valid() && active == running
        invariant done !! accounts && done + accounts == running.Keys
        invariant jobs == StopAll(before, done)
        decreases |accounts|
      {
        var a :| a in accounts;
        accounts := accounts - {a};
        StopNext(a, before, done);
        done := done + {a};
      }
      assert done == running.Keys;
    }

    method StopNext(accountId: nat, ghost before: map<nat, Job>, ghost done: set<nat>)
      requires Valid() && jobs == StopAll(before, done) && accountId in active && accountId !in done
      modifies `previews, `jobs, `active
      ensures Valid() && active == old(active) && jobs == StopAll(before, done + {accountId})
    {
      StopOneMore(before, active, done, accountId);
      hide *;
      StopAccount(accountId);
    }
  }

  lemma SubmapIsSmaller<K, V>(part: map<K, V>, whole: map<K, V>)
    requires part.Keys <= whole.Keys
    ensures |part| <= |whole|
  {
    SubsetIsSmaller(part.Keys, whole.Keys);
  }

  lemma {:induction false} SubsetIsSmaller<K>(part: set<K>, whole: set<K>)
    requires part <= whole
    ensures |part| <= |whole|
  {
    if part != {} {
      var k :| k in part;
      SubsetIsSmaller(part - {k}, whole - {k});
    }
  }

  // A batch with an eligible command begins its first one in the very call that confirms it.
  lemma FirstCommandBegins(entry: Prepared, now: int)
    requires SomeExecutable(entry.commands)
    ensures var j := FirstJob(entry, now); JobInv(j) && j.phase.Choosing? && JobInv(Chosen(j, now))
    ensures var j := FirstJob(entry, now); var first := NextExecutable(j.executable, 0);
      first < |j.items| && Chosen(j, now).phase == Executing(first) && Chosen(j, now).begun == [first]
    ensures Chosen(FirstJob(entry, now), now).finishedAt.None? && Chosen(FirstJob(entry, now), now).accountId == entry.accountId
    // Nobody has asked it to stop, and its hour starts now.
    ensures var j := Chosen(FirstJob(entry, now), now); !j.stopRequested && j.deadline == now + DEADLINE_MS
  {
    var j := FirstJob(entry, now);
    ChosenKeepsInv(j, now);
    var k :| 0 <= k < |entry.commands| && entry.commands[k].executable;
    assert j.executable[k];
  }
}
