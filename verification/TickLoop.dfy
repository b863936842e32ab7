// How the schedule coordinator runs its ticks: one loop at a time, with requests meanwhile folded into one more tick.
module TickLoop {
  import opened Results

  // No loop; a tick for an instant; or a loop that has returned and whose clean-up is still to run.
  datatype Phase = Idle | Ticking(at: int) | Returned(ok: bool)

  // The three fields of the coordinator, and a history of the loop: the requests it took on while it ticked, and the
  // instants whose ticks have ended well.
  datatype Loop = Loop(phase: Phase, trailingTickAt: Option<int>, latestRequestedTickAt: Option<int>, asked: set<int>, done: seq<int>)

  datatype Event =
    | Request(now: int)
    | TickEnds(ok: bool)
    | CleanUp

  const IDLE := Loop(Idle, None, None, {}, [])

  function Requested(l: Loop, now: int): Loop {
    if l.phase.Idle? then l.(phase := Ticking(now), latestRequestedTickAt := Some(now), asked := {now}, done := [])
    else
      var noted := if l.phase.Ticking? then l.(asked := l.asked + {now}) else l;
      if l.latestRequestedTickAt.None? || now > l.latestRequestedTickAt.value then
        noted.(latestRequestedTickAt := Some(now), trailingTickAt := Some(now))
      else noted
  }

  function TickEnded(l: Loop, ok: bool): Loop
    requires l.phase.Ticking?
  {
    if !ok then l.(phase := Returned(false))
    else
      var served := l.(done := l.done + [l.phase.at], trailingTickAt := None);
      served.(phase := if l.trailingTickAt.Some? then Ticking(l.trailingTickAt.value) else Returned(true))
  }

  function After(l: Loop, e: Event): Loop {
    match e
    case Request(now) => Requested(l, now)
    case TickEnds(ok) => if l.phase.Ticking? then TickEnded(l, ok) else l
    case CleanUp => if l.phase.Returned? then l.(phase := Idle, trailingTickAt := None, latestRequestedTickAt := None) else l
  }

  predicate Ascending(ticks: seq<int>) {
    forall i, j :: 0 <= i < j < |ticks| ==> ticks[i] < ticks[j]
  }

  predicate AllAtMost(asked: set<int>, bound: int) {
    forall r :: r in asked ==> r <= bound
  }

  predicate Inv(l: Loop) {
    Ascending(l.done) &&
    match l.phase
    case Idle => l.trailingTickAt.None? && l.latestRequestedTickAt.None?
    case Ticking(at) =>
      && l.latestRequestedTickAt.Some? && AllAtMost(l.asked, l.latestRequestedTickAt.value)
      && (if l.trailingTickAt.Some? then at < l.trailingTickAt.value == l.latestRequestedTickAt.value
          else at == l.latestRequestedTickAt.value)
      && (forall i :: 0 <= i < |l.done| ==> l.done[i] < at)
    case Returned(ok) =>
      && l.latestRequestedTickAt.Some?
      && (ok ==> l.done != [] && AllAtMost(l.asked, l.done[|l.done| - 1]))
      && (ok && l.trailingTickAt.None? ==> l.latestRequestedTickAt.value == l.done[|l.done| - 1])
      && (ok && l.trailingTickAt.Some? ==> l.latestRequestedTickAt == l.trailingTickAt && l.trailingTickAt.value > l.done[|l.done| - 1])
  }

  lemma StepKeepsInv(l: Loop, e: Event)
    requires Inv(l)
    ensures Inv(After(l, e))
  {
  }

  function RunOf(l: Loop, events: seq<Event>): Loop
    decreases |events|
  {
    if events == [] then l else RunOf(After(l, events[0]), events[1..])
  }

  lemma {:induction false} RunKeepsInv(l: Loop, events: seq<Event>)
    requires Inv(l)
    ensures Inv(RunOf(l, events))
    decreases |events|
  {
    if events != [] {
      StepKeepsInv(l, events[0]);
      RunKeepsInv(After(l, events[0]), events[1..]);
    }
  }

  // In every run: a loop that returns well has ticked at or after every instant requested while it ticked, and the
  // instants of its ticks ascend, so a burst of requests costs one tick more.
  lemma RequestsAreServed(events: seq<Event>, r: int)
    ensures var l := RunOf(IDLE, events);
      Ascending(l.done) && (l.phase == Returned(true) && r in l.asked ==> exists i :: 0 <= i < |l.done| && l.done[i] >= r)
  {
    RunKeepsInv(IDLE, events);
    var l := RunOf(IDLE, events);
    if l.phase == Returned(true) && r in l.asked {
      assert l.done[|l.done| - 1] >= r;
    }
  }

  function Requests(instants: seq<int>): seq<Event> {
    seq(|instants|, k requires 0 <= k < |instants| => Request(instants[k]))
  }

  predicate NoneAfter(instants: seq<int>, bound: int) {
    forall r :: r in instants ==> r <= bound
  }

  lemma NoneAfterAll(instants: seq<int>, bound: int)
    requires instants != []
    ensures NoneAfter(instants, bound) <==> instants[0] <= bound && NoneAfter(instants[1..], bound)
  {
    var rest := instants[1..];
    assert instants == [instants[0]] + rest;
    if NoneAfter(instants, bound) {
      assert instants[0] in instants;
      forall r | r in rest
        ensures r <= bound
      {
        assert r in instants;
      }
    }
  }

  // Requests during a tick leave it alone, and only the latest of them is remembered, if it is later than all before.
  lemma {:induction false} BurstIsFolded(l: Loop, instants: seq<int>)
    requires Inv(l) && l.phase.Ticking?
    ensures var r := RunOf(l, Requests(instants));
      && Inv(r) && r.phase == l.phase && r.done == l.done
      && (NoneAfter(instants, l.latestRequestedTickAt.value) ==>
            r.trailingTickAt == l.trailingTickAt && r.latestRequestedTickAt == l.latestRequestedTickAt)
      && (!NoneAfter(instants, l.latestRequestedTickAt.value) ==>
            r.trailingTickAt.Some? && r.trailingTickAt.value in instants && l.latestRequestedTickAt.value < r.trailingTickAt.value
            && NoneAfter(instants, r.trailingTickAt.value))
    decreases |instants|
  {
    if instants != [] {
      var next := After(l, Request(instants[0]));
      StepKeepsInv(l, Request(instants[0]));
      BurstIsFolded(next, instants[1..]);
      assert Requests(instants)[1..] == Requests(instants[1..]);
      assert Requests(instants)[0] == Request(instants[0]);
      assert instants == [instants[0]] + instants[1..];
      forall bound
        ensures NoneAfter(instants, bound) <==> instants[0] <= bound && NoneAfter(instants[1..], bound)
      {
        NoneAfterAll(instants, bound);
      }
      hide After;
    }
  }

  // An idle coordinator ticks at once. While it ticks, any burst of requests costs one tick more, for the latest of them,
  // and none when no request is later than the tick under way; then the loop returns.
  lemma BurstCostsOneTick(now: int, instants: seq<int>, l: Loop)
    requires Inv(l) && l.phase.Idle?
    ensures After(l, Request(now)).phase == Ticking(now)
    ensures var burst := RunOf(After(l, Request(now)), Requests(instants));
      var ended := After(burst, TickEnds(true));
      && burst.phase == Ticking(now)
      && (NoneAfter(instants, now) ==> ended.phase == Returned(true) && ended.done == [now])
      && (!NoneAfter(instants, now) ==>
            && ended.phase.Ticking? && ended.phase.at in instants && NoneAfter(instants, ended.phase.at)
            && After(ended, TickEnds(true)).phase == Returned(true) && After(ended, TickEnds(true)).done == [now, ended.phase.at])
  {
    StepKeepsInv(l, Request(now));
    BurstIsFolded(After(l, Request(now)), instants);
  }

  // ---- Which requests a loop serves ----

  // A tick that has ended well was for this instant or a later one.
  predicate Served(l: Loop, r: int) {
    exists i :: 0 <= i < |l.done| && l.done[i] >= r
  }

  // The events until the clean-up: requests, and ticks that end.
  predicate SameLoop(events: seq<Event>) {
    forall k :: 0 <= k < |events| ==> !events[k].CleanUp?
  }

  lemma {:induction false} ReturnedLoopTicksNoMore(l: Loop, events: seq<Event>)
    requires l.phase.Returned? && SameLoop(events)
    ensures RunOf(l, events).done == l.done && RunOf(l, events).phase == l.phase
    decreases |events|
  {
    if events != [] {
      ReturnedLoopTicksNoMore(After(l, events[0]), events[1..]);
    }
  }

  // The next tick to end is the one in flight, and the one after it is for the trailing instant or a later one.
  lemma {:induction false} NextTicks(l: Loop, events: seq<Event>)
    requires Inv(l) && l.phase.Ticking? && SameLoop(events)
    ensures var n, done := |l.done|, RunOf(l, events).done;
      && l.done <= done
      && (|done| > n ==> done[n] == l.phase.at)
      && (|done| > n + 1 && l.trailingTickAt.Some? ==> done[n + 1] >= l.trailingTickAt.value)
      && (RunOf(l, events).phase == Returned(true) ==> |done| > n + (if l.trailingTickAt.Some? then 1 else 0))
    decreases |events|
  {
    if events != [] {
      var next := After(l, events[0]);
      StepKeepsInv(l, events[0]);
      if next.phase.Ticking? {
        NextTicks(next, events[1..]);
      } else {
        ReturnedLoopTicksNoMore(next, events[1..]);
      }
    }
  }

  // Exactly which requests made during a loop it serves, whatever else is requested and however its ticks end: those
  // that a tick had served before; those for the instant of the tick in flight or an earlier one, if that tick ends
  // well; and later ones, if that tick and the next one end well. When the loop has returned no tick is left to end.
  lemma RequestServedIff(l: Loop, r: int, events: seq<Event>)
    requires Inv(l) && !l.phase.Idle? && SameLoop(events)
    ensures var end := RunOf(After(l, Request(r)), events);
      Served(end, r) <==>
        Served(l, r) || (l.phase.Ticking? && |end.done| >= |l.done| + (if r <= l.phase.at then 1 else 2))
  {
    if l.phase.Returned? {
      ReturnedLoopTicksNoMore(After(l, Request(r)), events);
    } else {
      TickingServedIff(l, r, events);
    }
  }

  lemma TickingServedIff(l: Loop, r: int, events: seq<Event>)
    requires Inv(l) && l.phase.Ticking? && SameLoop(events)
    ensures var end := RunOf(After(l, Request(r)), events);
      Served(end, r) <==> Served(l, r) || |end.done| >= |l.done| + (if r <= l.phase.at then 1 else 2)
  {
    var next := After(l, Request(r));
    StepKeepsInv(l, Request(r));
    assert next.phase == l.phase && next.done == l.done;
    assert r > l.phase.at ==> next.trailingTickAt.Some? && next.trailingTickAt.value >= r;
    NextTicks(next, events);
    var end := RunOf(next, events);
    hide After, Requested, Inv, RunOf;
    LongerServes(l.done, end.done, r, l.phase.at);
  }

  // Two ticks more, the first for `at` and the second for `r` or later.
  lemma LongerServes(before: seq<int>, done: seq<int>, r: int, at: int)
    requires before <= done
    requires |done| > |before| ==> done[|before|] == at
    requires r > at && |done| > |before| + 1 ==> done[|before| + 1] >= r
    ensures (exists i :: 0 <= i < |done| && done[i] >= r)
       <==> (exists i :: 0 <= i < |before| && before[i] >= r) || |done| >= |before| + (if r <= at then 1 else 2)
  {
    assert forall i :: 0 <= i < |before| ==> done[i] == before[i];
  }

  // So a loop that was still ticking and returns well has served the request.
  lemma ReturningWellServes(l: Loop, r: int, events: seq<Event>)
    requires Inv(l) && l.phase.Ticking? && SameLoop(events)
    requires RunOf(After(l, Request(r)), events).phase == Returned(true)
    ensures Served(RunOf(After(l, Request(r)), events), r)
  {
    StepKeepsInv(l, Request(r));
    NextTicks(After(l, Request(r)), events);
    RequestServedIff(l, r, events);
  }

  // And a request that comes between the return of the loop and its clean-up is answered with a loop that is over: the
  // clean-up throws its instant away, and it is served if and only if the last good tick was late enough already.
  lemma RequestBeforeCleanUp(l: Loop, r: int, events: seq<Event>)
    requires Inv(l) && l.phase == Returned(true) && SameLoop(events)
    ensures var end := RunOf(After(l, Request(r)), events);
      && (Served(end, r) <==> r <= l.done[|l.done| - 1])
      && After(end, CleanUp).phase == Idle && After(end, CleanUp).trailingTickAt == None && After(end, CleanUp).done == l.done
  {
    RequestServedIff(l, r, events);
    ReturnedLoopTicksNoMore(After(l, Request(r)), events);
  }

  // The same happens to a request that is folded into the tick in flight, or into the one after it, when that fails.
  lemma FailureDropsRequest(l: Loop, r: int, events: seq<Event>)
    requires Inv(l) && l.phase.Ticking? && !Served(l, r) && SameLoop(events)
    requires var end := RunOf(After(l, Request(r)), events);
      end.phase == Returned(false) && |end.done| < |l.done| + (if r <= l.phase.at then 1 else 2)
    ensures var idle := After(RunOf(After(l, Request(r)), events), CleanUp);
      idle.phase == Idle && idle.trailingTickAt == None && !Served(idle, r)
  {
    RequestServedIff(l, r, events);
  }

  class TickGate {
    var phase: Phase
    var trailingTickAt: Option<int>
    var latestRequestedTickAt: Option<int>
    ghost var asked: set<int>
    ghost var done: seq<int>

    ghost function State(): Loop
      reads this
    {
      Loop(phase, trailingTickAt, latestRequestedTickAt, asked, done)
    }

    constructor ()
      ensures State() == IDLE
    {
      phase, trailingTickAt, latestRequestedTickAt, asked, done := Idle, None, None, {}, [];
    }

    method Tick(now: int)
      modifies this
      ensures State() == After(old(State()), Request(now))
    {
      if !phase.Idle? {
        if phase.Ticking? {
          asked := asked + {now};
        }
        if latestRequestedTickAt.None? || now > latestRequestedTickAt.value {
          latestRequestedTickAt := Some(now);
          trailingTickAt := Some(now);
        }
        return;
      }
      latestRequestedTickAt := Some(now);
      phase := Ticking(now);
      asked, done := {now}, [];
    }

    // `tickNow` has ended; the loop goes round once more or returns.
    method GoRound(ok: bool)
      requires phase.Ticking?
      modifies this
      ensures State() == After(old(State()), TickEnds(ok))
    {
      if !ok {
        phase := Returned(false);
        return;
      }
      done := done + [phase.at];
      var trailing := trailingTickAt;
      trailingTickAt := None;
      if trailing.None? {
        phase := Returned(true);
        return;
      }
      phase := Ticking(trailing.value);
    }

    method RunCleanUp()
      requires phase.Returned?
      modifies this
      ensures State() == After(old(State()), CleanUp)
    {
      phase := Idle;
      trailingTickAt := None;
      latestRequestedTickAt := None;
    }
  }
}
