// The limiter in front of Steam's price pages: two operations at a time, a
// bounded queue and a cooldown (apps/server/src/inventory/price-reader.ts,
// schedule, pump, cooldown and rateLimited).
module PriceLimiter {
  import opened Numbers
  import opened Results

  const SLOTS := 2
  const QUEUE := 40
  const MAX_COOLDOWN := 300_000
  const FIRST_COOLDOWN := 60_000

  // How a caller's promise ends.
  datatype Settlement = Finished(ok: bool) | RefusedBusy | RefusedCooldown(until: int) | TimedOut

  function Cooldown(step: nat): nat
    requires step > 0
  {
    Min(FIRST_COOLDOWN * Power2(step - 1), MAX_COOLDOWN)
  }

  // One, two, four minutes, then five: the fourth step is the longest.
  lemma CooldownSteps()
    ensures Cooldown(1) == 60_000 && Cooldown(2) == 120_000 && Cooldown(3) == 240_000 && Cooldown(4) == MAX_COOLDOWN
  {
    SmallPowers();
  }

  // ---- Where every call is -----------------------------------------------------------

  datatype Line = Line(
    clock: int,
    running: set<nat>,
    waiting: seq<nat>,
    settled: map<nat, Settlement>,
    cooldownUntil: int)

  // Every call ever made is in exactly one place.
  ghost predicate Accounted(line: Line, calls: set<nat>)
  {
    multiset(line.running) + multiset(line.waiting) + multiset(line.settled.Keys) == multiset(calls)
  }

  ghost predicate Bounded(line: Line)
  {
    && |line.running| <= SLOTS
    && |line.waiting| <= QUEUE + 1
    && 0 <= line.clock
    && line.cooldownUntil <= line.clock + MAX_COOLDOWN
  }

  // How a synchronous stretch moves calls: the queue is served from its head,
  // whoever left it runs or was refused by the cooldown, and nothing that runs
  // or has settled is touched. Nothing starts during a cooldown, and nothing is
  // refused once it is over.
  ghost predicate Served(before: Line, after: Line)
  {
    && before.clock <= after.clock && after.cooldownUntil == before.cooldownUntil
    && |after.waiting| <= |before.waiting|
    && after.waiting == before.waiting[|before.waiting| - |after.waiting|..]
    && before.running <= after.running
    && (forall id :: id in before.settled ==> id in after.settled && after.settled[id] == before.settled[id])
    && (forall id :: id in after.running - before.running ==> id in Left(before, after))
    && (forall id :: id in after.settled && id !in before.settled ==>
          && id in Left(before, after) && after.settled[id] == RefusedCooldown(before.cooldownUntil)
          && before.clock < before.cooldownUntil)
    && (forall id :: id in Left(before, after) ==> id in after.running || id in after.settled)
    && (after.running != before.running ==> before.cooldownUntil <= after.clock)
  }

  // No settlement is ever taken back or changed, and nothing begins to run before
  // the cooldown is over.
  ghost predicate Lasting(before: Line, after: Line)
  {
    && (forall id :: id in before.settled ==> id in after.settled && after.settled[id] == before.settled[id])
    && (!(after.running <= before.running) ==> before.cooldownUntil <= after.clock)
  }

  // The calls that left the queue.
  ghost function Left(before: Line, after: Line): seq<nat>
    requires |after.waiting| <= |before.waiting|
  {
    before.waiting[..|before.waiting| - |after.waiting|]
  }

  lemma ServedTransitive(a: Line, b: Line, c: Line)
    requires Served(a, b) && Served(b, c)
    ensures Served(a, c)
  {
    var first, second := Left(a, b), Left(b, c);
    assert a.waiting == first + b.waiting && b.waiting == second + c.waiting;
    assert Left(a, c) == first + second;
  }

  lemma ServedReflexive(a: Line)
    ensures Served(a, a)
  {}

  // The head of the line gets a slot.
  lemma HeadStarts(line: Line, calls: set<nat>, now: int)
    requires Accounted(line, calls) && line.waiting != [] && line.clock <= now && line.cooldownUntil <= now
    ensures var after := line.(clock := now, waiting := line.waiting[1..], running := line.running + {line.waiting[0]});
            && Accounted(after, calls) && Served(line, after)
            && |after.running| == |line.running| + 1
  {
    var id := line.waiting[0];
    assert line.waiting == [id] + line.waiting[1..];
    HeadIsNowhereElse(line, calls);
    assert multiset(line.running + {id}) == multiset(line.running) + multiset{id};
  }

  // The head of the line is refused because of the cooldown.
  lemma HeadRefused(line: Line, calls: set<nat>, now: int)
    requires Accounted(line, calls) && line.waiting != [] && line.clock <= now < line.cooldownUntil
    ensures var after := line.(clock := now, waiting := line.waiting[1..],
                               settled := line.settled[line.waiting[0] := RefusedCooldown(line.cooldownUntil)]);
            Accounted(after, calls) && Served(line, after)
  {
    var id := line.waiting[0];
    assert line.waiting == [id] + line.waiting[1..];
    HeadIsNowhereElse(line, calls);
    var settled := line.settled[id := RefusedCooldown(line.cooldownUntil)];
    assert settled.Keys == line.settled.Keys + {id};
    assert multiset(settled.Keys) == multiset(line.settled.Keys) + multiset{id};
  }

  lemma HeadIsNowhereElse(line: Line, calls: set<nat>)
    requires Accounted(line, calls) && line.waiting != []
    ensures line.waiting[0] !in line.running && line.waiting[0] !in line.settled
  {
    var id := line.waiting[0];
    assert multiset(calls)[id] <= 1;
    assert multiset(line.waiting)[id] >= 1;
  }

  // ---- The limiter ---------------------------------------------------------------------

  class Limiter {
    var clock: int
    // The source keeps the number of running operations.
    var active: nat
    var waiting: seq<nat>
    var cooldownUntil: int
    var cooldownStep: nat
    ghost var running: set<nat>
    ghost var calls: set<nat>
    ghost var settled: map<nat, Settlement>

    constructor (now: nat)
      ensures Valid() && State() == Line(now, {}, [], map[], 0) && calls == {}
    {
      clock, active, waiting, cooldownUntil, cooldownStep := now, 0, [], 0, 0;
      running, calls, settled := {}, {}, map[];
    }

    ghost function State(): Line
      reads this
    {
      Line(clock, running, waiting, settled, cooldownUntil)
    }

    // The state a call sees that has left the queue but is not placed yet.
    ghost function StateWith(id: nat): Line
      reads this
    {
      State().(waiting := [id] + waiting)
    }

    ghost predicate Consistent(line: Line)
      reads this
    {
      Accounted(line, calls) && Bounded(line) && active == |running| && cooldownStep <= 4
    }

    // Between synchronous stretches nobody waits while a slot is free.
    ghost predicate Valid()
      reads this
    {
      Consistent(State()) && |waiting| <= QUEUE && (waiting != [] ==> active == SLOTS)
    }

    // The clock never runs backwards.
    method Now() returns (now: int)
      modifies this`clock
      ensures old(clock) <= now == clock
    {
      var passed: int := *;
      if passed > 0 { clock := clock + passed; }
      return clock;
    }

    // A call with a slot in reach starts, or the cooldown refuses it and the
    // next in line gets its turn. Terminates because the line gets shorter.
    method Start(id: nat)
      requires Consistent(StateWith(id)) && active < SLOTS
      modifies this
      ensures Consistent(State()) && calls == old(calls)
      ensures Served(old(StateWith(id)), State()) && |waiting| <= |old(waiting)|
      decreases |waiting|, 2
    {
      hide Served;
      ghost var before := StateWith(id);
      assert before.waiting[1..] == waiting;
      var now := Now();
      if now < cooldownUntil {
        HeadRefused(before, calls, now);
        settled := settled[id := RefusedCooldown(cooldownUntil)];
        ghost var middle := State();
        Pump();
        ServedTransitive(before, middle, State());
      } else {
        HeadStarts(before, calls, now);
        running := running + {id};
        active := active + 1;
      }
    }

    // Hands free slots to the queue, first come first served.
    method Pump()
      requires Consistent(State())
      modifies this
      ensures Consistent(State()) && calls == old(calls)
      ensures waiting != [] ==> active == SLOTS
      ensures Served(old(State()), State()) && |waiting| <= |old(waiting)|
      decreases |waiting|, 1
    {
      hide Served, Accounted;
      ghost var before := State();
      ServedReflexive(before);
      while active < SLOTS && waiting != []
        invariant Consistent(State()) && calls == old(calls)
        invariant Served(before, State())
        invariant |waiting| <= |old(waiting)|
        decreases |waiting|
      {
        ghost var middle := State();
        var id := waiting[0];
        waiting := waiting[1..];
        assert StateWith(id) == middle by { assert middle.waiting == [id] + waiting; }
        Start(id);
        ServedTransitive(before, middle, State());
      }
    }

    // Accepts a call: it runs, waits or is refused at once.
    method Schedule(id: nat) returns (refused: bool)
      requires Valid() && id !in calls
      modifies this
      ensures Valid() && calls == old(calls) + {id}
      // Refused at once only by the cooldown or by a full queue.
      ensures refused ==> id in settled && id !in running && State().(clock := old(clock), settled := old(settled)) == old(State())
      ensures refused ==>
                || (settled == old(settled)[id := RefusedBusy] && active == SLOTS && |waiting| == QUEUE)
                || (settled == old(settled)[id := RefusedCooldown(cooldownUntil)] && clock < cooldownUntil)
      ensures !refused && old(active) == SLOTS ==> waiting == old(waiting) + [id]
      ensures !refused ==> cooldownUntil <= clock && (old(active) < SLOTS || |old(waiting)| < QUEUE)
      ensures !refused && old(active) < SLOTS ==> id in running && settled == old(settled)
      // The others keep their settlements, slots and places.
      ensures !refused && old(active) < SLOTS ==> Served(old(State()).(waiting := [id]), State())
      ensures !refused && old(active) == SLOTS ==> State() == old(State()).(clock := clock, waiting := old(waiting) + [id])
      ensures Lasting(old(State()), State())
    {
      var now := ReadClock();
      hide Accounted, Bounded, Served, Lasting;
      if now < cooldownUntil {
        Refuse(id, RefusedCooldown(cooldownUntil));
        LastingSince(old(State()), now, State());
        return true;
      }
      if active >= SLOTS && |waiting| >= QUEUE {
        Refuse(id, RefusedBusy);
        LastingSince(old(State()), now, State());
        return true;
      }
      if active < SLOTS {
        Place(id);
        ServedSince(old(State()).(waiting := [id]), now, State());
      } else {
        Queue(id);
      }
      LastingSince(old(State()), now, State());
      return false;
    }

    method ReadClock() returns (now: int)
      requires Valid()
      modifies `clock
      ensures Valid() && old(clock) <= now && State() == old(State()).(clock := now)
    {
      now := Now();
    }

    // A call that finds no slot free, but room in the line, waits at its end.
    method Queue(id: nat)
      requires Valid() && id !in calls && active == SLOTS && |waiting| < QUEUE
      modifies `calls, `waiting
      ensures Valid() && calls == old(calls) + {id}
      ensures State() == old(State()).(waiting := old(waiting) + [id]) && Lasting(old(State()), State())
    {
      AddCall(State(), calls, id, RefusedBusy);
      hide Accounted;
      calls := calls + {id};
      waiting := waiting + [id];
    }

    method Refuse(id: nat, settlement: Settlement)
      requires Valid() && id !in calls
      modifies `calls, `settled
      ensures Valid() && calls == old(calls) + {id} && settled == old(settled)[id := settlement]
      ensures id !in running && Lasting(old(State()), State())
    {
      AddCall(State(), calls, id, settlement);
      hide Accounted;
      calls := calls + {id};
      settled := settled[id := settlement];
    }

    // A call that finds a slot free does not wait.
    method Place(id: nat)
      requires Valid() && id !in calls && active < SLOTS
      modifies this
      ensures Valid() && calls == old(calls) + {id}
      ensures cooldownUntil <= old(clock) ==> id in running && settled == old(settled)
      ensures old(clock) <= clock && cooldownUntil == old(cooldownUntil)
      ensures Served(old(State()).(waiting := [id]), State()) && Lasting(old(State()), State())
    {
      AddCall(State(), calls, id, RefusedBusy);
      calls := calls + {id};
      ghost var before := StateWith(id);
      assert before == old(State()).(waiting := [id]);
      Start(id);
      assert |waiting| == 0;
      PlacedAfterServing(before, State(), calls, id);
      hide Accounted;
    }

    // A running operation ends; its slot goes to the queue.
    method Finish(id: nat, ok: bool)
      requires Valid() && id in running
      modifies this
      ensures Valid() && calls == old(calls)
      ensures id in settled && settled[id] == Finished(ok)
      ensures Served(Freed(old(State()), id, ok), State())
      // Outside a cooldown whoever leaves the line runs.
      ensures |waiting| <= |old(waiting)|
      ensures cooldownUntil <= old(clock) ==>
                && settled == old(settled)[id := Finished(ok)]
                && forall k :: 0 <= k < |old(waiting)| - |waiting| ==> old(waiting)[k] in running
      ensures Lasting(old(State()), State())
    {
      FreeSlot(State(), calls, id, ok);
      running := running - {id};
      settled := settled[id := Finished(ok)];
      active := active - 1;
      Pump();
      hide Accounted, Served;
      FreedLasts(old(State()), calls, id, ok, State());
      if cooldownUntil <= old(clock) { FreedRuns(old(State()), calls, id, ok, State()); }
    }

    // Twenty seconds in the queue are enough.
    method TimeOut(id: nat)
      requires Valid()
      modifies this
      ensures Valid() && calls == old(calls) && running == old(running)
      ensures id in old(waiting) ==> id !in waiting && settled == old(settled)[id := TimedOut]
      // The rest of the line keeps its order.
      ensures id in old(waiting) ==>
                exists k :: 0 <= k < |old(waiting)| && old(waiting)[k] == id && waiting == old(waiting)[..k] + old(waiting)[k + 1..]
      ensures id !in old(waiting) ==> State() == old(State())
      ensures Lasting(old(State()), State())
    {
      var k := 0;
      while k < |waiting| && waiting[k] != id
        invariant 0 <= k <= |waiting|
        invariant forall j :: 0 <= j < k ==> waiting[j] != id
        modifies {}
      {
        k := k + 1;
      }
      if k < |waiting| {
        Withdraw(k);
      }
    }

    // The call at place k leaves the line unserved.
    method Withdraw(k: nat)
      requires Valid() && k < |waiting|
      modifies `waiting, `settled
      ensures Valid()
      ensures waiting == old(waiting)[..k] + old(waiting)[k + 1..] && old(waiting)[k] !in waiting
      ensures settled == old(settled)[old(waiting)[k] := TimedOut]
      ensures Lasting(old(State()), State())
    {
      LeaveQueue(State(), calls, k, TimedOut);
      NowhereElse(State(), calls, waiting[k]);
      hide Accounted;
      var id := waiting[k];
      waiting := waiting[..k] + waiting[k + 1..];
      settled := settled[id := TimedOut];
    }

    // Steam asked to slow down.
    method RateLimited()
      requires Valid()
      modifies this`clock, this`cooldownStep, this`cooldownUntil
      ensures Valid()
      ensures cooldownStep == if old(cooldownStep) < 4 then old(cooldownStep) + 1 else 4
      ensures cooldownUntil == (if old(cooldownUntil) < clock + Cooldown(cooldownStep)
                                then clock + Cooldown(cooldownStep) else old(cooldownUntil))
      ensures old(cooldownUntil) <= cooldownUntil <= clock + MAX_COOLDOWN
    {
      cooldownStep := if cooldownStep + 1 < 4 then cooldownStep + 1 else 4;
      var now := Now();
      var until := now + Cooldown(cooldownStep);
      if cooldownUntil < until { cooldownUntil := until; }
    }

    // A successful read after the cooldown starts the steps over.
    method Recovered()
      requires Valid()
      modifies this`clock, this`cooldownStep, this`cooldownUntil
      ensures Valid()
      ensures if old(cooldownUntil) <= clock then cooldownStep == 0 && cooldownUntil == 0
              else cooldownStep == old(cooldownStep) && cooldownUntil == old(cooldownUntil)
    {
      var now := Now();
      if now >= cooldownUntil {
        cooldownStep, cooldownUntil := 0, 0;
      }
    }
  }

  // ---- Entering and leaving the line ------------------------------------------------------

  lemma AddCall(line: Line, calls: set<nat>, id: nat, settlement: Settlement)
    requires Accounted(line, calls) && id !in calls
    ensures id !in line.running && id !in line.waiting && id !in line.settled
    ensures Accounted(line.(waiting := [id] + line.waiting), calls + {id})
    ensures Accounted(line.(waiting := line.waiting + [id]), calls + {id})
    ensures Accounted(line.(settled := line.settled[id := settlement]), calls + {id})
  {
    assert multiset(calls)[id] == 0;
    assert multiset(calls + {id}) == multiset(calls) + multiset{id};
    assert line.settled[id := settlement].Keys == line.settled.Keys + {id};
    assert multiset(line.settled.Keys + {id}) == multiset(line.settled.Keys) + multiset{id};
  }

  lemma PlacedAfterServing(before: Line, after: Line, calls: set<nat>, id: nat)
    requires Served(before, after) && before.waiting == [id] && after.waiting == []
    requires Accounted(before, calls) && Accounted(after, calls)
    ensures before.cooldownUntil <= before.clock ==> id in after.running && after.settled == before.settled
  {
    assert multiset(before.waiting)[id] == 1;
    assert multiset(calls)[id] == 1;
    assert id !in before.settled;
  }

  function Freed(line: Line, id: nat, ok: bool): Line
  {
    line.(running := line.running - {id}, settled := line.settled[id := Finished(ok)])
  }

  lemma FreeSlot(line: Line, calls: set<nat>, id: nat, ok: bool)
    requires Accounted(line, calls) && id in line.running
    ensures Accounted(Freed(line, id, ok), calls)
    ensures |Freed(line, id, ok).running| == |line.running| - 1
  {
    assert multiset(calls)[id] <= 1;
    assert id !in line.settled;
    assert Freed(line, id, ok).settled.Keys == line.settled.Keys + {id};
    assert multiset(line.settled.Keys + {id}) == multiset(line.settled.Keys) + multiset{id};
    assert line.running == (line.running - {id}) + {id};
    assert multiset(line.running) == multiset(line.running - {id}) + multiset{id};
  }

  // Nothing of this depends on the clock having stood still before.
  lemma ServedSince(before: Line, now: int, after: Line)
    requires before.clock <= now && Served(before.(clock := now), after)
    ensures Served(before, after)
  {
    assert Left(before.(clock := now), after) == Left(before, after);
  }

  lemma LastingSince(before: Line, now: int, after: Line)
    requires Lasting(before.(clock := now), after)
    ensures Lasting(before, after)
  {}

  // Serving the line after a slot was freed takes nothing back.
  lemma FreedLasts(line: Line, calls: set<nat>, id: nat, ok: bool, after: Line)
    requires Accounted(line, calls) && id in line.running && Served(Freed(line, id, ok), after)
    ensures Lasting(line, after)
  {
    NowhereElse(line, calls, id);
  }

  // Outside a cooldown whoever the freed slot is handed to runs.
  lemma FreedRuns(line: Line, calls: set<nat>, id: nat, ok: bool, after: Line)
    requires Accounted(line, calls) && id in line.running && Served(Freed(line, id, ok), after)
    requires line.cooldownUntil <= line.clock
    ensures after.settled == line.settled[id := Finished(ok)]
    ensures forall k :: 0 <= k < |line.waiting| - |after.waiting| ==> line.waiting[k] in after.running
  {
    FreeSlot(line, calls, id, ok);
    var freed := Freed(line, id, ok);
    assert after.settled.Keys == freed.settled.Keys;
    forall k | 0 <= k < |line.waiting| - |after.waiting|
      ensures line.waiting[k] in after.running
    {
      assert Left(freed, after)[k] == line.waiting[k];
      NowhereElse(freed, calls, line.waiting[k]);
    }
  }

  // A call that runs or waits is not settled.
  lemma NowhereElse(line: Line, calls: set<nat>, id: nat)
    requires Accounted(line, calls) && (id in line.running || id in line.waiting)
    ensures id !in line.settled
  {
    var all := multiset(line.running) + multiset(line.waiting) + multiset(line.settled.Keys);
    assert all == multiset(calls) && all[id] <= 1;
    assert id in line.waiting ==> multiset(line.waiting)[id] >= 1;
    assert multiset(line.running)[id] + multiset(line.waiting)[id] + multiset(line.settled.Keys)[id] == all[id];
  }

  lemma LeaveQueue(line: Line, calls: set<nat>, k: nat, settlement: Settlement)
    requires Accounted(line, calls) && k < |line.waiting|
    ensures var id := line.waiting[k];
            var rest := line.waiting[..k] + line.waiting[k + 1..];
            && id !in rest
            && Accounted(line.(waiting := rest, settled := line.settled[id := settlement]), calls)
  {
    var id, rest := line.waiting[k], line.waiting[..k] + line.waiting[k + 1..];
    assert line.waiting == line.waiting[..k] + [id] + line.waiting[k + 1..];
    assert multiset(line.waiting) == multiset(rest) + multiset{id};
    assert multiset(calls)[id] <= 1;
    assert id !in multiset(rest) && id !in line.settled;
    assert line.settled[id := settlement].Keys == line.settled.Keys + {id};
    assert multiset(line.settled.Keys + {id}) == multiset(line.settled.Keys) + multiset{id};
  }
}
