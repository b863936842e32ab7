// Turning a local wall-clock time into an instant in a zone whose offset
// changes (apps/server/src/steam/scheduler.ts, zonedLocalTimeToEpoch). Instants
// are milliseconds; a zone gives the offset in minutes at every minute.
module ZoneConversion {
  import opened ScheduleWindows

  type Zone = int -> int

  // The local minute a zone shows at an instant; seconds are dropped before the
  // comparison, as formatting to minutes does.
  function Shown(zone: Zone, instant: int): int
  {
    instant / MINUTE + zone(instant / MINUTE)
  }

  predicate Shows(zone: Zone, instant: int, target: int) { Shown(zone, instant) == target }

  // The wanted local time exists in the zone.
  ghost predicate Exists(zone: Zone, target: int)
  {
    exists minute: int :: minute + zone(minute) == target
  }

  // No offset exceeds the bound, and within that distance of the wanted time
  // only two are in force, as around a single change.
  ghost predicate TwoOffsetsNear(zone: Zone, target: int, a: int, b: int, bound: int)
  {
    && (forall minute :: -bound <= zone(minute) <= bound)
    && (forall minute :: target - bound <= minute <= target + bound ==> zone(minute) == a || zone(minute) == b)
  }

  // The candidate of the last attempt: each correction subtracts the offset in
  // force at the current candidate.
  function Corrected(zone: Zone, target: int, attempts: nat): int
  {
    if attempts == 0 then target
    else target - zone(Corrected(zone, target, attempts - 1))
  }

  // target is the wanted local minute read as if it were an instant's minute.
  method LocalTimeToEpoch(zone: Zone, target: int) returns (instant: int)
    ensures instant == Corrected(zone, target, 3) * MINUTE
    ensures Shows(zone, instant, target) <==> zone(Corrected(zone, target, 2)) == zone(Corrected(zone, target, 3))
    ensures forall a, b, bound :: TwoOffsetsNear(zone, target, a, b, bound) ==> (Shows(zone, instant, target) <==> Exists(zone, target))
  {
    var candidate := target * MINUTE;
    var attempt := 0;
    var settled := false;
    while attempt < 3 && !settled
      invariant 0 <= attempt <= 3
      invariant candidate == Corrected(zone, target, attempt) * MINUTE
      invariant settled ==> Shows(zone, candidate, target)
      decreases 3 - attempt, !settled
    {
      var represented := Shown(zone, candidate) * MINUTE;
      var correction := target * MINUTE - represented;
      candidate := candidate + correction;
      attempt := attempt + 1;
      settled := correction == 0;
    }
    instant := candidate;
    if settled {
      SettledStays(zone, target, attempt, 3);
    }
    ReachedIff(zone, target);
    assert Shows(zone, instant, target) ==> instant / MINUTE + zone(instant / MINUTE) == target;
    assert Shows(zone, instant, target) ==> Exists(zone, target);
    forall a, b, bound | TwoOffsetsNear(zone, target, a, b, bound)
      ensures Shows(zone, instant, target) <==> Exists(zone, target)
    {
      if Exists(zone, target) {
        TwoCorrectionsReachTarget(zone, target, a, b, bound);
      }
    }
  }

  // A candidate that shows the target is corrected no more.
  lemma {:induction false} SettledStays(zone: Zone, target: int, attempt: nat, later: nat)
    requires attempt <= later && Shows(zone, Corrected(zone, target, attempt) * MINUTE, target)
    ensures Corrected(zone, target, later) == Corrected(zone, target, attempt)
    decreases later
  {
    if attempt < later {
      SettledStays(zone, target, attempt, later - 1);
    }
  }

  // In any zone whatever, three attempts reach the target exactly when the last
  // two candidates are under the same offset.
  lemma ReachedIff(zone: Zone, target: int)
    ensures Shows(zone, Corrected(zone, target, 3) * MINUTE, target)
       <==> zone(Corrected(zone, target, 2)) == zone(Corrected(zone, target, 3))
  {
    CorrectedUnfolds(zone, target);
  }

  lemma CorrectedUnfolds(zone: Zone, target: int)
    ensures Corrected(zone, target, 1) == target - zone(target)
    ensures Corrected(zone, target, 2) == target - zone(Corrected(zone, target, 1))
    ensures Corrected(zone, target, 3) == target - zone(Corrected(zone, target, 2))
  {
    assert Corrected(zone, target, 0) == target;
  }

  // With two offsets in play around the target, two corrections already reach
  // an instant that shows it, and a third one keeps it.
  lemma TwoCorrectionsReachTarget(zone: Zone, target: int, a: int, b: int, bound: int)
    requires TwoOffsetsNear(zone, target, a, b, bound) && Exists(zone, target)
    ensures Shows(zone, Corrected(zone, target, 2) * MINUTE, target)
    ensures Corrected(zone, target, 3) == Corrected(zone, target, 2)
  {
    var minute :| minute + zone(minute) == target;
    CorrectedUnfolds(zone, target);
    var first, second := Corrected(zone, target, 1), Corrected(zone, target, 2);
    assert zone(target) == a || zone(target) == b;
    assert zone(minute) == a || zone(minute) == b;
    assert zone(first) == a || zone(first) == b;
    assert zone(second) == a || zone(second) == b;
    assert zone(second) == zone(first);
  }

  // Where the local time was skipped, the search ends at the time read with
  // the offset in force just at the target.
  lemma SkippedTimeFallsBack(zone: Zone, target: int, a: int, b: int, bound: int)
    requires TwoOffsetsNear(zone, target, a, b, bound) && !Exists(zone, target)
    ensures Corrected(zone, target, 3) == target - zone(target)
  {
    CorrectedUnfolds(zone, target);
    var first, second := Corrected(zone, target, 1), Corrected(zone, target, 2);
    hide Corrected;
    assert first + zone(first) != target && second + zone(second) != target;
    assert zone(target) == a || zone(target) == b;
    assert zone(first) == a || zone(first) == b;
    assert zone(second) == a || zone(second) == b;
  }

  // Two offsets are the most the three attempts can cope with in general: in
  // this made-up zone the local minute 0 exists, at minute 1, but every attempt
  // steps past it. No zone in use changes its offset so often.
  lemma ThreeOffsetsCanMiss()
    ensures exists zone: Zone :: Exists(zone, 0) && !Shows(zone, Corrected(zone, 0, 3) * MINUTE, 0)
  {
    var zone: Zone := minute => if minute == 1 then -1 else if minute == 5 then -7 else -5;
    assert 1 + zone(1) == 0;
    CorrectedUnfolds(zone, 0);
    assert Corrected(zone, 0, 3) == 5;
    assert Exists(zone, 0) && !Shows(zone, Corrected(zone, 0, 3) * MINUTE, 0);
  }

  // In a zone with one offset the loop computes what the schedules are evaluated
  // and enumerated with, and the instant shows the wanted time.
  lemma ConstantZoneIsToEpoch(zone: Zone, offset: int, date: int, minute: MinuteOfDay)
    requires forall m :: zone(m) == offset
    ensures Corrected(zone, date * MINUTES_PER_DAY + minute, 3) * MINUTE == ToEpoch(date, minute, offset)
    ensures Shows(zone, ToEpoch(date, minute, offset), date * MINUTES_PER_DAY + minute)
    ensures forall instant :: Shown(zone, instant) == LocalMinute(instant, offset)
  {
    CorrectedUnfolds(zone, date * MINUTES_PER_DAY + minute);
  }
}
