// Playtime accounting: the session rows of one account, and the caps computed
// from them (apps/server/src/steam/boost-session-tracker.ts and
// safety-coordinator.ts).
module BoostSessions {
  import opened Numbers
  import opened Results
  import Sorting

  datatype StopReason = SelectionChanged | Interrupted | Status(code: nat)

  // What was running: the preset, if any, and the normalised app ids.
  datatype Target = Target(presetId: Option<nat>, appIds: seq<nat>)

  datatype Session = Session(
    startedAt: int,
    endedAt: Option<int>,
    stopReason: Option<StopReason>,
    lastSeenAt: Option<int>,
    target: Target)

  // ---- The rows ----------------------------------------------------------------------

  predicate IsOpen(row: Session) { row.endedAt.None? }

  function Ended(row: Session, reason: StopReason, at: int): Session
  {
    if IsOpen(row) then row.(endedAt := Some(at), stopReason := Some(reason)) else row
  }

  function EndAll(rows: seq<Session>, reason: StopReason, at: int): seq<Session>
  {
    seq(|rows|, i requires 0 <= i < |rows| => Ended(rows[i], reason, at))
  }

  // An interrupted session ends at its last sign of life.
  function InterruptedEnd(row: Session): Session
  {
    var seen := if row.lastSeenAt.Some? then row.lastSeenAt.value else row.startedAt;
    Ended(row, Interrupted, if row.startedAt < seen then seen else row.startedAt)
  }

  function EndInterrupted(rows: seq<Session>): seq<Session>
  {
    seq(|rows|, i requires 0 <= i < |rows| => InterruptedEnd(rows[i]))
  }

  function Seen(row: Session, at: int): Session
  {
    if IsOpen(row) then row.(lastSeenAt := Some(at)) else row
  }

  function MarkSeen(rows: seq<Session>, at: int): seq<Session>
  {
    seq(|rows|, i requires 0 <= i < |rows| => Seen(rows[i], at))
  }

  function Opened(at: int, target: Target): Session { Session(at, None, None, Some(at), target) }

  // The row that is open alone and already runs this target.
  predicate AlreadyRuns(rows: seq<Session>, target: Target)
  {
    var open := OpenRows(rows);
    |open| == 1 && open[0].target == target
  }

  function OpenRows(rows: seq<Session>): seq<Session>
  {
    if rows == [] then []
    else OpenRows(rows[..|rows| - 1]) + if IsOpen(rows[|rows| - 1]) then [rows[|rows| - 1]] else []
  }

  // ---- What can happen to an account ---------------------------------------------------

  datatype Event =
    | Boosting(now: int, target: Target)
    | NotBoosting(now: int, reason: StopReason)
    // The stamp was read from the clock before the update runs.
    | Heartbeat(now: int, stamp: int)
    // The process died; the open rows are closed when it starts again.
    | CrashAndRestart(now: int)
    // It died between closing the old rows and inserting the new one.
    | CrashWhileRotating(diedAt: int, now: int)

  function Clock(e: Event): int
  {
    match e
    case Boosting(now, _) => now
    case NotBoosting(now, _) => now
    case Heartbeat(now, _) => now
    case CrashAndRestart(now) => now
    case CrashWhileRotating(_, now) => now
  }

  function Next(rows: seq<Session>, e: Event): seq<Session>
  {
    match e
    case Boosting(now, target) =>
      if AlreadyRuns(rows, target) then rows
      else EndAll(rows, SelectionChanged, now) + [Opened(now, target)]
    case NotBoosting(now, reason) => EndAll(rows, reason, now)
    case Heartbeat(_, stamp) => MarkSeen(rows, stamp)
    case CrashAndRestart(_) => EndInterrupted(rows)
    case CrashWhileRotating(diedAt, _) => EndInterrupted(EndAll(rows, SelectionChanged, diedAt))
  }

  // ---- Sessions follow one another ------------------------------------------------------

  // Rows in insertion order: each is over before the next starts, only the last
  // can be open, and nothing lies in the future.
  ghost predicate Chronological(rows: seq<Session>, now: int)
  {
    && (forall i :: 0 <= i < |rows| ==> RowFits(rows[i], now))
    && (forall i, j :: 0 <= i < j < |rows| ==>
          rows[i].endedAt.Some? && rows[i].endedAt.value <= rows[j].startedAt)
  }

  predicate RowFits(row: Session, now: int)
  {
    && row.startedAt <= now
    && (row.endedAt.Some? ==> row.startedAt <= row.endedAt.value <= now)
    && (row.lastSeenAt.Some? ==> row.lastSeenAt.value <= now)
  }

  // The clock does not run backwards.
  predicate InOrder(e: Event, now: int)
  {
    && now <= Clock(e)
    && (e.Heartbeat? ==> e.stamp <= e.now)
    && (e.CrashWhileRotating? ==> now <= e.diedAt <= e.now)
  }

  // The new rows differ only in how open ones are stamped or closed.
  ghost predicate Updates(rows: seq<Session>, updated: seq<Session>, now: int)
  {
    && |updated| == |rows|
    && forall i :: 0 <= i < |rows| ==> UpdatesRow(rows[i], updated[i], now)
  }

  predicate UpdatesRow(row: Session, updated: Session, now: int)
  {
    && updated.startedAt == row.startedAt
    && (row.endedAt.Some? ==> updated.endedAt == row.endedAt)
    && RowFits(updated, now)
  }

  lemma UpdatesKeepChronological(rows: seq<Session>, updated: seq<Session>, before: int, now: int)
    requires Chronological(rows, before) && before <= now && Updates(rows, updated, now)
    ensures Chronological(updated, now)
  {
    forall i | 0 <= i < |updated|
      ensures RowFits(updated[i], now)
    {
      assert UpdatesRow(rows[i], updated[i], now);
    }
    forall i, j | 0 <= i < j < |updated|
      ensures updated[i].endedAt.Some? && updated[i].endedAt.value <= updated[j].startedAt
    {
      assert UpdatesRow(rows[i], updated[i], now) && UpdatesRow(rows[j], updated[j], now);
    }
  }

  lemma EndAllUpdates(rows: seq<Session>, reason: StopReason, at: int, before: int, now: int)
    requires Chronological(rows, before) && before <= at <= now
    ensures Updates(rows, EndAll(rows, reason, at), now)
  {
    assert forall i :: 0 <= i < |rows| ==> RowFits(rows[i], before);
  }

  lemma StampsUpdate(rows: seq<Session>, stamp: int, before: int, now: int)
    requires Chronological(rows, before) && before <= now && stamp <= now
    ensures Updates(rows, MarkSeen(rows, stamp), now)
    ensures Updates(rows, EndInterrupted(rows), now)
  {
    assert forall i :: 0 <= i < |rows| ==> RowFits(rows[i], before);
  }

  lemma StepKeepsChronological(rows: seq<Session>, e: Event, now: int)
    requires Chronological(rows, now) && InOrder(e, now)
    ensures Chronological(Next(rows, e), Clock(e))
  {
    hide AlreadyRuns, Chronological, Updates, EndAll, MarkSeen, EndInterrupted;
    match e
    case Boosting(at, target) =>
      UpdatesKeepChronological(rows, rows, now, at) by { SameRowsUpdate(rows, now, at); }
      EndAllUpdates(rows, SelectionChanged, at, now, at);
      UpdatesKeepChronological(rows, EndAll(rows, SelectionChanged, at), now, at);
      AppendKeepsChronological(rows, SelectionChanged, at, target);
    case NotBoosting(at, reason) =>
      EndAllUpdates(rows, reason, at, now, at);
      UpdatesKeepChronological(rows, EndAll(rows, reason, at), now, at);
    case Heartbeat(at, stamp) =>
      StampsUpdate(rows, stamp, now, at);
      UpdatesKeepChronological(rows, MarkSeen(rows, stamp), now, at);
    case CrashAndRestart(at) =>
      StampsUpdate(rows, at, now, at);
      UpdatesKeepChronological(rows, EndInterrupted(rows), now, at);
    case CrashWhileRotating(died, at) =>
      EndAllUpdates(rows, SelectionChanged, died, now, died);
      UpdatesKeepChronological(rows, EndAll(rows, SelectionChanged, died), now, died);
      StampsUpdate(EndAll(rows, SelectionChanged, died), died, died, at);
      UpdatesKeepChronological(EndAll(rows, SelectionChanged, died), EndInterrupted(EndAll(rows, SelectionChanged, died)), died, at);
  }

  lemma SameRowsUpdate(rows: seq<Session>, before: int, now: int)
    requires Chronological(rows, before) && before <= now
    ensures Updates(rows, rows, now)
  {
    assert forall i :: 0 <= i < |rows| ==> RowFits(rows[i], before);
  }

  lemma AppendKeepsChronological(rows: seq<Session>, reason: StopReason, at: int, target: Target)
    requires Chronological(EndAll(rows, reason, at), at)
    ensures Chronological(EndAll(rows, reason, at) + [Opened(at, target)], at)
  {
    var ended := EndAll(rows, reason, at);
    forall i | 0 <= i < |ended|
      ensures ended[i].endedAt.Some? && ended[i].endedAt.value <= at
    {
      assert RowFits(ended[i], at);
    }
  }

  // ---- What an event records -------------------------------------------------------------

  // The end an event gives to an open session. A crash is noticed only after the
  // restart, so a session it cut off ends when it was last seen alive, and not
  // before it started.
  function EndGiven(row: Session, e: Event): Option<(int, StopReason)>
  {
    match e
    case Boosting(now, target) => Some((now, SelectionChanged))
    case NotBoosting(now, reason) => Some((now, reason))
    case Heartbeat(_, _) => None
    case CrashAndRestart(_) =>
      Some((if row.lastSeenAt.Some? then Max(row.startedAt, row.lastSeenAt.value) else row.startedAt, Interrupted))
    case CrashWhileRotating(diedAt, _) => Some((diedAt, SelectionChanged))
  }

  // A session that is over stays as it is; an open one gets its end or a stamp,
  // and keeps when it began and what it ran.
  predicate RecordedAs(row: Session, after: Session, e: Event)
  {
    if !IsOpen(row) then after == row
    else
      && after.startedAt == row.startedAt && after.target == row.target
      && match EndGiven(row, e)
         case Some((at, reason)) => after.endedAt == Some(at) && after.stopReason == Some(reason) && after.lastSeenAt == row.lastSeenAt
         case None => IsOpen(after) && after.lastSeenAt == Some(e.stamp)
  }

  // Boosting a target that is open already changes nothing. Any other event
  // leaves every row with what it records, and boosting adds the one row that is
  // open then.
  lemma StepRecords(rows: seq<Session>, e: Event, now: int)
    requires Chronological(rows, now)
    ensures e.Boosting? && OpenRows(rows) != [] && rows[|rows| - 1].target == e.target ==> Next(rows, e) == rows
    ensures !(e.Boosting? && OpenRows(rows) != [] && rows[|rows| - 1].target == e.target) ==>
              && |Next(rows, e)| == |rows| + (if e.Boosting? then 1 else 0)
              && (forall i :: 0 <= i < |rows| ==> RecordedAs(rows[i], Next(rows, e)[i], e))
              && (e.Boosting? ==> Next(rows, e)[|rows|] == Session(e.now, None, None, Some(e.now), e.target))
  {
    if OpenRows(rows) != [] { OpenIsLast(rows, now); }
    hide OpenRows, Chronological;
  }

  // So an account has an open session exactly while it boosts.
  lemma OpenWhileBoosting(rows: seq<Session>, e: Event, now: int)
    requires Chronological(rows, now)
    ensures e.Boosting? ==> OpenRows(Next(rows, e)) == [Next(rows, e)[|Next(rows, e)| - 1]] && Next(rows, e)[|Next(rows, e)| - 1].target == e.target
    ensures e.NotBoosting? || e.CrashAndRestart? || e.CrashWhileRotating? ==> OpenRows(Next(rows, e)) == []
    ensures e.Heartbeat? ==> (OpenRows(Next(rows, e)) == [] <==> OpenRows(rows) == [])
  {
    StepRecords(rows, e, now);
    var next := Next(rows, e);
    hide Next, Chronological;
    if e.Boosting? {
      if OpenRows(rows) != [] { OpenIsLast(rows, now); }
      if next != rows {
        assert next[..|next| - 1] == next[..|rows|];
        NoneOpen(next[..|rows|]);
      }
    } else if e.Heartbeat? {
      SomeOpenIff(rows);
      SomeOpenIff(next);
    } else {
      NoneOpen(next);
    }
  }

  lemma SomeOpenIff(rows: seq<Session>)
    ensures OpenRows(rows) == [] <==> forall i :: 0 <= i < |rows| ==> !IsOpen(rows[i])
  {
    ClosedRowsAreRows(rows);
    hide OpenRows;
    if i :| 0 <= i < |rows| && IsOpen(rows[i]) {
      assert rows[i] in rows && rows[i] in OpenRows(rows);
    }
    if OpenRows(rows) != [] {
      assert OpenRows(rows)[0] in OpenRows(rows);
    }
  }

  ghost predicate IsRun(events: seq<Event>, now: int)
    decreases |events|
  {
    events == [] || (InOrder(events[0], now) && IsRun(events[1..], Clock(events[0])))
  }

  function After(rows: seq<Session>, events: seq<Event>): seq<Session>
    decreases |events|
  {
    if events == [] then rows else After(Next(rows, events[0]), events[1..])
  }

  function EndOfRun(events: seq<Event>, now: int): int
  {
    if events == [] then now else Clock(events[|events| - 1])
  }

  // Through every run of status changes, heartbeats, crashes and restarts the
  // sessions stay pairwise disjoint and at most one is open.
  lemma {:induction false} RunKeepsChronological(rows: seq<Session>, events: seq<Event>, now: int)
    requires Chronological(rows, now) && IsRun(events, now)
    ensures Chronological(After(rows, events), EndOfRun(events, now))
    decreases |events|
  {
    hide Next, Chronological, InOrder;
    if events != [] {
      StepKeepsChronological(rows, events[0], now);
      RunKeepsChronological(Next(rows, events[0]), events[1..], Clock(events[0]));
    }
  }

  // ---- The tracker ---------------------------------------------------------------------

  class SessionTable {
    var rows: seq<Session>

    constructor ()
      ensures rows == []
    {
      rows := [];
    }

    method EndBoostSession(reason: StopReason, endedAt: int)
      modifies this
      ensures rows == EndAll(old(rows), reason, endedAt)
    {
      for i := 0 to |rows|
        invariant |rows| == |old(rows)|
        invariant forall k :: 0 <= k < i ==> rows[k] == Ended(old(rows)[k], reason, endedAt)
        invariant forall k :: i <= k < |rows| ==> rows[k] == old(rows)[k]
      {
        if rows[i].endedAt.None? {
          rows := rows[i := rows[i].(endedAt := Some(endedAt), stopReason := Some(reason))];
        }
      }
    }

    method StartBoostSession(target: Target, now: int)
      modifies this
      ensures rows == Next(old(rows), Boosting(now, target))
    {
      var existing := OpenRows(rows);
      if |existing| == 1 && existing[0].target == target { return; }
      NoOpenRows(rows, SelectionChanged, now);
      if |existing| > 0 {
        EndBoostSession(SelectionChanged, now);
      }
      rows := rows + [Opened(now, target)];
    }

    // Boosting with something to attribute starts or rotates, anything else ends.
    method TrackBoostSession(boosting: bool, idle: bool, target: Target, reason: StopReason, now: int)
      modifies this
      ensures rows == Next(old(rows), if boosting && !idle then Boosting(now, target) else NotBoosting(now, reason))
    {
      if boosting && !idle {
        StartBoostSession(target, now);
      } else {
        EndBoostSession(reason, now);
      }
    }

    method MarkOpenBoostSessionsSeen(stamp: int)
      modifies this
      ensures rows == MarkSeen(old(rows), stamp)
    {
      for i := 0 to |rows|
        invariant |rows| == |old(rows)|
        invariant forall k :: 0 <= k < i ==> rows[k] == Seen(old(rows)[k], stamp)
        invariant forall k :: i <= k < |rows| ==> rows[k] == old(rows)[k]
      {
        if rows[i].endedAt.None? {
          rows := rows[i := rows[i].(lastSeenAt := Some(stamp))];
        }
      }
    }

    method CloseInterruptedBoostSessions() returns (closed: nat)
      modifies this
      ensures rows == EndInterrupted(old(rows)) && OpenRows(rows) == []
      ensures closed == |OpenRows(old(rows))|
    {
      closed := 0;
      for i := 0 to |rows|
        invariant |rows| == |old(rows)|
        invariant forall k :: 0 <= k < i ==> rows[k] == InterruptedEnd(old(rows)[k])
        invariant forall k :: i <= k < |rows| ==> rows[k] == old(rows)[k]
        invariant closed == |OpenRows(old(rows)[..i])|
      {
        assert old(rows)[..i + 1][..i] == old(rows)[..i];
        if rows[i].endedAt.None? {
          var seen := if rows[i].lastSeenAt.Some? then rows[i].lastSeenAt.value else rows[i].startedAt;
          var end := if seen > rows[i].startedAt then seen else rows[i].startedAt;
          rows := rows[i := rows[i].(endedAt := Some(end), stopReason := Some(Interrupted))];
          closed := closed + 1;
        }
      }
      assert old(rows)[..|rows|] == old(rows);
      NoneOpen(rows);
    }
  }

  lemma {:induction false} NoneOpen(rows: seq<Session>)
    requires forall k :: 0 <= k < |rows| ==> !IsOpen(rows[k])
    ensures OpenRows(rows) == []
  {
    if rows != [] { NoneOpen(rows[..|rows| - 1]); }
  }

  // Ending nothing changes nothing.
  lemma {:induction false} NoOpenRows(rows: seq<Session>, reason: StopReason, at: int)
    ensures OpenRows(rows) == [] ==> EndAll(rows, reason, at) == rows
  {
    if rows != [] {
      var front := rows[..|rows| - 1];
      NoOpenRows(front, reason, at);
      if OpenRows(rows) == [] {
        assert EndAll(front, reason, at) == front;
        assert forall i :: 0 <= i < |front| ==> Ended(rows[i], reason, at) == EndAll(front, reason, at)[i];
      }
    }
  }

  // ---- Counted time ----------------------------------------------------------------------

  function Overlap(row: Session, rangeStart: int, rangeEnd: int): nat
  {
    var end := if row.endedAt.Some? then row.endedAt.value else rangeEnd;
    Max(0, Min(end, rangeEnd) - Max(row.startedAt, rangeStart))
  }

  function SumOverlap(rows: seq<Session>, rangeStart: int, rangeEnd: int): nat
  {
    if rows == [] then 0
    else SumOverlap(rows[..|rows| - 1], rangeStart, rangeEnd) + Overlap(rows[|rows| - 1], rangeStart, rangeEnd)
  }

  // Disjoint sessions never count more than the elapsed part of the range.
  lemma {:induction false} SumWithinRange(rows: seq<Session>, rangeStart: int, now: int)
    requires Chronological(rows, now)
    ensures SumOverlap(rows, rangeStart, now) <= Max(0, now - rangeStart)
    ensures rows != [] && rows[|rows| - 1].endedAt.Some? ==>
              SumOverlap(rows, rangeStart, now) <= Max(0, rows[|rows| - 1].endedAt.value - rangeStart)
  {
    if rows != [] {
      var front, last := rows[..|rows| - 1], rows[|rows| - 1];
      SumWithinRange(front, rangeStart, now);
      if front != [] {
        assert front[|front| - 1] == rows[|rows| - 2];
      }
      assert SumOverlap(front, rangeStart, now) <= Max(0, last.startedAt - rangeStart);
    }
  }

  // An instant at which some session runs; an open one runs until now.
  predicate RunsAt(row: Session, instant: int, now: int)
  {
    row.startedAt <= instant < if row.endedAt.Some? then row.endedAt.value else now
  }

  // The instants from one moment up to another.
  function Instants(from: int, to: int): (instants: set<int>)
    ensures forall t :: t in instants <==> from <= t < to
    ensures |instants| == Max(0, to - from)
    decreases Max(0, to - from)
  {
    if from < to then Instants(from, to - 1) + {to - 1} else {}
  }

  ghost function RunningInstants(rows: seq<Session>, rangeStart: int, now: int): set<int>
  {
    set t | t in Instants(rangeStart, now) && exists row :: row in rows && RunsAt(row, t, now)
  }

  // What is counted is exactly the milliseconds of the range in which a session
  // was running: none is counted twice and none is left out.
  lemma {:induction false} SumIsRunningTime(rows: seq<Session>, rangeStart: int, now: int)
    requires Chronological(rows, now)
    ensures SumOverlap(rows, rangeStart, now) == |RunningInstants(rows, rangeStart, now)|
  {
    if rows == [] {
      assert RunningInstants(rows, rangeStart, now) == {};
    } else {
      var front, last := rows[..|rows| - 1], rows[|rows| - 1];
      SumIsRunningTime(front, rangeStart, now);
      LastRunsApart(rows, rangeStart, now);
      hide RunningInstants, Instants, Chronological;
    }
  }

  // The instants of one row within the range.
  function OwnInstants(row: Session, rangeStart: int, now: int): (own: set<int>)
    ensures |own| == Overlap(row, rangeStart, now)
    ensures forall t :: t in own <==> rangeStart <= t < now && RunsAt(row, t, now)
  {
    Instants(Max(row.startedAt, rangeStart), Min(if row.endedAt.Some? then row.endedAt.value else now, now))
  }

  // The last session runs at instants of its own.
  lemma LastRunsApart(rows: seq<Session>, rangeStart: int, now: int)
    requires Chronological(rows, now) && rows != []
    ensures var front, last := rows[..|rows| - 1], rows[|rows| - 1];
            |RunningInstants(rows, rangeStart, now)| == |RunningInstants(front, rangeStart, now)| + Overlap(last, rangeStart, now)
  {
    var front, last := rows[..|rows| - 1], rows[|rows| - 1];
    var own, before := OwnInstants(last, rangeStart, now), RunningInstants(front, rangeStart, now);
    assert rows == front + [last];
    LastAddsItsOwn(front, last, rangeStart, now);
    forall t | t in before
      ensures t < last.startedAt
    {
      RunsBeforeLast(rows, rangeStart, now, t);
    }
    hide RunningInstants, Overlap, Chronological, Instants;
    CountApart(before, own, last.startedAt);
  }

  lemma CountApart(early: set<int>, late: set<int>, from: int)
    requires (forall t :: t in early ==> t < from) && (forall t :: t in late ==> from <= t)
    ensures |early + late| == |early| + |late|
  {
    forall t | t in early
      ensures t !in late
    {}
    assert early * late == {};
    assert |early + late| == |early| + |late| - |early * late|;
  }

  lemma RunsBeforeLast(rows: seq<Session>, rangeStart: int, now: int, instant: int)
    requires Chronological(rows, now) && rows != [] && instant in RunningInstants(rows[..|rows| - 1], rangeStart, now)
    ensures instant < rows[|rows| - 1].startedAt
  {
    hide Instants;
    var row :| row in rows[..|rows| - 1] && RunsAt(row, instant, now);
    var i :| 0 <= i < |rows| - 1 && rows[i] == row;
  }

  lemma LastAddsItsOwn(front: seq<Session>, last: Session, rangeStart: int, now: int)
    ensures RunningInstants(front + [last], rangeStart, now)
         == RunningInstants(front, rangeStart, now) + OwnInstants(last, rangeStart, now)
  {
    hide Instants, OwnInstants;
    var rows := front + [last];
    assert last in rows;
    assert forall row :: row in rows <==> row in front || row == last;
  }

  // An earlier range start never counts less.
  lemma {:induction false} SumGrowsWithRange(rows: seq<Session>, early: int, late: int, now: int)
    requires early <= late
    ensures SumOverlap(rows, late, now) <= SumOverlap(rows, early, now)
  {
    if rows != [] {
      SumGrowsWithRange(rows[..|rows| - 1], early, late, now);
    }
  }

  lemma {:induction false} SumConcat(a: seq<Session>, b: seq<Session>, rangeStart: int, rangeEnd: int)
    ensures SumOverlap(a + b, rangeStart, rangeEnd)
         == SumOverlap(a, rangeStart, rangeEnd) + SumOverlap(b, rangeStart, rangeEnd)
  {
    if b == [] {
      assert a + b == a;
    } else {
      assert (a + b)[..|a + b| - 1] == a + b[..|b| - 1];
      SumConcat(a, b[..|b| - 1], rangeStart, rangeEnd);
    }
  }

  const DAY := 86_400_000

  function StartOfDay(now: int): int { now / DAY * DAY }

  // Weeks start on Monday; day zero of the epoch was a Thursday.
  function StartOfWeek(now: int): int
  {
    var day := now / DAY;
    (day - ((day + 4) % 7 + 6) % 7) * DAY
  }

  lemma RangesNest(now: int)
    ensures now - DAY < StartOfDay(now) <= now
    ensures StartOfDay(now) - 6 * DAY <= StartOfWeek(now) <= StartOfDay(now)
    ensures (StartOfWeek(now) / DAY + 4) % 7 == 1
    ensures StartOfDay(now) % DAY == 0 && StartOfWeek(now) % DAY == 0
  {
    var day := now / DAY;
    assert StartOfWeek(now) == (day - ((day + 4) % 7 + 6) % 7) * DAY;
  }

  // Counted daily time is at most weekly time, and neither exceeds what has
  // elapsed of its range.
  lemma DailyWithinWeekly(rows: seq<Session>, now: int)
    requires Chronological(rows, now)
    ensures SumOverlap(rows, StartOfDay(now), now) <= SumOverlap(rows, StartOfWeek(now), now)
    ensures SumOverlap(rows, StartOfDay(now), now) <= now - StartOfDay(now)
    ensures SumOverlap(rows, StartOfWeek(now), now) <= now - StartOfWeek(now)
  {
    hide StartOfDay, StartOfWeek;
    RangesNest(now);
    SumGrowsWithRange(rows, StartOfWeek(now), StartOfDay(now), now);
    SumWithinRange(rows, StartOfDay(now), now);
    SumWithinRange(rows, StartOfWeek(now), now);
  }

  // ---- Continuous time -------------------------------------------------------------------

  // A session that was only rotated away at this very instant.
  predicate Extends(row: Session, at: int)
  {
    row.endedAt == Some(at) && row.stopReason == Some(SelectionChanged) && row.startedAt < at
  }

  // An unbroken chain of rotations leads from one instant back to an earlier one.
  ghost predicate Unbroken(rows: seq<Session>, from: int, to: int)
    decreases from - to
  {
    to <= from
    && (from == to || exists row :: row in rows && Extends(row, from) && to <= row.startedAt && Unbroken(rows, row.startedAt, to))
  }

  ghost predicate CannotExtend(rows: seq<Session>, at: int)
  {
    forall row :: row in rows ==> !Extends(row, at)
  }

  // The start of the activity that is still going on: the far end of a
  // maximal unbroken chain from the first open session.
  ghost predicate ContinuousSince(rows: seq<Session>, since: int)
  {
    && OpenRows(rows) != []
    && Unbroken(rows, FirstStart(OpenRows(rows)), since)
    && CannotExtend(rows, since)
  }

  function FirstStart(rows: seq<Session>): int
    requires rows != []
  {
    if |rows| == 1 then rows[0].startedAt
    else Min(FirstStart(rows[..|rows| - 1]), rows[|rows| - 1].startedAt)
  }

  predicate LaterStart(a: Session, b: Session) { a.startedAt > b.startedAt }

  function ClosedRows(rows: seq<Session>): seq<Session>
  {
    if rows == [] then []
    else ClosedRows(rows[..|rows| - 1]) + if IsOpen(rows[|rows| - 1]) then [] else [rows[|rows| - 1]]
  }

  lemma {:induction false} ClosedRowsAreRows(rows: seq<Session>)
    ensures forall row :: row in ClosedRows(rows) <==> row in rows && !IsOpen(row)
    ensures forall row :: row in OpenRows(rows) <==> row in rows && IsOpen(row)
  {
    if rows != [] {
      ClosedRowsAreRows(rows[..|rows| - 1]);
      assert rows == rows[..|rows| - 1] + [rows[|rows| - 1]];
    }
  }

  lemma UnbrokenSelf(rows: seq<Session>, at: int)
    ensures Unbroken(rows, at, at)
  {}

  lemma UnbrokenOneMore(rows: seq<Session>, from: int, at: int, row: Session)
    requires Unbroken(rows, from, at) && row in rows && Extends(row, at)
    ensures Unbroken(rows, from, row.startedAt)
    decreases from - at
  {
    if from == at {
      assert Unbroken(rows, row.startedAt, row.startedAt);
    } else {
      var first :| first in rows && Extends(first, from) && at <= first.startedAt && Unbroken(rows, first.startedAt, at);
      UnbrokenOneMore(rows, first.startedAt, at, row);
    }
  }

  // One pass over the closed sessions, latest start first, whatever the rows:
  // the chain it finds cannot be extended by any session.
  method ContinuousSessionMs(rows: seq<Session>, now: int) returns (ms: nat, ghost since: int)
    ensures OpenRows(rows) == [] ==> ms == 0
    ensures OpenRows(rows) != [] ==> ContinuousSince(rows, since) && ms == Max(0, now - since)
  {
    hide OpenRows, ClosedRows, FirstStart, Sorting.Sort, Unbroken;
    var open := OpenRows(rows);
    if open == [] { return 0, 0; }
    assert Unbroken(rows, FirstStart(open), FirstStart(open)) by { UnbrokenSelf(rows, FirstStart(open)); }
    var startedAt := FirstStart(open);
    var previous := Sorting.Sort(ClosedRows(rows), LaterStart);
    Sorting.SortOrders(ClosedRows(rows), LaterStart);
    ClosedRowsAreRows(rows);
    for i := 0 to |previous|
      invariant Unbroken(rows, FirstStart(open), startedAt)
      invariant forall k :: 0 <= k < i ==> !Extends(previous[k], startedAt)
    {
      var session := previous[i];
      if session.stopReason == Some(SelectionChanged) && session.endedAt == Some(startedAt) && session.startedAt < startedAt {
        assert session in ClosedRows(rows);
        UnbrokenOneMore(rows, FirstStart(open), startedAt, session);
        forall k | 0 <= k < i
          ensures !Extends(previous[k], session.startedAt)
        {
          assert !LaterStart(session, previous[k]);
        }
        startedAt := session.startedAt;
      }
    }
    since := startedAt;
    forall row | row in rows
      ensures !Extends(row, since)
    {
      assert row in previous || IsOpen(row);
    }
    return Max(0, now - startedAt), since;
  }

  // ---- Caps do not notice rotations ----------------------------------------------------------

  // In rows that follow one another at most one session ends a chain link at an
  // instant, so the maximal chain is unique.
  lemma OneExtender(rows: seq<Session>, now: int, a: Session, b: Session, at: int)
    requires Chronological(rows, now) && a in rows && b in rows && Extends(a, at) && Extends(b, at)
    ensures a == b
  {
    var i :| 0 <= i < |rows| && rows[i] == a;
    var j :| 0 <= j < |rows| && rows[j] == b;
    assert !(i < j) && !(j < i);
  }

  lemma {:induction false} MaximalChainIsUnique(rows: seq<Session>, now: int, from: int, a: int, b: int)
    requires Chronological(rows, now)
    requires Unbroken(rows, from, a) && CannotExtend(rows, a)
    requires Unbroken(rows, from, b) && CannotExtend(rows, b)
    ensures a == b
    decreases Max(0, from - a)
  {
    if from != a {
      var x :| x in rows && Extends(x, from) && a <= x.startedAt && Unbroken(rows, x.startedAt, a);
      assert from != b;
      var y :| y in rows && Extends(y, from) && b <= y.startedAt && Unbroken(rows, y.startedAt, b);
      OneExtender(rows, now, x, y, from);
      MaximalChainIsUnique(rows, now, x.startedAt, a, b);
    }
  }

  lemma {:induction false} UnbrokenInMore(rows: seq<Session>, more: seq<Session>, from: int, to: int)
    requires Unbroken(rows, from, to) && forall row :: row in rows && !IsOpen(row) ==> row in more
    ensures Unbroken(more, from, to)
    decreases from - to
  {
    if from != to {
      var row :| row in rows && Extends(row, from) && to <= row.startedAt && Unbroken(rows, row.startedAt, to);
      UnbrokenInMore(rows, more, row.startedAt, to);
    }
  }

  // The rows a selection change at an instant leaves.
  function Rotated(rows: seq<Session>, at: int, target: Target): seq<Session>
  {
    EndAll(rows, SelectionChanged, at) + [Opened(at, target)]
  }

  lemma OpenIsLast(rows: seq<Session>, now: int)
    requires Chronological(rows, now) && OpenRows(rows) != []
    ensures |rows| > 0 && IsOpen(rows[|rows| - 1])
    ensures forall i :: 0 <= i < |rows| - 1 ==> !IsOpen(rows[i])
    ensures OpenRows(rows) == [rows[|rows| - 1]]
  {
    NoneOpen(rows[..|rows| - 1]);
  }

  lemma RotationShape(rows: seq<Session>, at: int, target: Target)
    requires Chronological(rows, at) && OpenRows(rows) != []
    ensures |rows| > 0 && IsOpen(rows[|rows| - 1])
    ensures var front, last := rows[..|rows| - 1], rows[|rows| - 1];
            Rotated(rows, at, target) == front + [Ended(last, SelectionChanged, at)] + [Opened(at, target)]
  {
    hide OpenRows, Chronological;
    OpenIsLast(rows, at);
    var front, last := rows[..|rows| - 1], rows[|rows| - 1];
    assert forall i :: 0 <= i < |front| ==> Ended(rows[i], SelectionChanged, at) == front[i];
    assert EndAll(rows, SelectionChanged, at) == front + [Ended(last, SelectionChanged, at)];
  }

  lemma RotationIsAStep(rows: seq<Session>, at: int, now: int, target: Target)
    requires Chronological(rows, at) && at <= now
    ensures Chronological(Rotated(rows, at, target), now)
    ensures OpenRows(Rotated(rows, at, target)) == [Opened(at, target)]
  {
    var rotated := Rotated(rows, at, target);
    assert forall i :: 0 <= i < |rows| ==> RowFits(rows[i], at);
    assert rotated[..|rotated| - 1] == EndAll(rows, SelectionChanged, at);
    NoneOpen(rotated[..|rotated| - 1]);
  }

  // A selection change at any instant of the open session leaves the start of
  // the continuous activity where it was.
  lemma RotationKeepsContinuousTime(rows: seq<Session>, at: int, now: int, target: Target, before: int, after: int)
    requires Chronological(rows, at) && OpenRows(rows) != [] && at <= now
    requires ContinuousSince(rows, before) && ContinuousSince(Rotated(rows, at, target), after)
    ensures before == after
  {
    hide Unbroken, Rotated, OpenRows, Chronological;
    RotationShape(rows, at, target);
    RotationIsAStep(rows, at, now, target);
    OpenIsLast(rows, at);
    var rotated := Rotated(rows, at, target);
    var last := rows[|rows| - 1];
    var closed := Ended(last, SelectionChanged, at);
    var front := rows[..|rows| - 1];
    assert rows == front + [last];
    UnbrokenInMore(rows, rotated, last.startedAt, before);
    UnbrokenBounds(rows, last.startedAt, before);
    LastStarted(rows, at);
    if last.startedAt < at {
      UnbrokenFirst(rotated, closed, at, before);
    }
    forall row | row in rotated
      ensures !Extends(row, before)
    {
      assert row in front || row == closed || row == Opened(at, target);
    }
    MaximalChainIsUnique(rotated, now, at, before, after);
  }

  lemma LastStarted(rows: seq<Session>, now: int)
    requires Chronological(rows, now) && rows != []
    ensures rows[|rows| - 1].startedAt <= now
  {
    assert RowFits(rows[|rows| - 1], now);
  }

  lemma UnbrokenFirst(rows: seq<Session>, first: Session, from: int, to: int)
    requires first in rows && Extends(first, from) && Unbroken(rows, first.startedAt, to)
    ensures Unbroken(rows, from, to)
  {}

  lemma UnbrokenBounds(rows: seq<Session>, from: int, to: int)
    requires Unbroken(rows, from, to)
    ensures to <= from
  {}

  // A real stop does: whatever is boosted later has begun only then.
  lemma StopBreaksContinuity(rows: seq<Session>, stoppedAt: int, reason: StopReason, restartedAt: int, target: Target, since: int)
    requires Chronological(rows, stoppedAt) && OpenRows(rows) != [] && reason != SelectionChanged
    requires rows[|rows| - 1].startedAt < restartedAt && stoppedAt <= restartedAt
    requires var restarted := Next(Next(rows, NotBoosting(stoppedAt, reason)), Boosting(restartedAt, target));
             ContinuousSince(restarted, since)
    ensures since == restartedAt
  {
    hide *;
    RestartShape(rows, stoppedAt, reason, restartedAt, target);
    EndedBeforeLast(rows, stoppedAt);
    BrokenChain(rows, stoppedAt, reason, restartedAt, target, since);
  }

  lemma EndedBeforeLast(rows: seq<Session>, now: int)
    requires Chronological(rows, now)
    ensures forall i :: 0 <= i < |rows| - 1 ==> rows[i].endedAt.Some? && rows[i].endedAt.value <= rows[|rows| - 1].startedAt
  {
    var last := |rows| - 1;
    forall i | 0 <= i < last
      ensures rows[i].endedAt.Some? && rows[i].endedAt.value <= rows[last].startedAt
    {
      assert rows[last] in rows;
    }
  }

  lemma BrokenChain(rows: seq<Session>, stoppedAt: int, reason: StopReason, restartedAt: int, target: Target, since: int)
    requires rows != [] && IsOpen(rows[|rows| - 1]) && reason != SelectionChanged && rows[|rows| - 1].startedAt < restartedAt
    requires forall i :: 0 <= i < |rows| - 1 ==> rows[i].endedAt.Some? && rows[i].endedAt.value <= rows[|rows| - 1].startedAt
    requires ContinuousSince(rows[..|rows| - 1] + [Ended(rows[|rows| - 1], reason, stoppedAt)] + [Opened(restartedAt, target)], since)
    ensures since == restartedAt
  {
    var front, closed, begun := rows[..|rows| - 1], Ended(rows[|rows| - 1], reason, stoppedAt), Opened(restartedAt, target);
    hide OpenRows, Unbroken;
    OpenedLast(front + [closed], begun);
    NoneExtends(front, closed, begun, restartedAt);
    UnextendedChain(front + [closed] + [begun], restartedAt, since);
  }

  lemma OpenedLast(closed: seq<Session>, begun: Session)
    requires IsOpen(begun) && forall i :: 0 <= i < |closed| ==> !IsOpen(closed[i])
    ensures OpenRows(closed + [begun]) == [begun]
  {
    NoneOpen(closed);
    assert (closed + [begun])[..|closed|] == closed;
  }

  lemma NoneExtends(front: seq<Session>, closed: Session, begun: Session, at: int)
    requires forall i :: 0 <= i < |front| ==> front[i].endedAt.Some? && front[i].endedAt.value < at
    requires closed.stopReason != Some(SelectionChanged) && IsOpen(begun)
    ensures CannotExtend(front + [closed] + [begun], at)
  {
    var rows := front + [closed] + [begun];
    forall row | row in rows
      ensures !Extends(row, at)
    {
      assert row in front || row == closed || row == begun;
    }
  }

  // A chain that nothing extends at its end stops there.
  lemma UnextendedChain(rows: seq<Session>, from: int, since: int)
    requires Unbroken(rows, from, since) && CannotExtend(rows, from)
    ensures since == from
  {}

  lemma RestartShape(rows: seq<Session>, stoppedAt: int, reason: StopReason, restartedAt: int, target: Target)
    requires Chronological(rows, stoppedAt) && OpenRows(rows) != []
    ensures rows != [] && IsOpen(rows[|rows| - 1]) && forall i :: 0 <= i < |rows| - 1 ==> !IsOpen(rows[i])
    ensures Next(Next(rows, NotBoosting(stoppedAt, reason)), Boosting(restartedAt, target))
         == rows[..|rows| - 1] + [Ended(rows[|rows| - 1], reason, stoppedAt)] + [Opened(restartedAt, target)]
  {
    OpenIsLast(rows, stoppedAt);
    hide Chronological, OpenRows, EndAll;
    StoppedShape(rows, reason, stoppedAt);
    var stopped := EndAll(rows, reason, stoppedAt);
    NoOpenRows(stopped, SelectionChanged, restartedAt);
    assert !AlreadyRuns(stopped, target);
    assert Next(stopped, Boosting(restartedAt, target)) == stopped + [Opened(restartedAt, target)];
  }

  lemma StoppedShape(rows: seq<Session>, reason: StopReason, at: int)
    requires rows != [] && forall i :: 0 <= i < |rows| - 1 ==> !IsOpen(rows[i])
    ensures EndAll(rows, reason, at) == rows[..|rows| - 1] + [Ended(rows[|rows| - 1], reason, at)]
    ensures OpenRows(EndAll(rows, reason, at)) == []
  {
    NoneOpen(EndAll(rows, reason, at));
    hide OpenRows;
    var front := rows[..|rows| - 1];
    assert forall i :: 0 <= i < |front| ==> Ended(rows[i], reason, at) == front[i];
  }

  // Nor does it change what any range counts.
  lemma RotationKeepsSums(rows: seq<Session>, at: int, now: int, target: Target, rangeStart: int)
    requires Chronological(rows, at) && OpenRows(rows) != [] && at <= now
    ensures SumOverlap(Rotated(rows, at, target), rangeStart, now) == SumOverlap(rows, rangeStart, now)
  {
    RotationShape(rows, at, target);
    var front, last := rows[..|rows| - 1], rows[|rows| - 1];
    var closed, rotatedIn := Ended(last, SelectionChanged, at), Opened(at, target);
    assert RowFits(last, at);
    SumConcat(front + [closed], [rotatedIn], rangeStart, now);
    SumConcat(front, [closed], rangeStart, now);
    assert [rotatedIn][..0] == [] && [closed][..0] == [];
    assert SumOverlap([rotatedIn], rangeStart, now) == Overlap(rotatedIn, rangeStart, now);
    assert SumOverlap([closed], rangeStart, now) == Overlap(closed, rangeStart, now);
  }

  // ---- The caps --------------------------------------------------------------------------

  datatype Cap = SessionLimit | DailyLimit | WeeklyLimit

  datatype Policy = Policy(maxSession: Option<nat>, maxDaily: Option<nat>, maxWeekly: Option<nat>)

  predicate Reached(consumedMs: nat, limitMinutes: Option<nat>)
  {
    limitMinutes.Some? && limitMinutes.value * 60_000 <= consumedMs
  }

  // That is as soon as so many whole minutes have been consumed.
  lemma ReachedInMinutes(consumedMs: nat, limitMinutes: Option<nat>)
    ensures Reached(consumedMs, limitMinutes) <==> limitMinutes.Some? && limitMinutes.value <= consumedMs / 60_000
  {}

  // The first limit that is reached, the session limit before the daily one
  // before the weekly one.
  method ExceededCap(rows: seq<Session>, policy: Policy, now: int) returns (cap: Option<Cap>, ghost since: int)
    ensures OpenRows(rows) != [] ==> ContinuousSince(rows, since)
    ensures var sessionMs := if OpenRows(rows) == [] then 0 else Max(0, now - since);
            var daily := Reached(SumOverlap(rows, StartOfDay(now), now), policy.maxDaily);
            var weekly := Reached(SumOverlap(rows, StartOfWeek(now), now), policy.maxWeekly);
            && (cap == Some(SessionLimit) <==> Reached(sessionMs, policy.maxSession))
            && (cap == Some(DailyLimit) <==> !Reached(sessionMs, policy.maxSession) && daily)
            && (cap == Some(WeeklyLimit) <==> !Reached(sessionMs, policy.maxSession) && !daily && weekly)
  {
    hide SumOverlap, ContinuousSince, StartOfDay, StartOfWeek;
    var sessionMs, start := ContinuousSessionMs(rows, now);
    since := start;
    var dailyMs := SumOverlap(rows, StartOfDay(now), now);
    var weeklyMs := SumOverlap(rows, StartOfWeek(now), now);
    if Reached(sessionMs, policy.maxSession) { return Some(SessionLimit), since; }
    if Reached(dailyMs, policy.maxDaily) { return Some(DailyLimit), since; }
    if Reached(weeklyMs, policy.maxWeekly) { return Some(WeeklyLimit), since; }
    return None, since;
  }
}
