// The coordinator that starts and pauses accounts by schedule, and the markers
// it persists (apps/server/src/steam/schedule-coordinator.ts and
// schedule-repository.ts). Operations of one account run one at a time, so the
// rows a transition reads are the rows its transaction finds.
module ScheduleCoordinator {
  import opened Numbers
  import opened Results
  import opened ScheduleWindows

  datatype Row = Row(
    accountId: nat,
    schedule: Schedule,
    lastStarted: Option<WindowId>,
    lastStopped: Option<WindowId>)

  type Rows = map<nat, Row>

  datatype OpenWindow = OpenWindow(scheduleId: nat, windowId: WindowId)

  ghost predicate WellKeyed(rows: Rows)
  {
    forall id :: id in rows ==> rows[id].schedule.id == id
  }

  predicate IsOpen(row: Row) { row.lastStarted.Some? && row.lastStarted != row.lastStopped }

  // The windows the persisted markers leave open for an account.
  ghost function OpenSet(rows: Rows, accountId: nat): set<OpenWindow>
  {
    set id | id in rows && rows[id].accountId == accountId && IsOpen(rows[id])
      :: OpenWindow(id, rows[id].lastStarted.value)
  }

  // ---- The repository --------------------------------------------------------------

  predicate Lists(windows: seq<OpenWindow>, id: nat)
  {
    exists k :: 0 <= k < |windows| && windows[k].scheduleId == id
  }

  // Every listed window is the last started one of a row of the account.
  predicate StopAllowed(rows: Rows, accountId: nat, windows: seq<OpenWindow>)
  {
    forall k :: 0 <= k < |windows| ==> StopMatches(rows, accountId, windows[k])
  }

  predicate StopMatches(rows: Rows, accountId: nat, w: OpenWindow)
  {
    w.scheduleId in rows && rows[w.scheduleId].accountId == accountId
    && rows[w.scheduleId].lastStarted == Some(w.windowId)
  }

  function StopListed(rows: Rows, windows: seq<OpenWindow>): Rows
  {
    map id | id in rows :: if Lists(windows, id) then rows[id].(lastStopped := rows[id].lastStarted) else rows[id]
  }

  predicate StartMatches(rows: Rows, accountId: nat, start: OpenWindow, expectedUpdatedAt: int)
  {
    start.scheduleId in rows && rows[start.scheduleId].accountId == accountId
    && rows[start.scheduleId].schedule.enabled
    && rows[start.scheduleId].schedule.updatedAt == expectedUpdatedAt
  }

  function StartRow(row: Row, windowId: WindowId): Row
  {
    row.(lastStarted := Some(windowId),
         lastStopped := if row.lastStopped == Some(windowId) then None else row.lastStopped)
  }

  // A commit skips the window it starts when the caller lists it as previous.
  function Others(windows: seq<OpenWindow>, start: OpenWindow): seq<OpenWindow>
  {
    if windows == [] then []
    else
      var last := windows[|windows| - 1];
      Others(windows[..|windows| - 1], start) + if last == start then [] else [last]
  }

  predicate CommitAllowed(rows: Rows, accountId: nat, start: OpenWindow, expectedUpdatedAt: int, previous: seq<OpenWindow>)
  {
    StopAllowed(rows, accountId, Others(previous, start)) && StartMatches(rows, accountId, start, expectedUpdatedAt)
  }

  function Committed(rows: Rows, start: OpenWindow, previous: seq<OpenWindow>): Rows
    requires start.scheduleId in rows
  {
    var stopped := StopListed(rows, Others(previous, start));
    stopped[start.scheduleId := StartRow(stopped[start.scheduleId], start.windowId)]
  }

  lemma OthersOfLonger(windows: seq<OpenWindow>, n: nat, start: OpenWindow)
    requires n < |windows|
    ensures Others(windows[..n + 1], start)
         == if windows[n] == start then Others(windows[..n], start) else Others(windows[..n], start) + [windows[n]]
  {
    assert windows[..n + 1][..n] == windows[..n];
    assert Others(windows[..n], start) + [] == Others(windows[..n], start);
  }

  lemma StopOneMore(rows: Rows, windows: seq<OpenWindow>, w: OpenWindow)
    requires w.scheduleId in rows
    ensures StopListed(rows, windows + [w])
         == StopListed(rows, windows)[w.scheduleId := rows[w.scheduleId].(lastStopped := rows[w.scheduleId].lastStarted)]
  {
    forall id | id in rows
      ensures Lists(windows + [w], id) <==> Lists(windows, id) || id == w.scheduleId
    {
      assert (windows + [w])[|windows|] == w;
      if k :| 0 <= k < |windows| && windows[k].scheduleId == id {
        assert (windows + [w])[k] == windows[k];
      }
    }
  }

  lemma StopOneMoreAllowed(rows: Rows, accountId: nat, windows: seq<OpenWindow>, w: OpenWindow)
    ensures StopAllowed(rows, accountId, windows + [w])
       <==> StopAllowed(rows, accountId, windows) && StopMatches(rows, accountId, w)
  {
    if StopAllowed(rows, accountId, windows + [w]) {
      assert (windows + [w])[|windows|] == w;
      forall k | 0 <= k < |windows|
        ensures StopMatches(rows, accountId, windows[k])
      {
        assert (windows + [w])[k] == windows[k];
      }
    }
  }

  lemma UnmatchedIsRefused(rows: Rows, accountId: nat, windows: seq<OpenWindow>, start: OpenWindow, w: OpenWindow)
    requires w in windows && w != start && !StopMatches(rows, accountId, w)
    ensures !StopAllowed(rows, accountId, Others(windows, start))
  {
    OthersDropsStart(windows, start);
    var others := Others(windows, start);
    var k :| 0 <= k < |others| && others[k] == w;
  }

  class ScheduleRepository {
    var rows: Rows
    // How many transactions failed that need not have.
    ghost var faults: nat

    // UPDATE ... WHERE id, account and last started window match.
    method StopRow(accountId: nat, w: OpenWindow) returns (changes: nat)
      modifies this`rows
      ensures changes == if StopMatches(old(rows), accountId, w) then 1 else 0
      ensures rows == if changes == 1
                      then old(rows)[w.scheduleId := old(rows)[w.scheduleId].(lastStopped := Some(w.windowId))]
                      else old(rows)
    {
      if StopMatches(rows, accountId, w) {
        rows := rows[w.scheduleId := rows[w.scheduleId].(lastStopped := Some(w.windowId))];
        return 1;
      }
      return 0;
    }

    // All rows or none: a rejected row, or a failing transaction, undoes the others.
    method MarkWindowsStopped(accountId: nat, windows: seq<OpenWindow>) returns (ok: bool)
      modifies this
      ensures ok ==> StopAllowed(old(rows), accountId, windows) && rows == StopListed(old(rows), windows)
      ensures !ok ==> rows == old(rows)
      ensures faults == old(faults) + if !ok && StopAllowed(old(rows), accountId, windows) then 1 else 0
    {
      var before := rows;
      for n := 0 to |windows|
        invariant faults == old(faults)
        invariant StopAllowed(before, accountId, windows[..n])
        invariant rows == StopListed(before, windows[..n])
      {
        assert windows[..n + 1] == windows[..n] + [windows[n]];
        var changes := StopRow(accountId, windows[n]);
        assert changes != 1 ==> !StopMatches(before, accountId, windows[n]);
        if changes != 1 {
          rows := before;
          return false;
        }
        StopOneMore(before, windows[..n], windows[n]);
      }
      assert windows[..|windows|] == windows;
      var fails: bool := *;
      if fails {
        rows := before;
        faults := faults + 1;
        return false;
      }
      return true;
    }

    // Inside a transaction: a refused row leaves the earlier ones stopped for the caller to undo.
    method StopOthers(accountId: nat, start: OpenWindow, previous: seq<OpenWindow>) returns (ok: bool)
      modifies this`rows
      ensures ok <==> StopAllowed(old(rows), accountId, Others(previous, start))
      ensures ok ==> rows == StopListed(old(rows), Others(previous, start))
    {
      ghost var before := rows;
      for n := 0 to |previous|
        invariant StopAllowed(before, accountId, Others(previous[..n], start))
        invariant rows == StopListed(before, Others(previous[..n], start))
      {
        OthersOfLonger(previous, n, start);
        if previous[n] == start { continue; }
        var changes := StopRow(accountId, previous[n]);
        if changes != 1 {
          UnmatchedIsRefused(before, accountId, previous, start, previous[n]);
          return false;
        }
        StopOneMore(before, Others(previous[..n], start), previous[n]);
        StopOneMoreAllowed(before, accountId, Others(previous[..n], start), previous[n]);
      }
      assert previous[..|previous|] == previous;
      return true;
    }

    method CommitStartedWindow(accountId: nat, start: OpenWindow, expectedUpdatedAt: int, previous: seq<OpenWindow>)
      returns (ok: bool)
      modifies this
      ensures ok ==> CommitAllowed(old(rows), accountId, start, expectedUpdatedAt, previous)
      ensures ok ==> rows == Committed(old(rows), start, previous)
      ensures !ok ==> rows == old(rows)
      ensures faults == old(faults) + if !ok && CommitAllowed(old(rows), accountId, start, expectedUpdatedAt, previous) then 1 else 0
    {
      var before := rows;
      var stopped := StopOthers(accountId, start, previous);
      if !stopped {
        rows := before;
        return false;
      }
      var fails: bool := *;
      if fails || !StartMatches(rows, accountId, start, expectedUpdatedAt) {
        if StartMatches(rows, accountId, start, expectedUpdatedAt) { faults := faults + 1; }
        rows := before;
        return false;
      }
      rows := rows[start.scheduleId := StartRow(rows[start.scheduleId], start.windowId)];
      return true;
    }
  }

  // ---- What a successful transition leaves ---------------------------------------------

  // The snapshot a tick reads: all rows of the account, once each.
  ghost predicate Snapshot(entries: seq<Row>, rows: Rows, accountId: nat)
  {
    && WellKeyed(rows)
    && (forall i, j :: 0 <= i < j < |entries| ==> entries[i].schedule.id != entries[j].schedule.id)
    && (forall i :: 0 <= i < |entries| ==>
          entries[i].schedule.id in rows && rows[entries[i].schedule.id] == entries[i] && entries[i].accountId == accountId)
    && (forall id :: id in rows && rows[id].accountId == accountId ==> InEntries(entries, id))
  }

  ghost predicate InEntries(entries: seq<Row>, id: nat)
  {
    exists i :: 0 <= i < |entries| && entries[i].schedule.id == id
  }

  function OpenWindows(entries: seq<Row>): seq<OpenWindow>
  {
    if entries == [] then []
    else
      var last := entries[|entries| - 1];
      OpenWindows(entries[..|entries| - 1])
      + if IsOpen(last) then [OpenWindow(last.schedule.id, last.lastStarted.value)] else []
  }

  function Schedules(entries: seq<Row>): seq<Schedule>
  {
    seq(|entries|, i requires 0 <= i < |entries| => entries[i].schedule)
  }

  lemma {:induction false} OpenWindowsOfEntries(entries: seq<Row>, w: OpenWindow)
    ensures w in OpenWindows(entries) <==>
              exists i :: 0 <= i < |entries| && IsOpen(entries[i])
                          && w == OpenWindow(entries[i].schedule.id, entries[i].lastStarted.value)
  {
    if entries != [] {
      var front := entries[..|entries| - 1];
      OpenWindowsOfEntries(front, w);
      if w in OpenWindows(front) {
        var i :| 0 <= i < |front| && IsOpen(front[i]) && w == OpenWindow(front[i].schedule.id, front[i].lastStarted.value);
        assert entries[i] == front[i];
      }
      if i :| 0 <= i < |entries| && IsOpen(entries[i])
              && w == OpenWindow(entries[i].schedule.id, entries[i].lastStarted.value) {
        if i < |front| {
          assert front[i] == entries[i];
        }
      }
    }
  }

  lemma OpenWindowsAreOpenSet(entries: seq<Row>, rows: Rows, accountId: nat)
    requires Snapshot(entries, rows, accountId)
    ensures forall w :: w in OpenWindows(entries) <==> w in OpenSet(rows, accountId)
  {
    forall w
      ensures w in OpenWindows(entries) <==> w in OpenSet(rows, accountId)
    {
      OpenWindowsOfEntries(entries, w);
      if w in OpenSet(rows, accountId) {
        assert InEntries(entries, w.scheduleId);
        var i :| 0 <= i < |entries| && entries[i].schedule.id == w.scheduleId;
        assert rows[w.scheduleId] == entries[i];
      }
    }
  }

  lemma {:induction false} OthersDropsStart(windows: seq<OpenWindow>, start: OpenWindow)
    ensures forall w :: w in Others(windows, start) <==> w in windows && w != start
  {
    if windows != [] {
      OthersDropsStart(windows[..|windows| - 1], start);
      assert windows == windows[..|windows| - 1] + [windows[|windows| - 1]];
    }
  }

  // Only markers of this account change, and nothing but markers.
  ghost predicate KeepsOthers(before: Rows, after: Rows, accountId: nat)
  {
    && after.Keys == before.Keys
    && forall id :: id in before ==>
         && after[id].accountId == before[id].accountId && after[id].schedule == before[id].schedule
         && (before[id].accountId != accountId ==> after[id] == before[id])
  }

  lemma StopKeepsOthers(rows: Rows, accountId: nat, windows: seq<OpenWindow>)
    requires StopAllowed(rows, accountId, windows)
    ensures KeepsOthers(rows, StopListed(rows, windows), accountId)
  {
    forall id | id in rows && rows[id].accountId != accountId
      ensures !Lists(windows, id)
    {
      assert forall k :: 0 <= k < |windows| ==> StopMatches(rows, accountId, windows[k]);
    }
  }

  lemma CommitKeepsOthers(rows: Rows, accountId: nat, start: OpenWindow, expectedUpdatedAt: int, previous: seq<OpenWindow>)
    requires CommitAllowed(rows, accountId, start, expectedUpdatedAt, previous)
    ensures KeepsOthers(rows, Committed(rows, start, previous), accountId)
  {
    StopKeepsOthers(rows, accountId, Others(previous, start));
    hide StopListed;
  }

  // Stopping every other open window and starting the winner leaves exactly
  // the winner's window open, whatever was open before.
  lemma CommitLeavesOnlyWinner(rows: Rows, accountId: nat, entries: seq<Row>, start: OpenWindow)
    requires Snapshot(entries, rows, accountId) && start.scheduleId in rows && rows[start.scheduleId].accountId == accountId
    ensures WellKeyed(Committed(rows, start, OpenWindows(entries)))
    ensures OpenSet(Committed(rows, start, OpenWindows(entries)), accountId) == {start}
  {
    var open := OpenWindows(entries);
    var others := Others(open, start);
    OpenWindowsAreOpenSet(entries, rows, accountId);
    OthersDropsStart(open, start);
    var after := Committed(rows, start, open);
    forall id | id in rows && rows[id].accountId == accountId
      ensures IsOpen(after[id]) ==> id == start.scheduleId
    {
      if IsOpen(rows[id]) && id != start.scheduleId {
        var w := OpenWindow(id, rows[id].lastStarted.value);
        assert w in OpenSet(rows, accountId);
        assert w in others;
        var k :| 0 <= k < |others| && others[k] == w;
        assert Lists(others, id);
      }
    }
    assert after[start.scheduleId].lastStarted == Some(start.windowId);
    assert IsOpen(after[start.scheduleId]);
  }

  lemma StopLeavesNothingOpen(rows: Rows, accountId: nat, entries: seq<Row>)
    requires Snapshot(entries, rows, accountId)
    ensures WellKeyed(StopListed(rows, OpenWindows(entries)))
    ensures OpenSet(StopListed(rows, OpenWindows(entries)), accountId) == {}
  {
    var open := OpenWindows(entries);
    OpenWindowsAreOpenSet(entries, rows, accountId);
    var after := StopListed(rows, open);
    forall id | id in rows && rows[id].accountId == accountId
      ensures !IsOpen(after[id])
    {
      if IsOpen(rows[id]) {
        var w := OpenWindow(id, rows[id].lastStarted.value);
        assert w in OpenSet(rows, accountId);
        var k :| 0 <= k < |open| && open[k] == w;
        assert Lists(open, id);
      }
    }
  }

  // ---- Back-off ------------------------------------------------------------------------

  const INTERVAL := 60_000
  const MAX_RETRY_DELAY := 3_600_000

  datatype RetryKey = StartOf(windowId: WindowId) | PauseAll

  datatype FailedTransition = FailedTransition(key: RetryKey, failures: nat, retryAt: int)

  function RetryDelay(failures: nat): nat
    requires failures > 0
  {
    Min(INTERVAL * Power2(failures - 1), MAX_RETRY_DELAY)
  }

  // One minute at first, never shorter than before, sixty minutes from the
  // seventh failure on.
  lemma {:induction false} RetryDelayGrows(failures: nat)
    requires failures > 0
    ensures INTERVAL <= RetryDelay(failures) <= RetryDelay(failures + 1)
    ensures RetryDelay(failures) == MAX_RETRY_DELAY <==> failures >= 7
    decreases failures
  {
    assert Power2(failures) == 2 * Power2(failures - 1);
    SmallPowers();
    if failures >= 7 {
      Power2Grows(6, failures - 1);
    }
  }

  // ---- The coordinator --------------------------------------------------------------------

  datatype Outcome =
    | Held
    | BackingOff
    | Failed
    // A commit outside the guarded start was refused; the tick rejects.
    | Rejected
    | Done(started: bool)

  // Whether a transition has to start the winner's window, rather than find it
  // open and known, or open and adopted after a restart.
  predicate NeedsStart(rows: Rows, active: Option<WindowId>, start: OpenWindow)
  {
    var open := start.scheduleId in rows && IsOpen(rows[start.scheduleId])
                && rows[start.scheduleId].lastStarted == Some(start.windowId);
    !(open && (active.None? || active == Some(start.windowId)))
  }

  function Lookup<V>(m: map<nat, V>, key: nat): Option<V>
  {
    if key in m then Some(m[key]) else None
  }

  function StartWindow(winner: Contender): OpenWindow { OpenWindow(winner.windowId.scheduleId, winner.windowId) }

  // What a transition asks of the Steam worker.
  datatype Call = ApplyPreset(scheduleId: nat) | ResumeOrStart | Pause

  datatype SteamStart = Up | HeldMeanwhile | Broken

  // The transition a winner, or its absence, calls for.
  function KeyOf(winner: Option<Contender>): RetryKey
  {
    match winner case None => PauseAll case Some(w) => StartOf(w.windowId)
  }

  class Coordinator {
    const repository: ScheduleRepository
    var activeWindows: map<nat, WindowId>
    var failedTransitions: map<nat, FailedTransition>
    // Every call made, and how many calls, reads and event writes failed.
    ghost var calls: seq<Call>
    ghost var faults: nat

    constructor (repository: ScheduleRepository)
      ensures this.repository == repository && activeWindows == map[] && failedTransitions == map[]
      // A restart.
      ensures forall accountId :: At(accountId) == Moment(repository.rows, None)
    {
      this.repository := repository;
      activeWindows, failedTransitions := map[], map[];
    }

    // The same failing transition waits longer each time; another one starts over.
    method RecordTransitionFailure(accountId: nat, key: RetryKey, now: int)
      modifies this`failedTransitions
      ensures accountId in failedTransitions && failedTransitions[accountId].key == key
      ensures var failed := failedTransitions[accountId];
              && failed.failures == (if accountId in old(failedTransitions) && old(failedTransitions)[accountId].key == key
                                     then old(failedTransitions)[accountId].failures + 1 else 1)
              && failed.failures > 0 && failed.retryAt == now + RetryDelay(failed.failures)
      ensures forall other :: other != accountId ==> Lookup(failedTransitions, other) == Lookup(old(failedTransitions), other)
    {
      var failures := 1;
      if accountId in failedTransitions && failedTransitions[accountId].key == key {
        failures := failedTransitions[accountId].failures + 1;
      }
      failedTransitions := failedTransitions[accountId := FailedTransition(key, failures, now + RetryDelay(failures))];
    }

    method ClearAccount(accountId: nat)
      modifies this
      ensures Lookup(activeWindows, accountId) == None && Lookup(failedTransitions, accountId) == None
      ensures forall other :: other != accountId ==> Lookup(activeWindows, other) == Lookup(old(activeWindows), other)
      ensures forall other :: other != accountId ==> Lookup(failedTransitions, other) == Lookup(old(failedTransitions), other)
    {
      activeWindows := activeWindows - {accountId};
      failedTransitions := failedTransitions - {accountId};
    }

    // What the account looks like between ticks.
    function At(accountId: nat): Moment
      reads this, repository
    {
      Moment(repository.rows, Lookup(activeWindows, accountId))
    }

    // The markers and the memory agree on exactly the winner, or on nothing.
    ghost predicate Settled(accountId: nat, winner: Option<Contender>)
      reads this, repository
    {
      match winner
      case None => OpenSet(repository.rows, accountId) == {} && Lookup(activeWindows, accountId) == None
      case Some(w) => OpenSet(repository.rows, accountId) == {StartWindow(w)}
                      && Lookup(activeWindows, accountId) == Some(w.windowId)
    }

    twostate predicate Untouched(accountId: nat)
      reads this, repository
    {
      repository.rows == old(repository.rows) && Lookup(activeWindows, accountId) == old(Lookup(activeWindows, accountId))
    }

    twostate predicate NoFault()
      reads this, repository
    {
      faults == old(faults) && repository.faults == old(repository.faults)
    }

    // A failure of this very transition whose delay is not over yet.
    predicate Delayed(accountId: nat, key: RetryKey, now: int)
      reads this`failedTransitions
    {
      && accountId in failedTransitions
      && failedTransitions[accountId].key == key && now < failedTransitions[accountId].retryAt
    }

    // A call into the Steam worker succeeds or fails.
    method Ask(ghost call: Call) returns (ok: bool)
      modifies this`calls, this`faults
      ensures calls == old(calls) + [call] && faults == old(faults) + if ok then 0 else 1
    {
      ok := *;
      calls := calls + [call];
      if !ok { faults := faults + 1; }
    }

    // So does a read of the account's state, or the write of an event.
    method Access() returns (ok: bool)
      modifies this`faults
      ensures faults == old(faults) + if ok then 0 else 1
    {
      ok := *;
      if !ok { faults := faults + 1; }
    }

    // held and heldAfterPreset are what the two reads of the account's hold find,
    // desiredStopped what the read of its desired state finds.
    method TransitionAccount(
        accountId: nat, entries: seq<Row>, skipped: set<WindowId>, now: int, held: bool, heldAfterPreset: bool, desiredStopped: bool)
      returns (outcome: Outcome)
      requires Snapshot(entries, repository.rows, accountId)
      modifies this, repository
      ensures WellKeyed(repository.rows) && KeepsOthers(old(repository.rows), repository.rows, accountId)
      ensures outcome.Done? ==> Settled(accountId, SelectWinner(Schedules(entries), skipped, now))
      ensures outcome.Done? && SelectWinner(Schedules(entries), skipped, now).Some? ==>
                var start := StartWindow(SelectWinner(Schedules(entries), skipped, now).value);
                outcome.started == NeedsStart(old(repository.rows), Lookup(old(activeWindows), accountId), start)
      ensures !outcome.Done? ==> Untouched(accountId)
      // A hold is respected, a recent failure waited out, and nothing else but a
      // fault keeps the transition from being done.
      ensures held ==> outcome == Held && calls == old(calls)
      ensures outcome.Held? ==> held || heldAfterPreset
      ensures outcome.BackingOff? ==> old(Delayed(accountId, KeyOf(SelectWinner(Schedules(entries), skipped, now)), now))
      ensures NoFault() && !held && !heldAfterPreset ==>
                outcome.Done? || old(Delayed(accountId, KeyOf(SelectWinner(Schedules(entries), skipped, now)), now))
      ensures outcome.Failed? ==> Delayed(accountId, KeyOf(SelectWinner(Schedules(entries), skipped, now)), now)
      // What Steam was asked for in a transition that is done.
      ensures outcome.Done? ==>
                calls == old(calls)
                  + if SelectWinner(Schedules(entries), skipped, now).Some?
                    then if outcome.started
                         then [ApplyPreset(SelectWinner(Schedules(entries), skipped, now).value.windowId.scheduleId), ResumeOrStart]
                         else []
                    else if desiredStopped || old(Settled(accountId, None)) then [] else [Pause]
      ensures outcome.BackingOff? ==> calls == old(calls)
      // One turn of the history below.
      ensures SelectWinner(Schedules(entries), skipped, now).Some? ==>
                var start := StartWindow(SelectWinner(Schedules(entries), skipped, now).value);
                IsTurn(accountId, start, TurnOf(outcome), old(At(accountId)), At(accountId))
      ensures forall other :: other != accountId ==> Lookup(activeWindows, other) == Lookup(old(activeWindows), other)
    {
      if held { return Held; }
      var winner := SelectWinner(Schedules(entries), skipped, now);
      if winner.None? {
        outcome := StopAccountWindow(accountId, entries, now, desiredStopped);
        return;
      }
      WinnerIsAnEntry(entries, skipped, now);
      outcome := StartAccountWindow(accountId, entries, winner.value, now, heldAfterPreset);
    }

    // What the two branches for a winner share.
    twostate predicate WinnerServed(accountId: nat, winner: Contender, now: int, heldAfterPreset: bool, outcome: Outcome)
      reads this, repository
    {
      && (outcome.Held? ==> heldAfterPreset)
      && (outcome.BackingOff? ==> old(Delayed(accountId, StartOf(winner.windowId), now)) && calls == old(calls))
      && (NoFault() && !heldAfterPreset && !old(Delayed(accountId, StartOf(winner.windowId), now)) ==> outcome.Done?)
      && (outcome.Failed? ==> Delayed(accountId, StartOf(winner.windowId), now))
      && (outcome.Done? ==>
            calls == old(calls) + if outcome.started then [ApplyPreset(winner.windowId.scheduleId), ResumeOrStart] else [])
    }

    method StartAccountWindow(accountId: nat, entries: seq<Row>, winner: Contender, now: int, heldAfterPreset: bool)
      returns (outcome: Outcome)
      requires Snapshot(entries, repository.rows, accountId) && IsRowOf(entries, winner)
      modifies this, repository
      ensures WellKeyed(repository.rows) && KeepsOthers(old(repository.rows), repository.rows, accountId)
      ensures outcome.Done? ==> Settled(accountId, Some(winner))
      ensures outcome.Done? ==>
                outcome.started == NeedsStart(old(repository.rows), Lookup(old(activeWindows), accountId), StartWindow(winner))
      ensures !outcome.Done? ==> Untouched(accountId)
      ensures WinnerServed(accountId, winner, now, heldAfterPreset, outcome)
      ensures forall other :: other != accountId ==> Lookup(activeWindows, other) == Lookup(old(activeWindows), other)
    {
      var start := StartWindow(winner);
      var previousWindow := Lookup(activeWindows, accountId);
      var open := OpenWindows(entries);
      var previous := Others(open, start);
      OpenWindowsAreOpenSet(entries, repository.rows, accountId);
      OpenIsStarted(entries, repository.rows, accountId, start);
      var winnerIsOpen := start in open;
      if winnerIsOpen && (previousWindow.None? || previousWindow == Some(winner.windowId)) {
        outcome := AdoptWindow(accountId, entries, winner, previous);
      } else {
        outcome := ApplyWindow(accountId, entries, winner, previous, now, heldAfterPreset);
      }
    }

    // The window is open already: what else is open is stopped, and the memory
    // takes the window over.
    method AdoptWindow(accountId: nat, ghost entries: seq<Row>, winner: Contender, previous: seq<OpenWindow>)
      returns (outcome: Outcome)
      requires Snapshot(entries, repository.rows, accountId) && IsRowOf(entries, winner)
      requires previous == Others(OpenWindows(entries), StartWindow(winner)) && StartWindow(winner) in OpenWindows(entries)
      modifies this, repository
      ensures WellKeyed(repository.rows) && KeepsOthers(old(repository.rows), repository.rows, accountId)
      ensures outcome == Done(false) || outcome == Rejected
      ensures calls == old(calls) && (NoFault() ==> outcome.Done?)
      ensures outcome.Done? ==> Settled(accountId, Some(winner))
      ensures !outcome.Done? ==> Untouched(accountId)
      ensures forall other :: other != accountId ==> Lookup(activeWindows, other) == Lookup(old(activeWindows), other)
    {
      var start := StartWindow(winner);
      OpenWindowsAreOpenSet(entries, repository.rows, accountId);
      CommitLeavesOnlyWinner(repository.rows, accountId, entries, start);
      OthersTwice(OpenWindows(entries), start);
      CommitIsAllowed(repository.rows, accountId, entries, winner);
      CommitKeepsOthers(repository.rows, accountId, start, winner.updatedAt, previous);
      if previous != [] {
        var committed := repository.CommitStartedWindow(accountId, start, winner.updatedAt, previous);
        if !committed { return Rejected; }
      } else {
        OnlyWinnerOpen(repository.rows, accountId, OpenWindows(entries), start);
      }
      activeWindows := activeWindows[accountId := winner.windowId];
      return Done(false);
    }

    // The preset, another look at the hold, and the start itself.
    method StartInSteam(scheduleId: nat, heldAfterPreset: bool) returns (up: SteamStart)
      modifies this`calls, this`faults
      ensures up.Up? ==> calls == old(calls) + [ApplyPreset(scheduleId), ResumeOrStart]
      ensures up.HeldMeanwhile? ==> heldAfterPreset && calls == old(calls) + [ApplyPreset(scheduleId)]
      ensures faults == old(faults) + if up.Broken? then 1 else 0
      ensures heldAfterPreset ==> !up.Up?
    {
      var applied := Ask(ApplyPreset(scheduleId));
      if !applied { return Broken; }
      var readable := Access();
      if !readable { return Broken; }
      if heldAfterPreset { return HeldMeanwhile; }
      var resumed := Ask(ResumeOrStart);
      return if resumed then Up else Broken;
    }

    // The window has to be started: in Steam first, then in the markers, then in
    // the memory; whatever fails on the way is retried later.
    method ApplyWindow(accountId: nat, ghost entries: seq<Row>, winner: Contender, previous: seq<OpenWindow>, now: int, heldAfterPreset: bool)
      returns (outcome: Outcome)
      requires Snapshot(entries, repository.rows, accountId) && IsRowOf(entries, winner)
      requires previous == Others(OpenWindows(entries), StartWindow(winner))
      modifies this, repository
      ensures WellKeyed(repository.rows) && KeepsOthers(old(repository.rows), repository.rows, accountId)
      ensures outcome.Done? ==> outcome.started && Settled(accountId, Some(winner))
      ensures !outcome.Done? ==> Untouched(accountId)
      ensures WinnerServed(accountId, winner, now, heldAfterPreset, outcome)
      ensures outcome.Done? && NoFault() ==> accountId !in failedTransitions
      ensures forall other :: other != accountId ==> Lookup(activeWindows, other) == Lookup(old(activeWindows), other)
    {
      if Delayed(accountId, StartOf(winner.windowId), now) { return BackingOff; }
      hide Snapshot, IsRowOf, OpenSet, WellKeyed, Others, OpenWindows;
      var up := StartInSteam(winner.windowId.scheduleId, heldAfterPreset);
      if up.HeldMeanwhile? { return Held; }
      if up.Up? {
        var committed := CommitStart(accountId, entries, winner, previous);
        if committed {
          // A failing event write comes after the commit: it only delays a retry.
          var recorded := Access();
          if !recorded { RecordTransitionFailure(accountId, StartOf(winner.windowId), now); }
          return Done(true);
        }
      }
      RecordTransitionFailure(accountId, StartOf(winner.windowId), now);
      return Failed;
    }

    // The markers, then the memory; only a failing transaction stands in the way.
    method CommitStart(accountId: nat, ghost entries: seq<Row>, winner: Contender, previous: seq<OpenWindow>)
      returns (committed: bool)
      requires Snapshot(entries, repository.rows, accountId) && IsRowOf(entries, winner)
      requires previous == Others(OpenWindows(entries), StartWindow(winner))
      modifies this`activeWindows, this`failedTransitions, repository
      ensures WellKeyed(repository.rows) && KeepsOthers(old(repository.rows), repository.rows, accountId)
      ensures committed ==> Settled(accountId, Some(winner)) && failedTransitions == old(failedTransitions) - {accountId}
      ensures !committed ==> Untouched(accountId) && failedTransitions == old(failedTransitions)
      ensures repository.faults == old(repository.faults) + if committed then 0 else 1
      ensures forall other :: other != accountId ==> Lookup(activeWindows, other) == Lookup(old(activeWindows), other)
    {
      var start := StartWindow(winner);
      CommitLeavesOnlyWinner(repository.rows, accountId, entries, start);
      OthersTwice(OpenWindows(entries), start);
      CommitIsAllowed(repository.rows, accountId, entries, winner);
      CommitKeepsOthers(repository.rows, accountId, start, winner.updatedAt, previous);
      hide Snapshot, CommitAllowed, Committed, Others, OpenWindows, IsRowOf, OpenSet, StopAllowed, StopMatches;
      committed := repository.CommitStartedWindow(accountId, start, winner.updatedAt, previous);
      if committed {
        activeWindows := activeWindows[accountId := winner.windowId];
        failedTransitions := failedTransitions - {accountId};
      }
    }

    method StopAccountWindow(accountId: nat, entries: seq<Row>, now: int, desiredStopped: bool) returns (outcome: Outcome)
      requires Snapshot(entries, repository.rows, accountId)
      modifies this, repository
      ensures WellKeyed(repository.rows) && KeepsOthers(old(repository.rows), repository.rows, accountId)
      ensures outcome.Done? ==> Settled(accountId, None) && !outcome.started
      ensures !outcome.Done? ==> Untouched(accountId)
      ensures !outcome.Held? && (outcome.BackingOff? ==> old(Delayed(accountId, PauseAll, now)) && calls == old(calls))
      ensures NoFault() && !old(Delayed(accountId, PauseAll, now)) ==> outcome.Done?
      ensures outcome.Failed? ==> Delayed(accountId, PauseAll, now)
      ensures outcome.Done? ==> calls == old(calls) + if desiredStopped || old(Settled(accountId, None)) then [] else [Pause]
      ensures forall other :: other != accountId ==> Lookup(activeWindows, other) == Lookup(old(activeWindows), other)
    {
      var open := OpenWindows(entries);
      OpenWindowsAreOpenSet(entries, repository.rows, accountId);
      if accountId !in activeWindows && open == [] {
        return Done(false);
      }
      assert open != [] ==> open[0] in OpenSet(repository.rows, accountId);
      assert !Settled(accountId, None);
      if Delayed(accountId, PauseAll, now) { return BackingOff; }
      hide Snapshot, OpenWindows, OpenSet, WellKeyed;
      // Nothing to pause when the account is meant to be stopped.
      var paused := Access();
      if paused && !desiredStopped { paused := Ask(Pause); }
      if paused {
        var marked := MarkStopped(accountId, entries, open);
        if marked {
          var recorded := Access();
          if !recorded { RecordTransitionFailure(accountId, PauseAll, now); }
          return Done(false);
        }
      }
      RecordTransitionFailure(accountId, PauseAll, now);
      return Failed;
    }

    method MarkStopped(accountId: nat, ghost entries: seq<Row>, open: seq<OpenWindow>) returns (marked: bool)
      requires Snapshot(entries, repository.rows, accountId) && open == OpenWindows(entries)
      modifies this`activeWindows, this`failedTransitions, repository
      ensures WellKeyed(repository.rows) && KeepsOthers(old(repository.rows), repository.rows, accountId)
      ensures marked ==> Settled(accountId, None) && failedTransitions == old(failedTransitions) - {accountId}
      ensures !marked ==> Untouched(accountId) && failedTransitions == old(failedTransitions)
      ensures repository.faults == old(repository.faults) + if marked then 0 else 1
      ensures forall other :: other != accountId ==> Lookup(activeWindows, other) == Lookup(old(activeWindows), other)
    {
      StopLeavesNothingOpen(repository.rows, accountId, entries);
      SnapshotAllowsStop(repository.rows, accountId, entries);
      StopKeepsOthers(repository.rows, accountId, open);
      hide Snapshot, OpenWindows, OpenSet, StopAllowed, StopMatches, StopListed;
      marked := repository.MarkWindowsStopped(accountId, open);
      if marked {
        activeWindows := activeWindows - {accountId};
        failedTransitions := failedTransitions - {accountId};
      }
    }
  }

  lemma OpenIsStarted(entries: seq<Row>, rows: Rows, accountId: nat, start: OpenWindow)
    requires Snapshot(entries, rows, accountId) && InEntries(entries, start.scheduleId)
    ensures start in OpenWindows(entries) <==>
              start.scheduleId in rows && IsOpen(rows[start.scheduleId]) && rows[start.scheduleId].lastStarted == Some(start.windowId)
  {
    OpenWindowsAreOpenSet(entries, rows, accountId);
    assert start in OpenWindows(entries) <==> start in OpenSet(rows, accountId);
  }

  lemma {:induction false} OthersTwice(windows: seq<OpenWindow>, start: OpenWindow)
    ensures Others(Others(windows, start), start) == Others(windows, start)
  {
    if windows != [] {
      var n := |windows| - 1;
      OthersTwice(windows[..n], start);
      assert windows[..n + 1] == windows;
      OthersOfLonger(windows, n, start);
      var front := Others(windows[..n], start);
      if windows[n] != start {
        assert (front + [windows[n]])[..|front| + 1] == front + [windows[n]];
        assert (front + [windows[n]])[..|front|] == front;
        OthersOfLonger(front + [windows[n]], |front|, start);
      }
    }
  }

  lemma OnlyWinnerOpen(rows: Rows, accountId: nat, open: seq<OpenWindow>, start: OpenWindow)
    requires forall w :: w in open <==> w in OpenSet(rows, accountId)
    requires start in open && Others(open, start) == []
    ensures OpenSet(rows, accountId) == {start}
  {
    OthersDropsStart(open, start);
    forall w | w in OpenSet(rows, accountId)
      ensures w == start
    {
      assert w == start || w in Others(open, start);
    }
  }

  // The winner's schedule is enabled and has been edited when the winner says.
  ghost predicate IsRowOf(entries: seq<Row>, winner: Contender)
  {
    exists i :: 0 <= i < |entries| && entries[i].schedule.id == winner.windowId.scheduleId
                && entries[i].schedule.enabled && entries[i].schedule.updatedAt == winner.updatedAt
  }

  // What a transition asks of the markers it has just read is never refused.
  lemma SnapshotAllowsStop(rows: Rows, accountId: nat, entries: seq<Row>)
    requires Snapshot(entries, rows, accountId)
    ensures forall w :: w in OpenWindows(entries) ==> StopMatches(rows, accountId, w)
    ensures StopAllowed(rows, accountId, OpenWindows(entries))
  {
    OpenWindowsAreOpenSet(entries, rows, accountId);
  }

  lemma CommitIsAllowed(rows: Rows, accountId: nat, entries: seq<Row>, winner: Contender)
    requires Snapshot(entries, rows, accountId) && IsRowOf(entries, winner)
    ensures InEntries(entries, winner.windowId.scheduleId)
    ensures var start := StartWindow(winner);
            CommitAllowed(rows, accountId, start, winner.updatedAt, Others(OpenWindows(entries), start))
  {
    var start := StartWindow(winner);
    var others := Others(OpenWindows(entries), start);
    SnapshotAllowsStop(rows, accountId, entries);
    OthersDropsStart(OpenWindows(entries), start);
    OthersTwice(OpenWindows(entries), start);
    forall k | 0 <= k < |others|
      ensures StopMatches(rows, accountId, others[k])
    {
      assert others[k] in others;
    }
  }

  lemma WinnerIsAnEntry(entries: seq<Row>, skipped: set<WindowId>, now: int)
    ensures var winner := SelectWinner(Schedules(entries), skipped, now);
            winner.Some? ==> IsRowOf(entries, winner.value)
  {
    var schedules := Schedules(entries);
    BestIsMaximal(Contenders(schedules, skipped, now));
    ContendersAreWindows(schedules, skipped, now);
    var winner := SelectWinner(schedules, skipped, now);
    if winner.Some? {
      hide WindowAt;
      var i :| 0 <= i < |schedules| && Competes(schedules[i], skipped, now, winner.value);
      assert entries[i].schedule.id == winner.value.windowId.scheduleId;
    }
  }

  // ---- A window starts once ------------------------------------------------------------

  // The persisted rows and the account's remembered window, between ticks.
  datatype Moment = Moment(rows: Rows, active: Option<WindowId>)

  // A transition that ended well, a restart, or a transition without effect.
  datatype Turn = Tick(started: bool) | Restart | Nothing

  function TurnOf(outcome: Outcome): Turn
  {
    if outcome.Done? then Tick(outcome.started) else Nothing
  }

  // While one window keeps winning: a tick leaves it open and known, and starts
  // the account if that was needed; a restart keeps the rows and forgets the
  // memory; anything else changes nothing.
  ghost predicate IsTurn(accountId: nat, start: OpenWindow, turn: Turn, before: Moment, after: Moment)
  {
    match turn
    case Tick(started) =>
      && OpenSet(after.rows, accountId) == {start} && after.active == Some(start.windowId)
      && started == NeedsStart(before.rows, before.active, start)
    case Restart => after == Moment(before.rows, None)
    case Nothing => after == before
  }

  ghost predicate IsHistory(accountId: nat, start: OpenWindow, moments: seq<Moment>, turns: seq<Turn>)
  {
    && |moments| == |turns| + 1
    && forall k :: 0 <= k < |turns| ==> IsTurn(accountId, start, turns[k], moments[k], moments[k + 1])
  }

  function Starts(turns: seq<Turn>): nat
  {
    if turns == [] then 0 else (if turns[0] == Tick(true) then 1 else 0) + Starts(turns[1..])
  }

  ghost predicate AlreadyStarted(accountId: nat, start: OpenWindow, m: Moment)
  {
    OpenSet(m.rows, accountId) == {start} && (m.active == None || m.active == Some(start.windowId))
  }

  lemma StartedNeedsNoStart(accountId: nat, start: OpenWindow, m: Moment)
    requires AlreadyStarted(accountId, start, m)
    ensures !NeedsStart(m.rows, m.active, start)
  {
    assert start in OpenSet(m.rows, accountId);
  }

  lemma {:induction false} NoFurtherStart(accountId: nat, start: OpenWindow, moments: seq<Moment>, turns: seq<Turn>)
    requires IsHistory(accountId, start, moments, turns) && AlreadyStarted(accountId, start, moments[0])
    ensures Starts(turns) == 0
    decreases |turns|
  {
    if turns != [] {
      StartedNeedsNoStart(accountId, start, moments[0]);
      assert IsTurn(accountId, start, turns[0], moments[0], moments[1]);
      NoFurtherStart(accountId, start, moments[1..], turns[1..]);
    }
  }

  // However successful and fruitless ticks and restarts alternate, the account
  // is started at most once for one winning window.
  lemma {:induction false} WindowStartsOnce(accountId: nat, start: OpenWindow, moments: seq<Moment>, turns: seq<Turn>)
    requires IsHistory(accountId, start, moments, turns)
    ensures Starts(turns) <= 1
    decreases |turns|
  {
    if turns != [] {
      assert IsTurn(accountId, start, turns[0], moments[0], moments[1]);
      if turns[0].Tick? {
        NoFurtherStart(accountId, start, moments[1..], turns[1..]);
      } else {
        WindowStartsOnce(accountId, start, moments[1..], turns[1..]);
      }
    }
  }
}
