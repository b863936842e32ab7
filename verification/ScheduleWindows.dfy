// When a schedule is active, computed from wall-clock minutes, and the dated
// windows it stands for (apps/server/src/steam/scheduler.ts). A zone is a
// constant offset of whole minutes here; ZoneConversion treats changing ones.
module ScheduleWindows {
  import opened Results
  import Sorting

  const MINUTE := 60_000
  const MINUTES_PER_DAY := 1440
  const DAY := 86_400_000
  const NOON := 720

  type MinuteOfDay = m: nat | m < MINUTES_PER_DAY

  datatype Schedule = Schedule(
    id: nat,
    enabled: bool,
    weekdays: set<int>,
    startTime: MinuteOfDay,
    endTime: MinuteOfDay,
    offset: int,
    updatedAt: int)

  datatype WindowId = WindowId(scheduleId: nat, date: int, startTime: MinuteOfDay, endTime: MinuteOfDay)

  datatype WindowState = Inactive | Active(windowId: WindowId, startedAt: int)

  // ---- Local time ------------------------------------------------------------

  datatype LocalParts = LocalParts(date: int, minute: MinuteOfDay, weekday: int)

  // Minutes of local time since the epoch's midnight, seconds dropped.
  function LocalMinute(instant: int, offset: int): int
  {
    instant / MINUTE + offset
  }

  // Day zero of the epoch was a Thursday; Sunday is weekday zero.
  function Parts(instant: int, offset: int): LocalParts
  {
    var local := LocalMinute(instant, offset);
    LocalParts(local / MINUTES_PER_DAY, local % MINUTES_PER_DAY, (local / MINUTES_PER_DAY + 4) % 7)
  }

  function ToEpoch(date: int, minute: MinuteOfDay, offset: int): int
  {
    (date * MINUTES_PER_DAY + minute - offset) * MINUTE
  }

  // The clock of every zone: midnight at the start of the epoch was a Thursday
  // in Greenwich, a day later shows the next date and weekday, and a zone further
  // east shows what Greenwich shows that much later.
  lemma ClockOfZones(instant: int, offset: int, further: int)
    ensures Parts(0, 0) == LocalParts(0, 0, 4)
    ensures Parts(instant + DAY, offset) ==
            var today := Parts(instant, offset);
            LocalParts(today.date + 1, today.minute, (today.weekday + 1) % 7)
    ensures Parts(instant, offset + further) == Parts(instant + further * MINUTE, offset)
  {}

  // Comparing an instant with a local wall-clock time needs only minutes.
  lemma BeforeIffLocalMinute(instant: int, date: int, minute: MinuteOfDay, offset: int)
    ensures ToEpoch(date, minute, offset) <= instant
       <==> date * MINUTES_PER_DAY + minute <= LocalMinute(instant, offset)
    ensures var parts := Parts(instant, offset);
            LocalMinute(instant, offset) == parts.date * MINUTES_PER_DAY + parts.minute
  {}

  // ---- Times as text -----------------------------------------------------------

  function Digit(n: nat): char
    requires n < 10
  {
    ['0', '1', '2', '3', '4', '5', '6', '7', '8', '9'][n]
  }

  // HH:mm
  function Clock(minute: MinuteOfDay): string
  {
    var hours, minutes := minute / 60, minute % 60;
    [Digit(hours / 10), Digit(hours % 10), ':', Digit(minutes / 10), Digit(minutes % 10)]
  }

  predicate TextLess(a: string, b: string)
  {
    |b| > 0 && (|a| == 0 || a[0] < b[0] || (a[0] == b[0] && TextLess(a[1..], b[1..])))
  }

  lemma TextLessUnfold(a: string, b: string)
    requires |a| == |b| == 5
    ensures TextLess(a, b) <==>
              || a[0] < b[0]
              || (a[0] == b[0] && (a[1] < b[1]
              || (a[1] == b[1] && (a[2] < b[2]
              || (a[2] == b[2] && (a[3] < b[3]
              || (a[3] == b[3] && a[4] < b[4])))))))
  {
    assert a[1..][1..][1..][1..][1..] == "" && b[1..][1..][1..][1..][1..] == "";
    assert TextLess(a, b) == (a[0] < b[0] || (a[0] == b[0] && TextLess(a[1..], b[1..])));
    assert TextLess(a[1..], b[1..]) == (a[1] < b[1] || (a[1] == b[1] && TextLess(a[1..][1..], b[1..][1..])));
    assert TextLess(a[1..][1..], b[1..][1..])
        == (a[2] < b[2] || (a[2] == b[2] && TextLess(a[1..][1..][1..], b[1..][1..][1..])));
    assert TextLess(a[1..][1..][1..], b[1..][1..][1..])
        == (a[3] < b[3] || (a[3] == b[3] && TextLess(a[1..][1..][1..][1..], b[1..][1..][1..][1..])));
    assert TextLess(a[1..][1..][1..][1..], b[1..][1..][1..][1..]) == (a[4] < b[4]);
  }

  lemma DigitOrder(a: nat, b: nat)
    requires a < 10 && b < 10
    ensures Digit(a) < Digit(b) <==> a < b
    ensures Digit(a) == Digit(b) <==> a == b
  {}

  // The preview compares HH:mm texts, the evaluator compares minutes.
  lemma TextOrderIsMinuteOrder(a: MinuteOfDay, b: MinuteOfDay)
    ensures TextLess(Clock(a), Clock(b)) <==> a < b
  {
    TextLessUnfold(Clock(a), Clock(b));
    DigitOrder(a / 60 / 10, b / 60 / 10);
    DigitOrder(a / 60 % 10, b / 60 % 10);
    DigitOrder(a % 60 / 10, b % 60 / 10);
    DigitOrder(a % 60 % 10, b % 60 % 10);
  }

  // ---- Evaluation from wall-clock minutes -----------------------------------------

  function Evaluate(s: Schedule, now: int): WindowState
  {
    var parts := Parts(now, s.offset);
    if s.weekdays == {} then Inactive
    else if s.startTime <= s.endTime then
      if parts.weekday in s.weekdays && s.startTime <= parts.minute < s.endTime
      then ActiveOn(s, parts.date)
      else Inactive
    else if parts.weekday in s.weekdays && s.startTime <= parts.minute then ActiveOn(s, parts.date)
    else if (parts.weekday + 6) % 7 in s.weekdays && parts.minute < s.endTime then ActiveOn(s, parts.date - 1)
    else Inactive
  }

  function ActiveOn(s: Schedule, date: int): WindowState
  {
    Active(WindowId(s.id, date, s.startTime, s.endTime), ToEpoch(date, s.startTime, s.offset))
  }

  // ---- Dated windows ---------------------------------------------------------------

  datatype Window = Window(windowId: WindowId, startsAt: int, endsAt: int)

  // The window of one date, the way the preview computes it.
  function DatedWindow(s: Schedule, date: int): Window
  {
    var overnight := TextLess(Clock(s.endTime), Clock(s.startTime));
    var endDate := if overnight then date + 1 else date;
    Window(WindowId(s.id, date, s.startTime, s.endTime),
           ToEpoch(date, s.startTime, s.offset),
           ToEpoch(endDate, s.endTime, s.offset))
  }

  // The weekday of a date is read off its local noon.
  predicate RunsOn(s: Schedule, date: int)
  {
    Parts(ToEpoch(date, NOON, s.offset), s.offset).weekday in s.weekdays
  }

  predicate IsWindow(s: Schedule, date: int)
  {
    RunsOn(s, date) && DatedWindow(s, date).startsAt < DatedWindow(s, date).endsAt
  }

  predicate Contains(w: Window, instant: int) { w.startsAt <= instant < w.endsAt }

  ghost predicate WindowAt(s: Schedule, date: int, instant: int)
  {
    IsWindow(s, date) && Contains(DatedWindow(s, date), instant)
  }

  lemma RunsOnWeekday(s: Schedule, date: int)
    ensures RunsOn(s, date) <==> (date + 4) % 7 in s.weekdays
  {}

  lemma WindowAtInMinutes(s: Schedule, date: int, instant: int)
    ensures WindowAt(s, date, instant) <==>
              var local := LocalMinute(instant, s.offset);
              && (date + 4) % 7 in s.weekdays
              && date * MINUTES_PER_DAY + s.startTime <= local
              && local < (if s.endTime < s.startTime then date + 1 else date) * MINUTES_PER_DAY + s.endTime
  {
    TextOrderIsMinuteOrder(s.endTime, s.startTime);
    RunsOnWeekday(s, date);
    var endDate := if s.endTime < s.startTime then date + 1 else date;
    BeforeIffLocalMinute(instant, date, s.startTime, s.offset);
    BeforeIffLocalMinute(instant, endDate, s.endTime, s.offset);
  }

  // The evaluator is active exactly inside a dated window, names that window
  // and its start, and no other date's window contains the instant.
  lemma EvaluateAgreesWithWindows(s: Schedule, now: int)
    ensures Evaluate(s, now).Inactive? ==> forall date :: !WindowAt(s, date, now)
    ensures Evaluate(s, now).Active? ==>
              var id := Evaluate(s, now).windowId;
              && WindowAt(s, id.date, now)
              && DatedWindow(s, id.date).windowId == id
              && DatedWindow(s, id.date).startsAt == Evaluate(s, now).startedAt
              && forall date :: WindowAt(s, date, now) ==> date == id.date
  {
    ActiveNamesDate(s, now);
    hide Evaluate, WindowAt, ToEpoch, Clock, TextLess;
    forall date
      ensures WindowAt(s, date, now) <==> Evaluate(s, now) == ActiveOn(s, date)
    {
      ActiveOnIffWindow(s, date, now);
    }
  }

  // A local minute within a window that starts on the given date: on that date
  // or, overnight, on the morning after.
  predicate InWindowOf(s: Schedule, date: int, parts: LocalParts)
  {
    if s.startTime <= s.endTime then date == parts.date && s.startTime <= parts.minute < s.endTime
    else (date == parts.date && s.startTime <= parts.minute) || (date == parts.date - 1 && parts.minute < s.endTime)
  }

  // The evaluator date by date.
  lemma EvaluateByDate(s: Schedule, date: int, now: int)
    ensures Evaluate(s, now) == ActiveOn(s, date)
       <==> (date + 4) % 7 in s.weekdays && InWindowOf(s, date, Parts(now, s.offset))
  {
    var parts := Parts(now, s.offset);
    assert parts.weekday == (parts.date + 4) % 7;
    PreviousWeekday(parts.date);
    hide Parts, ToEpoch;
  }

  // The dated windows date by date.
  lemma WindowByDate(s: Schedule, date: int, now: int)
    ensures WindowAt(s, date, now) <==> (date + 4) % 7 in s.weekdays && InWindowOf(s, date, Parts(now, s.offset))
  {
    var parts := Parts(now, s.offset);
    BeforeIffLocalMinute(now, parts.date, 0, s.offset);
    WindowAtInMinutes(s, date, now);
    DateOfLocalMinute(parts.date, parts.minute, date, s.startTime, s.endTime);
    hide WindowAt, LocalMinute, ToEpoch, Parts;
  }

  // The evaluator names a date exactly when its window contains the instant.
  lemma ActiveOnIffWindow(s: Schedule, date: int, now: int)
    ensures WindowAt(s, date, now) <==> Evaluate(s, now) == ActiveOn(s, date)
  {
    hide *;
    EvaluateByDate(s, date, now);
    WindowByDate(s, date, now);
  }

  // An active state always names a date of its schedule.
  lemma ActiveNamesDate(s: Schedule, now: int)
    ensures Evaluate(s, now).Active? ==> Evaluate(s, now) == ActiveOn(s, Evaluate(s, now).windowId.date)
  {}

  // Windows of one schedule never overlap.
  lemma OneWindowPerInstant(s: Schedule, a: int, b: int, instant: int)
    requires WindowAt(s, a, instant) && WindowAt(s, b, instant)
    ensures a == b
  {
    hide Evaluate, WindowAt;
    EvaluateAgreesWithWindows(s, instant);
  }

  lemma PreviousWeekday(date: int)
    ensures ((date + 4) % 7 + 6) % 7 == (date - 1 + 4) % 7
  {}

  // A local minute lies in a date's window on that date or, overnight, on the
  // morning after.
  lemma DateOfLocalMinute(today: int, minute: MinuteOfDay, date: int, start: MinuteOfDay, end: MinuteOfDay)
    ensures (date * MINUTES_PER_DAY + start <= today * MINUTES_PER_DAY + minute
             && today * MINUTES_PER_DAY + minute < (if end < start then date + 1 else date) * MINUTES_PER_DAY + end)
            <==> (if start <= end then date == today && start <= minute < end
                  else (date == today && start <= minute) || (date == today - 1 && minute < end))
  {}

  // ---- Choosing among schedules ------------------------------------------------------

  datatype Contender = Contender(windowId: WindowId, startsAt: int, updatedAt: int)

  // The later start wins, then the later edit, then the larger id.
  predicate Beats(a: Contender, b: Contender)
  {
    || a.startsAt > b.startsAt
    || (a.startsAt == b.startsAt
        && (a.updatedAt > b.updatedAt
            || (a.updatedAt == b.updatedAt && a.windowId.scheduleId > b.windowId.scheduleId)))
  }

  // What that order prefers, contender by contender: none started later; among
  // those that started together none was edited later; among those edited
  // together none has a larger id.
  predicate Foremost(w: Contender, others: seq<Contender>)
  {
    && (forall c :: c in others ==> c.startsAt <= w.startsAt)
    && (forall c :: c in others && c.startsAt == w.startsAt ==> c.updatedAt <= w.updatedAt)
    && (forall c :: c in others && c.startsAt == w.startsAt && c.updatedAt == w.updatedAt ==>
          c.windowId.scheduleId <= w.windowId.scheduleId)
  }

  // The head of the list sorted by that order.
  function Best(contenders: seq<Contender>): Option<Contender>
  {
    if contenders == [] then None else Some(Sorting.Sort(contenders, Beats)[0])
  }

  lemma BestIsMaximal(contenders: seq<Contender>)
    ensures Best(contenders).None? <==> contenders == []
    ensures Best(contenders).Some? ==>
              && Best(contenders).value in contenders
              && Foremost(Best(contenders).value, contenders)
              && forall c :: c in contenders ==> !Beats(c, Best(contenders).value)
  {
    Sorting.SortOrders(contenders, Beats);
    var sorted := Sorting.Sort(contenders, Beats);
    forall c | c in contenders
      ensures !Beats(c, sorted[0])
    {
      assert c in sorted;
      var k :| 0 <= k < |sorted| && sorted[k] == c;
    }
  }

  ghost predicate OnePerSchedule(contenders: seq<Contender>)
  {
    forall a, b :: a in contenders && b in contenders && a.windowId.scheduleId == b.windowId.scheduleId ==> a == b
  }

  // With at most one contender per schedule the choice depends on who
  // competes, not on the order in which the contenders are listed.
  lemma BestIgnoresOrder(a: seq<Contender>, b: seq<Contender>)
    requires OnePerSchedule(a)
    requires forall c :: c in a <==> c in b
    ensures Best(a) == Best(b)
  {
    BestIsMaximal(a);
    BestIsMaximal(b);
    assert b != [] ==> b[0] in a;
    if a != [] {
      assert a[0] in b;
      var x, y := Best(a).value, Best(b).value;
      assert !Beats(x, y) && !Beats(y, x);
    }
  }

  // A skipped window and a disabled schedule do not compete.
  function StateOf(s: Schedule, skipped: set<WindowId>, now: int): WindowState
  {
    if !s.enabled then Inactive
    else
      match Evaluate(s, now)
      case Inactive => Inactive
      case Active(id, startedAt) => if id in skipped then Inactive else Active(id, startedAt)
  }

  function Contenders(schedules: seq<Schedule>, skipped: set<WindowId>, now: int): seq<Contender>
  {
    if schedules == [] then []
    else
      var last := schedules[|schedules| - 1];
      Contenders(schedules[..|schedules| - 1], skipped, now)
      + match StateOf(last, skipped, now)
        case Inactive => []
        case Active(id, startedAt) => [Contender(id, startedAt, last.updatedAt)]
  }

  function SelectWinner(schedules: seq<Schedule>, skipped: set<WindowId>, now: int): Option<Contender>
  {
    Best(Contenders(schedules, skipped, now))
  }

  ghost predicate DistinctIds(schedules: seq<Schedule>)
  {
    forall i, j :: 0 <= i < j < |schedules| ==> schedules[i].id != schedules[j].id
  }

  lemma CompetesIffActive(s: Schedule, skipped: set<WindowId>, now: int, c: Contender)
    ensures Competes(s, skipped, now, c) <==>
              StateOf(s, skipped, now) == Active(c.windowId, c.startsAt) && c.updatedAt == s.updatedAt
  {
    hide WindowAt, ToEpoch, Parts, Clock, TextLess;
    EvaluateAgreesWithWindows(s, now);
  }

  // Who competes: exactly the unskipped windows of enabled schedules that
  // contain the instant.
  lemma {:induction false} ContendersAreWindows(schedules: seq<Schedule>, skipped: set<WindowId>, now: int)
    ensures forall c :: c in Contenders(schedules, skipped, now) ==>
              exists i :: 0 <= i < |schedules| && Competes(schedules[i], skipped, now, c)
    ensures forall i, c :: 0 <= i < |schedules| && Competes(schedules[i], skipped, now, c) ==>
              c in Contenders(schedules, skipped, now)
  {
    hide StateOf, Competes;
    if schedules != [] {
      var front, last := schedules[..|schedules| - 1], schedules[|schedules| - 1];
      ContendersAreWindows(front, skipped, now);
      forall c
        ensures Competes(last, skipped, now, c) <==>
                  StateOf(last, skipped, now) == Active(c.windowId, c.startsAt) && c.updatedAt == last.updatedAt
      {
        CompetesIffActive(last, skipped, now, c);
      }
      forall c | c in Contenders(schedules, skipped, now)
        ensures exists i :: 0 <= i < |schedules| && Competes(schedules[i], skipped, now, c)
      {
        if c in Contenders(front, skipped, now) {
          var i :| 0 <= i < |front| && Competes(front[i], skipped, now, c);
          assert schedules[i] == front[i];
        } else {
          assert Competes(schedules[|schedules| - 1], skipped, now, c);
        }
      }
      forall i, c | 0 <= i < |schedules| && Competes(schedules[i], skipped, now, c)
        ensures c in Contenders(schedules, skipped, now)
      {
        if i < |front| {
          assert front[i] == schedules[i];
        }
      }
    }
  }

  ghost predicate CompetesAmong(schedules: seq<Schedule>, skipped: set<WindowId>, now: int, c: Contender)
  {
    exists i :: 0 <= i < |schedules| && Competes(schedules[i], skipped, now, c)
  }

  // The winner is an unskipped window of an enabled schedule that is running
  // now, no such window started later, and ties go by edit and id. There is none
  // exactly when no such window is running.
  lemma WinnerIsForemost(schedules: seq<Schedule>, skipped: set<WindowId>, now: int)
    ensures var winner := SelectWinner(schedules, skipped, now);
            winner.Some? ==> CompetesAmong(schedules, skipped, now, winner.value)
    ensures forall c :: CompetesAmong(schedules, skipped, now, c) ==>
              var winner := SelectWinner(schedules, skipped, now);
              winner.Some? && Foremost(winner.value, [c])
  {
    ContendersAreWindows(schedules, skipped, now);
    var contenders := Contenders(schedules, skipped, now);
    BestIsMaximal(contenders);
    hide Contenders, Best;
    forall c | CompetesAmong(schedules, skipped, now, c)
      ensures c in contenders
    {}
  }

  ghost predicate Competes(s: Schedule, skipped: set<WindowId>, now: int, c: Contender)
  {
    && s.enabled
    && c.windowId !in skipped
    && WindowAt(s, c.windowId.date, now)
    && c == Contender(DatedWindow(s, c.windowId.date).windowId, DatedWindow(s, c.windowId.date).startsAt, s.updatedAt)
  }
}
