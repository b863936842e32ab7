// The preview of coming schedule windows: enumeration by local dates, overlaps
// and the expected winner (apps/server/src/steam/schedule-preview.ts).
module SchedulePreview {
  import opened Results
  import opened ScheduleWindows
  import Sorting

  datatype Item = Item(
    windowId: WindowId,
    startsAt: int,
    endsAt: int,
    updatedAt: int,
    skipped: bool,
    winner: bool,
    conflicts: set<nat>)

  // ---- Local dates ---------------------------------------------------------------

  const HALF_DAY := DAY / 2

  function DateAt(instant: int, offset: int): int { Parts(instant, offset).date }

  lemma HalfDayAdvancesDate(instant: int, offset: int)
    ensures DateAt(instant, offset) <= DateAt(instant + HALF_DAY, offset) <= DateAt(instant, offset) + 1
  {}

  lemma DateMonotone(a: int, b: int, offset: int)
    requires a <= b
    ensures DateAt(a, offset) <= DateAt(b, offset)
  {}

  // Sampling every twelve hours misses no date of the range.
  method LocalDateKeys(offset: int, from: int, through: int) returns (dates: seq<int>)
    requires from <= through
    ensures |dates| > 0 && dates[0] == DateAt(from, offset)
    ensures forall i :: 0 <= i < |dates| ==> dates[i] == dates[0] + i
    ensures dates[|dates| - 1] <= DateAt(through, offset) <= dates[|dates| - 1] + 1
  {
    hide DateAt;
    dates := [DateAt(from, offset)];
    var cursor := from;
    while cursor + HALF_DAY <= through
      invariant from <= cursor <= through
      invariant |dates| > 0 && dates[0] == DateAt(from, offset)
      invariant dates[|dates| - 1] == DateAt(cursor, offset)
      invariant forall i :: 0 <= i < |dates| ==> dates[i] == dates[0] + i
      decreases through - cursor
    {
      HalfDayAdvancesDate(cursor, offset);
      cursor := cursor + HALF_DAY;
      if DateAt(cursor, offset) !in dates {
        dates := dates + [DateAt(cursor, offset)];
      }
    }
    HalfDayAdvancesDate(cursor, offset);
    DateMonotone(cursor, through, offset);
    DateMonotone(through, cursor + HALF_DAY, offset);
  }

  // ---- Which windows are listed ------------------------------------------------------

  predicate Meets(w: Window, now: int, through: int) { now < w.endsAt && w.startsAt < through }

  // A window meets the range exactly when it contains an instant of it.
  lemma MeetsIffContains(w: Window, now: int, through: int)
    requires w.startsAt < w.endsAt && now < through
    ensures Meets(w, now, through) <==> exists instant :: now <= instant < through && Contains(w, instant)
  {
    if Meets(w, now, through) {
      assert Contains(w, if w.startsAt < now then now else w.startsAt);
    }
  }

  // A window that meets the range falls on one of the sampled dates: they reach
  // from yesterday's date to the last date of the range.
  lemma MeetingWindowIsSampled(s: Schedule, date: int, now: int, through: int)
    requires IsWindow(s, date) && Meets(DatedWindow(s, date), now, through)
    ensures DateAt(now - DAY, s.offset) <= date <= DateAt(through, s.offset)
    ensures DateAt(through, s.offset) < DateAt(through + DAY, s.offset)
  {
    TextOrderIsMinuteOrder(s.endTime, s.startTime);
    hide Clock, TextLess, RunsOn;
    var endDate := if s.endTime < s.startTime then date + 1 else date;
    BeforeIffLocalMinute(now, endDate, s.endTime, s.offset);
    BeforeIffLocalMinute(through, date, s.startTime, s.offset);
  }

  ghost predicate Listed(schedules: seq<Schedule>, skipped: set<WindowId>, now: int, through: int, item: Item)
  {
    exists i, date ::
      0 <= i < |schedules| && schedules[i].enabled && ItemOf(schedules[i], date, skipped, now, through, item)
  }

  ghost predicate ItemOf(s: Schedule, date: int, skipped: set<WindowId>, now: int, through: int, item: Item)
  {
    && IsWindow(s, date) && Meets(DatedWindow(s, date), now, through)
    && item.windowId == DatedWindow(s, date).windowId
    && item.startsAt == DatedWindow(s, date).startsAt
    && item.endsAt == DatedWindow(s, date).endsAt
    && item.updatedAt == s.updatedAt
    && item.skipped == (item.windowId in skipped)
  }

  ghost predicate HasItem(items: seq<Item>, windowId: WindowId)
  {
    exists k :: 0 <= k < |items| && items[k].windowId == windowId
  }

  ghost predicate DistinctWindows(items: seq<Item>)
  {
    forall i, j :: 0 <= i < j < |items| ==> items[i].windowId != items[j].windowId
  }

  // The list holds every meeting window of every enabled schedule, once, and
  // nothing else.
  ghost predicate Complete(items: seq<Item>, schedules: seq<Schedule>, skipped: set<WindowId>, now: int, through: int)
  {
    && DistinctWindows(items)
    && (forall k :: 0 <= k < |items| ==> Listed(schedules, skipped, now, through, items[k]))
    && (forall i, date :: 0 <= i < |schedules| && MustList(schedules[i], date, now, through) ==>
          HasItem(items, DatedWindow(schedules[i], date).windowId))
  }

  ghost predicate MustList(s: Schedule, date: int, now: int, through: int)
  {
    s.enabled && IsWindow(s, date) && Meets(DatedWindow(s, date), now, through)
  }

  // The windows of one schedule, date by date.
  method ScheduleItems(s: Schedule, skipped: set<WindowId>, now: int, through: int) returns (items: seq<Item>)
    requires now <= through && s.enabled
    ensures DistinctWindows(items)
    ensures forall k :: 0 <= k < |items| ==> items[k].windowId.scheduleId == s.id && items[k].conflicts == {}
                                             && ItemOf(s, items[k].windowId.date, skipped, now, through, items[k])
    ensures forall date :: MustList(s, date, now, through) ==> HasItem(items, DatedWindow(s, date).windowId)
  {
    hide DateAt, Parts, RunsOn, ToEpoch, Clock, TextLess;
    var dates := LocalDateKeys(s.offset, now - DAY, through + DAY);
    items := [];
    for n := 0 to |dates|
      invariant DistinctWindows(items)
      invariant forall k :: 0 <= k < |items| ==>
                  && items[k].windowId.scheduleId == s.id && items[k].conflicts == {}
                  && items[k].windowId.date < dates[0] + n
                  && ItemOf(s, items[k].windowId.date, skipped, now, through, items[k])
      invariant forall date :: dates[0] <= date < dates[0] + n && MustList(s, date, now, through) ==>
                  HasItem(items, DatedWindow(s, date).windowId)
    {
      var date := dates[n];
      ghost var before := items;
      if RunsOn(s, date) {
        var w := DatedWindow(s, date);
        if Meets(w, now, through) && w.startsAt < w.endsAt {
          items := items + [Item(w.windowId, w.startsAt, w.endsAt, s.updatedAt, w.windowId in skipped, false, {})];
          assert items[|before|].windowId == w.windowId;
        }
      }
      forall d | dates[0] <= d < dates[0] + n + 1 && MustList(s, d, now, through)
        ensures HasItem(items, DatedWindow(s, d).windowId)
      {
        if d < date {
          assert HasItem(before, DatedWindow(s, d).windowId);
          var k :| 0 <= k < |before| && before[k].windowId == DatedWindow(s, d).windowId;
          assert items[k] == before[k];
        }
      }
    }
    forall date | MustList(s, date, now, through)
      ensures HasItem(items, DatedWindow(s, date).windowId)
    {
      MeetingWindowIsSampled(s, date, now, through);
    }
  }

  method Enumerate(schedules: seq<Schedule>, skipped: set<WindowId>, now: int, through: int) returns (items: seq<Item>)
    requires now <= through && DistinctIds(schedules)
    ensures Complete(items, schedules, skipped, now, through)
    ensures forall k :: 0 <= k < |items| ==> items[k].conflicts == {}
  {
    hide IsWindow, Meets, DatedWindow;
    items := [];
    for n := 0 to |schedules|
      invariant Complete(items, schedules[..n], skipped, now, through)
      invariant forall k :: 0 <= k < |items| ==> items[k].conflicts == {}
      invariant forall k :: 0 <= k < |items| ==> OfEarlier(items[k], schedules, n)
    {
      var s := schedules[n];
      var found: seq<Item> := [];
      if s.enabled {
        found := ScheduleItems(s, skipped, now, through);
      }
      AppendKeepsComplete(items, found, schedules, n, skipped, now, through);
      items := items + found;
    }
    assert schedules[..|schedules|] == schedules;
  }

  ghost predicate OfEarlier(item: Item, schedules: seq<Schedule>, n: nat)
    requires n <= |schedules|
  {
    exists i :: 0 <= i < n && schedules[i].id == item.windowId.scheduleId
  }

  lemma AppendKeepsComplete(
      items: seq<Item>, found: seq<Item>, schedules: seq<Schedule>, n: nat, skipped: set<WindowId>, now: int, through: int)
    requires n < |schedules| && DistinctIds(schedules)
    requires Complete(items, schedules[..n], skipped, now, through)
    requires forall k :: 0 <= k < |items| ==> OfEarlier(items[k], schedules, n)
    requires DistinctWindows(found) && (!schedules[n].enabled ==> found == [])
    requires forall k :: 0 <= k < |found| ==>
               && found[k].windowId.scheduleId == schedules[n].id
               && ItemOf(schedules[n], found[k].windowId.date, skipped, now, through, found[k])
    requires forall date :: MustList(schedules[n], date, now, through) ==>
               HasItem(found, DatedWindow(schedules[n], date).windowId)
    ensures Complete(items + found, schedules[..n + 1], skipped, now, through)
    ensures forall k :: 0 <= k < |items + found| ==> OfEarlier((items + found)[k], schedules, n + 1)
  {
    hide IsWindow, Meets, DatedWindow, ItemOf;
    var all, upTo := items + found, schedules[..n + 1];
    forall k | 0 <= k < |all|
      ensures Listed(upTo, skipped, now, through, all[k])
      ensures OfEarlier(all[k], schedules, n + 1)
    {
      if k < |items| {
        assert Listed(schedules[..n], skipped, now, through, items[k]);
        var i, date :| 0 <= i < n && schedules[..n][i].enabled
                       && ItemOf(schedules[..n][i], date, skipped, now, through, items[k]);
        assert upTo[i] == schedules[..n][i];
      } else {
        var item := found[k - |items|];
        assert all[k] == item && upTo[n] == schedules[n];
        assert item.windowId.scheduleId == schedules[n].id;
        assert ItemOf(upTo[n], item.windowId.date, skipped, now, through, item);
      }
    }
    forall i, date | 0 <= i < |upTo| && MustList(upTo[i], date, now, through)
      ensures HasItem(all, DatedWindow(upTo[i], date).windowId)
    {
      var id := DatedWindow(upTo[i], date).windowId;
      if i < n {
        assert schedules[..n][i] == upTo[i];
        var k :| 0 <= k < |items| && items[k].windowId == id;
        assert all[k].windowId == id;
      } else {
        var k :| 0 <= k < |found| && found[k].windowId == id;
        assert all[|items| + k].windowId == id;
      }
    }
  }

  // ---- Overlaps and the winner flag -----------------------------------------------------

  predicate Overlap(a: Item, b: Item)
  {
    a.windowId != b.windowId && b.startsAt < a.endsAt && a.startsAt < b.endsAt
  }

  predicate RunningAt(item: Item, instant: int)
  {
    !item.skipped && item.startsAt <= instant < item.endsAt
  }

  function ContendersAt(items: seq<Item>, instant: int): seq<Contender>
  {
    if items == [] then []
    else
      var last := items[|items| - 1];
      ContendersAt(items[..|items| - 1], instant)
      + if RunningAt(last, instant) then [Contender(last.windowId, last.startsAt, last.updatedAt)] else []
  }

  predicate WinnerFlag(items: seq<Item>, item: Item)
  {
    var best := Best(ContendersAt(items, item.startsAt));
    best.Some? && best.value.windowId == item.windowId
  }

  // Two items agree on everything but the two computed columns.
  predicate SameWindow(a: Item, b: Item)
  {
    a.(winner := b.winner, conflicts := b.conflicts) == b
  }

  predicate SameWindows(a: seq<Item>, b: seq<Item>)
  {
    |a| == |b| && forall k :: 0 <= k < |a| ==> SameWindow(a[k], b[k])
  }

  lemma {:induction false} ContendersIgnoreFlags(a: seq<Item>, b: seq<Item>, instant: int)
    requires SameWindows(a, b)
    ensures ContendersAt(a, instant) == ContendersAt(b, instant)
  {
    if a != [] {
      assert SameWindow(a[|a| - 1], b[|b| - 1]);
      ContendersIgnoreFlags(a[..|a| - 1], b[..|b| - 1], instant);
    }
  }

  function Conflicts(items: seq<Item>, item: Item): set<nat>
  {
    set k | 0 <= k < |items| && Overlap(item, items[k]) :: items[k].windowId.scheduleId
  }

  ghost predicate Marked(items: seq<Item>, item: Item)
  {
    item.winner == WinnerFlag(items, item) && item.conflicts == Conflicts(items, item)
  }

  lemma MarksIgnoreFlags(a: seq<Item>, b: seq<Item>, item: Item)
    requires SameWindows(a, b)
    ensures Conflicts(a, item) == Conflicts(b, item)
    ensures WinnerFlag(a, item) == WinnerFlag(b, item)
  {
    ContendersIgnoreFlags(a, b, item.startsAt);
    forall k | 0 <= k < |a|
      ensures Overlap(item, a[k]) == Overlap(item, b[k]) && a[k].windowId == b[k].windowId
    {
      assert SameWindow(a[k], b[k]);
    }
  }

  // Sets the computed columns in place, item by item.
  method MarkItems(items: seq<Item>) returns (marked: seq<Item>)
    ensures SameWindows(items, marked)
    ensures forall k :: 0 <= k < |marked| ==> Marked(items, marked[k])
  {
    hide Conflicts, WinnerFlag;
    marked := items;
    for n := 0 to |items|
      invariant SameWindows(items, marked)
      invariant forall k :: 0 <= k < n ==> Marked(items, marked[k])
    {
      var item := marked[n];
      assert SameWindow(items[n], item);
      MarksIgnoreFlags(items, marked, item);
      item := item.(winner := WinnerFlag(marked, item), conflicts := Conflicts(marked, item));
      MarkOwnFlags(items, marked[n], item);
      marked := marked[n := item];
    }
  }

  // The two columns do not enter their own computation.
  lemma MarkOwnFlags(items: seq<Item>, before: Item, after: Item)
    requires SameWindow(before, after)
    ensures Conflicts(items, before) == Conflicts(items, after)
    ensures WinnerFlag(items, before) == WinnerFlag(items, after)
  {
    assert forall k :: 0 <= k < |items| ==> Overlap(before, items[k]) == Overlap(after, items[k]);
  }

  predicate Spans(item: Item, instant: int) { item.startsAt <= instant < item.endsAt }

  ghost predicate ShareInstant(a: Item, b: Item)
  {
    exists instant :: Spans(a, instant) && Spans(b, instant)
  }

  lemma OverlapIffShared(a: Item, b: Item)
    requires a.startsAt < a.endsAt && b.startsAt < b.endsAt
    ensures Overlap(a, b) <==> a.windowId != b.windowId && ShareInstant(a, b)
  {
    if Overlap(a, b) {
      var later := if a.startsAt < b.startsAt then b.startsAt else a.startsAt;
      assert Spans(a, later) && Spans(b, later);
    }
  }

  // An item names a schedule as a conflict exactly when another listed window of
  // that schedule has an instant in common with it.
  lemma ConflictsTellOverlaps(items: seq<Item>, i: nat, scheduleId: nat)
    requires i < |items| && Marked(items, items[i])
    requires forall k :: 0 <= k < |items| ==> items[k].startsAt < items[k].endsAt
    ensures scheduleId in items[i].conflicts <==>
              exists j :: 0 <= j < |items| && items[j].windowId != items[i].windowId
                          && items[j].windowId.scheduleId == scheduleId && ShareInstant(items[i], items[j])
  {
    forall j | 0 <= j < |items|
      ensures Overlap(items[i], items[j]) <==> items[j].windowId != items[i].windowId && ShareInstant(items[i], items[j])
    {
      OverlapIffShared(items[i], items[j]);
    }
    hide Overlap, ShareInstant, WinnerFlag;
  }

  // Conflicts are mutual.
  lemma ConflictsAreMutual(items: seq<Item>, i: nat, j: nat)
    requires i < |items| && j < |items| && Marked(items, items[i]) && Marked(items, items[j])
    requires Overlap(items[i], items[j])
    ensures items[j].windowId.scheduleId in items[i].conflicts
    ensures items[i].windowId.scheduleId in items[j].conflicts
  {
    assert Overlap(items[j], items[i]);
  }

  // ---- The whole preview -------------------------------------------------------------------

  predicate Earlier(a: Item, b: Item) { a.startsAt < b.startsAt }

  method BuildPreview(schedules: seq<Schedule>, skipped: set<WindowId>, now: int, days: nat)
    returns (items: seq<Item>, through: int, ghost listed: seq<Item>)
    requires DistinctIds(schedules)
    ensures through == now + days * DAY
    ensures Complete(listed, schedules, skipped, now, through)
    ensures Sorting.Ordered(items, Earlier) && multiset(items) == multiset(listed)
    ensures forall item :: Sorting.LevelWith(items, item, Earlier) == Sorting.LevelWith(listed, item, Earlier)
    ensures forall k :: 0 <= k < |listed| ==> Marked(listed, listed[k])
  {
    hide Complete, Marked, SameWindows;
    through := now + days * DAY;
    var found := Enumerate(schedules, skipped, now, through);
    var marked := MarkItems(found);
    MarkingKeepsComplete(found, marked, schedules, skipped, now, through);
    listed := marked;
    items := Sorting.Sort(marked, Earlier);
    Sorting.SortOrders(marked, Earlier);
    forall item
      ensures Sorting.LevelWith(items, item, Earlier) == Sorting.LevelWith(listed, item, Earlier)
    {
      Sorting.SortIsStable(marked, item, Earlier);
    }
  }

  lemma MarkingKeepsComplete(
      found: seq<Item>, marked: seq<Item>, schedules: seq<Schedule>, skipped: set<WindowId>, now: int, through: int)
    requires Complete(found, schedules, skipped, now, through) && SameWindows(found, marked)
    requires forall k :: 0 <= k < |marked| ==> Marked(found, marked[k])
    ensures Complete(marked, schedules, skipped, now, through)
    ensures forall k :: 0 <= k < |marked| ==> Marked(marked, marked[k])
  {
    hide IsWindow, Meets, DatedWindow, WinnerFlag, Conflicts;
    forall k | 0 <= k < |marked|
      ensures Listed(schedules, skipped, now, through, marked[k])
      ensures found[k].windowId == marked[k].windowId
    {
      assert SameWindow(found[k], marked[k]);
      var i, date :| 0 <= i < |schedules| && schedules[i].enabled
                     && ItemOf(schedules[i], date, skipped, now, through, found[k]);
      assert ItemOf(schedules[i], date, skipped, now, through, marked[k]);
    }
    forall i, date | 0 <= i < |schedules| && MustList(schedules[i], date, now, through)
      ensures HasItem(marked, DatedWindow(schedules[i], date).windowId)
    {
      var k :| 0 <= k < |found| && found[k].windowId == DatedWindow(schedules[i], date).windowId;
      assert marked[k].windowId == found[k].windowId;
    }
    forall k | 0 <= k < |marked|
      ensures Marked(marked, marked[k])
    {
      MarksIgnoreFlags(found, marked, marked[k]);
    }
  }

  // ---- The flag tells what the coordinator will choose ---------------------------------------

  lemma {:induction false} ContendersAtAreItems(items: seq<Item>, instant: int)
    ensures forall c :: c in ContendersAt(items, instant) <==>
              exists k :: 0 <= k < |items| && RunningAt(items[k], instant)
                          && c == Contender(items[k].windowId, items[k].startsAt, items[k].updatedAt)
  {
    if items != [] {
      var front := items[..|items| - 1];
      ContendersAtAreItems(front, instant);
      forall c
        ensures c in ContendersAt(items, instant) <==>
                  exists k :: 0 <= k < |items| && RunningAt(items[k], instant)
                              && c == Contender(items[k].windowId, items[k].startsAt, items[k].updatedAt)
      {
        if c in ContendersAt(front, instant) {
          var k :| 0 <= k < |front| && RunningAt(front[k], instant)
                   && c == Contender(front[k].windowId, front[k].startsAt, front[k].updatedAt);
          assert items[k] == front[k];
        }
        if k :| 0 <= k < |items| && RunningAt(items[k], instant)
                && c == Contender(items[k].windowId, items[k].startsAt, items[k].updatedAt) {
          if k < |front| {
            assert front[k] == items[k];
          }
        }
      }
    }
  }

  // The window has ended, so the preview does not list it any more.
  ghost predicate IsOver(schedules: seq<Schedule>, id: WindowId, now: int)
  {
    exists i :: 0 <= i < |schedules| && schedules[i].id == id.scheduleId && DatedWindow(schedules[i], id.date).endsAt <= now
  }

  // No window that ran when this one started, and is over by now, beats it.
  ghost predicate NoneOverBeats(schedules: seq<Schedule>, skipped: set<WindowId>, now: int, item: Item)
  {
    forall c :: c in Contenders(schedules, skipped, item.startsAt) && IsOver(schedules, c.windowId, now) ==>
      !Beats(c, Contender(item.windowId, item.startsAt, item.updatedAt))
  }

  // Whoever the list names at an instant was running, and is not over by now.
  lemma ListedContends(items: seq<Item>, schedules: seq<Schedule>, skipped: set<WindowId>, now: int, through: int, at: int, c: Contender)
    requires Complete(items, schedules, skipped, now, through) && DistinctIds(schedules) && c in ContendersAt(items, at)
    ensures c in Contenders(schedules, skipped, at) && !IsOver(schedules, c.windowId, now)
  {
    hide IsWindow, TextLess, Clock, ToEpoch, RunsOn;
    ContendersAtAreItems(items, at);
    ContendersAreWindows(schedules, skipped, at);
    hide ContendersAt, Contenders;
    var k :| 0 <= k < |items| && RunningAt(items[k], at)
             && c == Contender(items[k].windowId, items[k].startsAt, items[k].updatedAt);
    assert Listed(schedules, skipped, now, through, items[k]);
    var i, date :| 0 <= i < |schedules| && schedules[i].enabled
                   && ItemOf(schedules[i], date, skipped, now, through, items[k]);
    assert Competes(schedules[i], skipped, at, c);
  }

  // Whoever was running before the end of the range and is not over is listed.
  lemma ContenderIsListed(items: seq<Item>, schedules: seq<Schedule>, skipped: set<WindowId>, now: int, through: int, at: int, c: Contender)
    requires Complete(items, schedules, skipped, now, through) && DistinctIds(schedules) && at < through
    requires c in Contenders(schedules, skipped, at) && !IsOver(schedules, c.windowId, now)
    ensures c in ContendersAt(items, at)
  {
    hide IsWindow, TextLess, Clock, ToEpoch, RunsOn;
    ContendersAtAreItems(items, at);
    ContendersAreWindows(schedules, skipped, at);
    hide ContendersAt, Contenders;
    var i :| 0 <= i < |schedules| && Competes(schedules[i], skipped, at, c);
    assert schedules[i].id == c.windowId.scheduleId;
    assert MustList(schedules[i], c.windowId.date, now, through);
    var k :| 0 <= k < |items| && items[k].windowId == c.windowId;
    assert Listed(schedules, skipped, now, through, items[k]);
    var j, date :| 0 <= j < |schedules| && schedules[j].enabled
                   && ItemOf(schedules[j], date, skipped, now, through, items[k]);
    assert i == j && date == c.windowId.date;
    assert RunningAt(items[k], at);
  }

  // At any instant before the end of the range the list names whoever was
  // running then and is not over by now.
  lemma ContendersUnlessOver(items: seq<Item>, schedules: seq<Schedule>, skipped: set<WindowId>, now: int, through: int, at: int, c: Contender)
    requires Complete(items, schedules, skipped, now, through) && DistinctIds(schedules) && at < through
    ensures c in ContendersAt(items, at) <==> c in Contenders(schedules, skipped, at) && !IsOver(schedules, c.windowId, now)
  {
    hide *;
    if c in ContendersAt(items, at) {
      ListedContends(items, schedules, skipped, now, through, at, c);
    }
    if c in Contenders(schedules, skipped, at) && !IsOver(schedules, c.windowId, now) {
      ContenderIsListed(items, schedules, skipped, now, through, at, c);
    }
  }

  lemma RunningIsNotOver(schedules: seq<Schedule>, skipped: set<WindowId>, now: int, at: int, c: Contender)
    requires DistinctIds(schedules) && now <= at && c in Contenders(schedules, skipped, at)
    ensures !IsOver(schedules, c.windowId, now)
  {
    hide IsWindow, TextLess, Clock, ToEpoch, RunsOn;
    ContendersAreWindows(schedules, skipped, at);
    hide Contenders;
    var i :| 0 <= i < |schedules| && Competes(schedules[i], skipped, at, c);
  }

  // From now on, the listed windows and the evaluated schedules name the same
  // contenders at every instant of the range.
  lemma SameContenders(items: seq<Item>, schedules: seq<Schedule>, skipped: set<WindowId>, now: int, through: int, at: int, c: Contender)
    requires Complete(items, schedules, skipped, now, through) && DistinctIds(schedules)
    requires now <= at < through
    ensures c in ContendersAt(items, at) <==> c in Contenders(schedules, skipped, at)
  {
    hide *;
    ContendersUnlessOver(items, schedules, skipped, now, through, at, c);
    if c in Contenders(schedules, skipped, at) {
      RunningIsNotOver(schedules, skipped, now, at, c);
    }
  }

  // A listed item starts in the range, is not over, and competes at its start
  // unless it is skipped.
  lemma ListedItem(items: seq<Item>, schedules: seq<Schedule>, skipped: set<WindowId>, now: int, through: int, item: Item)
    requires Complete(items, schedules, skipped, now, through) && DistinctIds(schedules) && item in items
    ensures item.startsAt < through && !IsOver(schedules, item.windowId, now)
    ensures var own := Contender(item.windowId, item.startsAt, item.updatedAt);
            && (!item.skipped ==> own in Contenders(schedules, skipped, item.startsAt))
            && forall c :: c in Contenders(schedules, skipped, item.startsAt) && c.windowId == item.windowId ==> c == own
  {
    hide IsWindow, TextLess, Clock, RunsOn, ToEpoch;
    ContendersAreWindows(schedules, skipped, item.startsAt);
    hide Contenders;
    var k :| 0 <= k < |items| && items[k] == item;
    assert Listed(schedules, skipped, now, through, items[k]);
    var i, date :| 0 <= i < |schedules| && schedules[i].enabled && ItemOf(schedules[i], date, skipped, now, through, item);
    ItsOwnWindow(schedules[i], date);
    assert !item.skipped ==> Competes(schedules[i], skipped, item.startsAt, Contender(item.windowId, item.startsAt, item.updatedAt));
  }

  // A window contains its start.
  lemma ItsOwnWindow(s: Schedule, date: int)
    requires IsWindow(s, date)
    ensures WindowAt(s, date, DatedWindow(s, date).startsAt)
  {}

  lemma ContendersOnePerSchedule(schedules: seq<Schedule>, skipped: set<WindowId>, at: int)
    requires DistinctIds(schedules)
    ensures OnePerSchedule(Contenders(schedules, skipped, at))
  {
    hide WindowAt, Contenders, ToEpoch, TextLess, Clock;
    ContendersAreWindows(schedules, skipped, at);
    forall a, b | a in Contenders(schedules, skipped, at) && b in Contenders(schedules, skipped, at)
                  && a.windowId.scheduleId == b.windowId.scheduleId
      ensures a == b
    {
      var i :| 0 <= i < |schedules| && Competes(schedules[i], skipped, at, a);
      var j :| 0 <= j < |schedules| && Competes(schedules[j], skipped, at, b);
      assert i == j;
      OneWindowPerInstant(schedules[i], a.windowId.date, b.windowId.date, at);
    }
  }

  // For a window that starts from now on, the preview's winner flag is the
  // choice the coordinator makes at the moment the window starts.
  lemma WinnerFlagIsCoordinatorChoice(
      items: seq<Item>, schedules: seq<Schedule>, skipped: set<WindowId>, now: int, through: int, item: Item)
    requires Complete(items, schedules, skipped, now, through) && DistinctIds(schedules)
    requires item in items && now <= item.startsAt
    ensures WinnerFlag(items, item) <==>
              var chosen := SelectWinner(schedules, skipped, item.startsAt);
              chosen.Some? && chosen.value.windowId == item.windowId
  {
    var k :| 0 <= k < |items| && items[k] == item;
    assert Listed(schedules, skipped, now, through, items[k]);
    forall c: Contender
      ensures c in Contenders(schedules, skipped, item.startsAt) <==> c in ContendersAt(items, item.startsAt)
    {
      SameContenders(items, schedules, skipped, now, through, item.startsAt, c);
    }
    ContendersOnePerSchedule(schedules, skipped, item.startsAt);
    BestIgnoresOrder(Contenders(schedules, skipped, item.startsAt), ContendersAt(items, item.startsAt));
  }

  // For any listed window, one that has started before included: the coordinator
  // chose it when it started exactly when the flag is set and no window that was
  // running then, and is over by now, beats it.
  lemma FlagOfStartedWindow(
      items: seq<Item>, schedules: seq<Schedule>, skipped: set<WindowId>, now: int, through: int, item: Item)
    requires Complete(items, schedules, skipped, now, through) && DistinctIds(schedules) && item in items
    ensures (var chosen := SelectWinner(schedules, skipped, item.startsAt);
             chosen.Some? && chosen.value.windowId == item.windowId)
            <==> (WinnerFlag(items, item) && NoneOverBeats(schedules, skipped, now, item))
  {
    var at := item.startsAt;
    var own := Contender(item.windowId, at, item.updatedAt);
    var listed, all := ContendersAt(items, at), Contenders(schedules, skipped, at);
    ListedItem(items, schedules, skipped, now, through, item);
    forall c: Contender
      ensures c in listed <==> c in all && !IsOver(schedules, c.windowId, now)
    {
      ContendersUnlessOver(items, schedules, skipped, now, through, at, c);
    }
    ContendersOnePerSchedule(schedules, skipped, at);
    BestIsMaximal(listed);
    BestIsMaximal(all);
    hide ContendersAt, Contenders, Best, IsOver, Complete, DatedWindow;
    var chosen, best := Best(all), Best(listed);
    if chosen.Some? && chosen.value.windowId == item.windowId {
      assert item.skipped || chosen.value == own;
      assert chosen.value in listed ==> !Beats(best.value, chosen.value) && !Beats(chosen.value, best.value);
      assert best == chosen;
    }
    if WinnerFlag(items, item) && NoneOverBeats(schedules, skipped, now, item) {
      assert best.value == own && own in all;
      assert !Beats(chosen.value, own) && !Beats(own, chosen.value);
      assert chosen.value == own;
    }
  }

  // Two windows on Thursday the first, both from ten: one until three in the
  // afternoon, the other, edited later, until twenty to twelve.
  const LONG := Schedule(1, true, {4}, 600, 900, 0, 0)
  const SHORT := Schedule(2, true, {4}, 600, 700, 0, 1)
  const TEN := 600 * MINUTE
  const LONG_ITEM := Item(WindowId(1, 0, 600, 900), TEN, 900 * MINUTE, 0, false, true, {})

  // Within a day from twenty past one, only the long window is to be listed.
  lemma OnlyLongMustBeListed(now: int, date: int)
    requires now == 800 * MINUTE
    ensures MustList(LONG, date, now, now + DAY) ==> date == 0
    ensures !MustList(SHORT, date, now, now + DAY)
  {
    TextOrderIsMinuteOrder(900, 600);
    TextOrderIsMinuteOrder(700, 600);
    RunsOnWeekday(LONG, date);
    RunsOnWeekday(SHORT, date);
    hide Clock, TextLess, RunsOn;
  }

  lemma LongIsListed(now: int)
    requires now == 800 * MINUTE
    ensures Complete([LONG_ITEM], [LONG, SHORT], {}, now, now + DAY)
  {
    TextOrderIsMinuteOrder(900, 600);
    hide Clock, TextLess;
    var items, schedules := [LONG_ITEM], [LONG, SHORT];
    assert ItemOf(schedules[0], 0, {}, now, now + DAY, items[0]);
    assert items[0].windowId == DatedWindow(LONG, 0).windowId;
    hide ItemOf, MustList, DatedWindow;
    forall i, date | 0 <= i < |schedules| && MustList(schedules[i], date, now, now + DAY)
      ensures HasItem(items, DatedWindow(schedules[i], date).windowId)
    {
      OnlyLongMustBeListed(now, date);
    }
  }

  lemma BothRunAtTen()
    ensures Contenders([LONG, SHORT], {}, TEN)
         == [Contender(LONG_ITEM.windowId, TEN, 0), Contender(WindowId(2, 0, 600, 700), TEN, 1)]
  {
    var long, short := Contender(LONG_ITEM.windowId, TEN, 0), Contender(WindowId(2, 0, 600, 700), TEN, 1);
    assert StateOf(LONG, {}, TEN) == Active(long.windowId, TEN) && StateOf(SHORT, {}, TEN) == Active(short.windowId, TEN);
    hide StateOf;
    assert [LONG, SHORT][..1] == [LONG] && [LONG][..0] == [];
    assert Contenders([LONG], {}, TEN) == [long];
  }

  lemma ShortWasPreferred()
    ensures Best(ContendersAt([LONG_ITEM], TEN)) == Some(Contender(LONG_ITEM.windowId, TEN, 0))
    ensures SelectWinner([LONG, SHORT], {}, TEN) == Some(Contender(WindowId(2, 0, 600, 700), TEN, 1))
  {
    var long, short := Contender(LONG_ITEM.windowId, TEN, 0), Contender(WindowId(2, 0, 600, 700), TEN, 1);
    assert [LONG_ITEM][..0] == [];
    assert ContendersAt([LONG_ITEM], TEN) == [long];
    BothRunAtTen();
    hide ContendersAt, Contenders;
    BestIsMaximal([long]);
    BestIsMaximal([long, short]);
    hide Best;
    assert [long, short][1] == short && Beats(short, long);
  }

  // It does make a difference: the preferred window is over, and the preview
  // flags the other one, which the coordinator did not start.
  lemma FlagCanNameTheLoser(now: int)
    requires now == 800 * MINUTE
    ensures Complete([LONG_ITEM], [LONG, SHORT], {}, now, now + DAY) && DistinctIds([LONG, SHORT])
    ensures WinnerFlag([LONG_ITEM], LONG_ITEM)
    ensures SelectWinner([LONG, SHORT], {}, LONG_ITEM.startsAt) == Some(Contender(WindowId(2, 0, 600, 700), TEN, 1))
  {
    LongIsListed(now);
    ShortWasPreferred();
    hide Complete, Best, ContendersAt, Contenders, SelectWinner;
  }
}
