/**
 * The shared activity feed (src/hooks/useFeed.ts): the events a day log
 * produces, the three-day window, the grouping of events into days and the
 * completed counts of the progress header.
 *
 * Event ids, reactions and comments come from code outside this model and are
 * not part of an event here; "today" (the habit date) is a parameter.
 */
module Feed {
  import opened Common
  import opened Dates
  import opened Habits
  import opened Sorting

  const FEED_DAYS: nat := 3

  /** What an event is about: one habit, or the whole day. */
  datatype EventHabit = HabitEvent(id: HabitId) | AllComplete

  datatype FeedEvent = FeedEvent(
    userId: string,
    userName: string,
    date: Date,
    habit: EventHabit,
    habitLabel: string,
    completedAt: Timestamp,
    flavorText: string)

  /** `getFlavorText`: the sentence under an event card. */
  function FlavorText(userName: string, habitId: HabitId, data: HabitData): string {
    match habitId
    case WakeUpOnTime => userName + " woke up on time"
    case MorningSunlight => userName + " got morning sunlight"
    case Water => userName + " hit " + OptionalIntText(data.currentOz) + "oz of water"
    case Journal => userName + " journaled today"
    case Reading => userName + " read " + OptionalIntText(data.pagesRead) + " pages"
    case Workout =>
      if data.note.Some? && data.note.value != "" then userName + " crushed " + data.note.value
      else userName + " completed a workout"
    case Meditate => userName + " meditated"
  }

  /** Every flavor text opens with the user's name; a workout names its note when there is one. */
  lemma FlavorTextShape(userName: string, habitId: HabitId, data: HabitData)
    ensures var r := FlavorText(userName, habitId, data);
      |r| > |userName| && r[..|userName|] == userName
    ensures habitId == Workout && data.note.Some? && data.note.value != "" ==>
      FlavorText(userName, habitId, data) == userName + " crushed " + data.note.value
    ensures habitId == Workout && (data.note.None? || data.note.value == "") ==>
      FlavorText(userName, habitId, data) == userName + " completed a workout"
  {
  }

  /** A possibly missing number in a template literal: JavaScript writes `undefined`. */
  function OptionalIntText(n: Option<int>): string {
    if n.Some? then IntText(n.value) else "undefined"
  }

  /** A habit produces an event when its entry is present, completed and stamped. */
  predicate Emits(habits: DayHabits, h: HabitId) {
    h in habits && habits[h].completed && habits[h].completedAt.Some?
  }

  /** The event of one habit; its label is the habit's definition (see `DefinitionAtOrderIndex`). */
  function HabitEventOf(log: HabitLog, userName: string, h: HabitId): FeedEvent
    requires Emits(log.habits, h)
  {
    var data := log.habits[h];
    FeedEvent(log.userId, userName, log.date, HabitEvent(h), HABIT_DEFINITIONS[OrderIndex(h)].labelText,
              data.completedAt.value, FlavorText(userName, h, data))
  }

  /** The habit events of `ids`, in the order of `ids`. */
  function HabitEvents(ids: seq<HabitId>, log: HabitLog, userName: string): seq<FeedEvent> {
    if ids == [] then []
    else
      var h := ids[|ids| - 1];
      HabitEvents(ids[..|ids| - 1], log, userName)
      + (if Emits(log.habits, h) then [HabitEventOf(log, userName, h)] else [])
  }

  /** The latest completion time of a non-empty event list, as the `reduce` computes it. */
  function LatestCompletedAt(events: seq<FeedEvent>): (t: Timestamp)
    requires |events| > 0
    ensures forall k :: 0 <= k < |events| ==> events[k].completedAt <= t
    ensures exists k :: 0 <= k < |events| && events[k].completedAt == t
  {
    if |events| == 1 then events[0].completedAt
    else
      var prev := LatestCompletedAt(events[..|events| - 1]);
      var last := events[|events| - 1].completedAt;
      assert forall k :: 0 <= k < |events| - 1 ==> events[..|events| - 1][k] == events[k];
      if last > prev then last else prev
  }

  function AllCompleteEvent(log: HabitLog, userName: string, latest: Timestamp): FeedEvent {
    FeedEvent(log.userId, userName, log.date, AllComplete, "All Habits Complete!", latest,
              userName + " completed all " + NatText(|HABIT_ORDER|) + " habits!")
  }

  /** The events of one log: its habit events, then the all-complete event when every habit produced one. */
  function LogEvents(log: HabitLog, userName: string): seq<FeedEvent> {
    var habitEvents := HabitEvents(HABIT_ORDER, log, userName);
    habitEvents
    + (if |habitEvents| == |HABIT_ORDER| then [AllCompleteEvent(log, userName, LatestCompletedAt(habitEvents))] else [])
  }

  /** `buildEventsFromLog`: one pass over `HABIT_ORDER` with a running count. */
  method BuildEventsFromLog(log: HabitLog, userName: string) returns (events: seq<FeedEvent>)
    ensures events == LogEvents(log, userName)
  {
    events := [];
    var completedCount := 0;
    for i := 0 to |HABIT_ORDER|
      invariant events == HabitEvents(HABIT_ORDER[..i], log, userName)
      invariant completedCount == |events|
    {
      var habitId := HABIT_ORDER[i];
      assert HABIT_ORDER[..i + 1][..i] == HABIT_ORDER[..i];
      if !(habitId in log.habits && log.habits[habitId].completed) || log.habits[habitId].completedAt.None? {
        continue;
      }
      completedCount := completedCount + 1;
      events := events + [HabitEventOf(log, userName, habitId)];
    }
    assert HABIT_ORDER[..|HABIT_ORDER|] == HABIT_ORDER;
    if completedCount == |HABIT_ORDER| {
      var latestTime := LatestCompletedAt(events);
      events := events + [AllCompleteEvent(log, userName, latestTime)];
    }
  }

  /** An event's place in `HABIT_ORDER`; the all-complete event comes after all seven. */
  function EventRank(e: FeedEvent): nat {
    if e.habit.HabitEvent? then OrderIndex(e.habit.id) else |HABIT_ORDER|
  }

  /** `e` is an event of habit `h` of `log`, by `userName`, stamped with the habit's completion time. */
  predicate IsEventOf(e: FeedEvent, log: HabitLog, userName: string, h: HabitId) {
    && Emits(log.habits, h)
    && e.habit == HabitEvent(h)
    && e.userId == log.userId && e.userName == userName && e.date == log.date
    && e.completedAt == log.habits[h].completedAt.value
  }

  /** Each habit event is the event of an emitting habit of `ids`. */
  lemma {:induction false} HabitEventsComeFromIds(ids: seq<HabitId>, log: HabitLog, userName: string)
    ensures |HabitEvents(ids, log, userName)| <= |ids|
    ensures forall e :: e in HabitEvents(ids, log, userName) ==>
      e.habit.HabitEvent? && e.habit.id in ids && IsEventOf(e, log, userName, e.habit.id)
  {
    if ids != [] {
      var init := ids[..|ids| - 1];
      HabitEventsComeFromIds(init, log, userName);
      assert forall x :: x in init ==> x in ids;
    }
  }

  /** Each emitting habit of `ids` has its event. */
  lemma {:induction false} EmittingHabitsHaveEvents(ids: seq<HabitId>, log: HabitLog, userName: string, h: HabitId)
    requires h in ids && Emits(log.habits, h)
    ensures HabitEventOf(log, userName, h) in HabitEvents(ids, log, userName)
  {
    var init := ids[..|ids| - 1];
    if h != ids[|ids| - 1] {
      assert h in init by {
        var i :| 0 <= i < |ids| && ids[i] == h;
        assert init[i] == h;
      }
      EmittingHabitsHaveEvents(init, log, userName, h);
    }
  }

  /** Every habit of `ids` produces an event exactly when there are as many events as ids. */
  lemma {:induction false} FullEventsIffAllEmit(ids: seq<HabitId>, log: HabitLog, userName: string)
    ensures |HabitEvents(ids, log, userName)| == |ids| <==> forall i :: 0 <= i < |ids| ==> Emits(log.habits, ids[i])
  {
    if ids != [] {
      var init := ids[..|ids| - 1];
      var last := ids[|ids| - 1];
      FullEventsIffAllEmit(init, log, userName);
      HabitEventsComeFromIds(init, log, userName);
      var n := |HabitEvents(init, log, userName)|;
      if Emits(log.habits, last) {
        assert |HabitEvents(ids, log, userName)| == n + 1;
        assert (forall i :: 0 <= i < |ids| ==> Emits(log.habits, ids[i]))
          <==> (forall i :: 0 <= i < |init| ==> Emits(log.habits, init[i]));
      } else {
        assert |HabitEvents(ids, log, userName)| == n;
      }
    }
  }

  /** Habit events follow the order of `ids` when `ids` runs through the habits in `HABIT_ORDER` order. */
  lemma {:induction false} HabitEventsFollowOrder(ids: seq<HabitId>, log: HabitLog, userName: string)
    requires forall p, q :: 0 <= p < q < |ids| ==> OrderIndex(ids[p]) < OrderIndex(ids[q])
    ensures forall p, q :: 0 <= p < q < |HabitEvents(ids, log, userName)| ==>
      EventRank(HabitEvents(ids, log, userName)[p]) < EventRank(HabitEvents(ids, log, userName)[q])
  {
    if ids != [] {
      var init := ids[..|ids| - 1];
      var last := ids[|ids| - 1];
      assert forall p, q :: 0 <= p < q < |init| ==> init[p] == ids[p] && init[q] == ids[q];
      HabitEventsFollowOrder(init, log, userName);
      HabitEventsComeFromIds(init, log, userName);
      var prev := HabitEvents(init, log, userName);
      forall e | e in prev
        ensures EventRank(e) < OrderIndex(last)
      {
        var p :| 0 <= p < |init| && init[p] == e.habit.id;
        assert ids[p] == e.habit.id;
      }
    }
  }

  /** The habit events of a log hold its emitting habits, in `HABIT_ORDER` order. */
  lemma LogHabitEvents(log: HabitLog, userName: string)
    ensures |HabitEvents(HABIT_ORDER, log, userName)| <= 7
    ensures forall h :: Emits(log.habits, h) <==> exists e :: e in HabitEvents(HABIT_ORDER, log, userName) && e.habit == HabitEvent(h)
    ensures forall p, q :: 0 <= p < q < |HabitEvents(HABIT_ORDER, log, userName)| ==>
      EventRank(HabitEvents(HABIT_ORDER, log, userName)[p]) < EventRank(HabitEvents(HABIT_ORDER, log, userName)[q])
    ensures |HabitEvents(HABIT_ORDER, log, userName)| == 7 <==> forall h :: Emits(log.habits, h)
  {
    var events := HabitEvents(HABIT_ORDER, log, userName);
    HabitOrderIsTheHabitIdUnion();
    HabitEventsComeFromIds(HABIT_ORDER, log, userName);
    HabitEventsFollowOrder(HABIT_ORDER, log, userName);
    FullEventsIffAllEmit(HABIT_ORDER, log, userName);
    forall h | Emits(log.habits, h) ensures exists e :: e in events && e.habit == HabitEvent(h) {
      EmittingHabitsHaveEvents(HABIT_ORDER, log, userName, h);
      assert HabitEventOf(log, userName, h) in events;
    }
    if forall h :: Emits(log.habits, h) {
      assert forall i :: 0 <= i < |HABIT_ORDER| ==> Emits(log.habits, HABIT_ORDER[i]);
    }
    if |events| == 7 {
      forall h ensures Emits(log.habits, h) {
        assert HABIT_ORDER[OrderIndex(h)] == h;
      }
    }
  }

  /** A log gives at most eight events, in `HABIT_ORDER` order with the all-complete event last. */
  lemma LogEventsInOrder(log: HabitLog, userName: string)
    ensures |LogEvents(log, userName)| <= 8
    ensures forall p, q :: 0 <= p < q < |LogEvents(log, userName)| ==>
      EventRank(LogEvents(log, userName)[p]) < EventRank(LogEvents(log, userName)[q])
  {
    var habitEvents := HabitEvents(HABIT_ORDER, log, userName);
    var events := LogEvents(log, userName);
    LogHabitEvents(log, userName);
    if |habitEvents| == 7 {
      HabitEventsComeFromIds(HABIT_ORDER, log, userName);
      assert events == habitEvents + [events[7]];
      forall p | 0 <= p < 7 ensures EventRank(events[p]) < 7 {
        assert events[p] == habitEvents[p];
        assert habitEvents[p] in habitEvents;
      }
    } else {
      assert events == habitEvents;
    }
  }

  /** The all-complete event is there exactly when all seven habits produced an event. */
  lemma AllCompleteIffEveryHabitEmits(log: HabitLog, userName: string)
    ensures (exists k :: 0 <= k < |LogEvents(log, userName)| && LogEvents(log, userName)[k].habit == AllComplete)
      <==> forall h :: Emits(log.habits, h)
  {
    var habitEvents := HabitEvents(HABIT_ORDER, log, userName);
    var events := LogEvents(log, userName);
    LogHabitEvents(log, userName);
    if |habitEvents| == 7 {
      assert events[7].habit == AllComplete;
    } else {
      HabitEventsComeFromIds(HABIT_ORDER, log, userName);
      assert events == habitEvents;
      forall k | 0 <= k < |events| ensures events[k].habit != AllComplete {
        assert habitEvents[k] in habitEvents;
      }
    }
  }

  /** The all-complete event is stamped with the latest completion time of the seven habit events. */
  lemma AllCompleteIsLatest(log: HabitLog, userName: string)
    requires forall h :: Emits(log.habits, h)
    ensures var events := LogEvents(log, userName);
      |events| == 8 && events[7].habit == AllComplete
      && (forall k :: 0 <= k < 7 ==> events[k].completedAt <= events[7].completedAt)
      && (exists k :: 0 <= k < 7 && events[k].completedAt == events[7].completedAt)
  {
    LogHabitEvents(log, userName);
    var habitEvents := HabitEvents(HABIT_ORDER, log, userName);
    var events := LogEvents(log, userName);
    assert forall k :: 0 <= k < 7 ==> events[k] == habitEvents[k];
  }

  /** A habit marked completed without a completion time gets no event and blocks the all-complete event. */
  lemma UnstampedHabitBlocksAllComplete(log: HabitLog, userName: string, h: HabitId)
    requires h in log.habits && log.habits[h].completed && log.habits[h].completedAt.None?
    ensures forall e :: e in LogEvents(log, userName) ==> e.habit != AllComplete && e.habit != HabitEvent(h)
  {
    LogHabitEvents(log, userName);
    HabitEventsComeFromIds(HABIT_ORDER, log, userName);
    assert !Emits(log.habits, h);
    assert LogEvents(log, userName) == HabitEvents(HABIT_ORDER, log, userName);
  }

  /** The dates of the feed: today's habit date and the days before it, newest first. */
  function FeedWindow(today: Date): (dates: seq<Date>)
    ensures |dates| == FEED_DAYS && dates[0] == today
    ensures forall i :: 0 <= i < |dates| ==> dates[i] == today - i
  {
    seq(FEED_DAYS, i => today - i)
  }

  lemma WindowIsNewestFirst(today: Date)
    ensures forall p, q :: 0 <= p < q < |FeedWindow(today)| ==> FeedWindow(today)[p] > FeedWindow(today)[q]
    ensures forall d :: d in FeedWindow(today) <==> today - FEED_DAYS < d <= today
  {
    var w := FeedWindow(today);
    forall d | today - FEED_DAYS < d <= today ensures d in w {
      assert w[today - d] == d;
    }
  }

  /** The events of the window: per date, mine then my partner's; a date without a log adds nothing. */
  function WindowEvents(dates: seq<Date>, myLogs: map<Date, HabitLog>, partnerLogs: map<Date, HabitLog>,
                        myName: string, partnerName: string): seq<FeedEvent>
  {
    if dates == [] then []
    else
      var date := dates[|dates| - 1];
      WindowEvents(dates[..|dates| - 1], myLogs, partnerLogs, myName, partnerName)
      + (if date in myLogs then LogEvents(myLogs[date], myName) else [])
      + (if date in partnerLogs then LogEvents(partnerLogs[date], partnerName) else [])
  }

  /** The `allEvents` loop over the window. */
  method CollectEvents(dates: seq<Date>, myLogs: map<Date, HabitLog>, partnerLogs: map<Date, HabitLog>,
                       myName: string, partnerName: string) returns (events: seq<FeedEvent>)
    ensures events == WindowEvents(dates, myLogs, partnerLogs, myName, partnerName)
  {
    events := [];
    for i := 0 to |dates|
      invariant events == WindowEvents(dates[..i], myLogs, partnerLogs, myName, partnerName)
    {
      var date := dates[i];
      assert dates[..i + 1][..i] == dates[..i];
      if date in myLogs {
        var mine := BuildEventsFromLog(myLogs[date], myName);
        events := events + mine;
      }
      if date in partnerLogs {
        var theirs := BuildEventsFromLog(partnerLogs[date], partnerName);
        events := events + theirs;
      }
    }
    assert dates[..|dates|] == dates;
  }

  /** When each log is filed under its own date, every window event carries a window date. */
  lemma {:induction false} WindowEventsAreDated(dates: seq<Date>, myLogs: map<Date, HabitLog>, partnerLogs: map<Date, HabitLog>,
                                               myName: string, partnerName: string)
    requires forall d :: d in myLogs ==> myLogs[d].date == d
    requires forall d :: d in partnerLogs ==> partnerLogs[d].date == d
    ensures forall e :: e in WindowEvents(dates, myLogs, partnerLogs, myName, partnerName) ==> e.date in dates
  {
    if dates != [] {
      var init := dates[..|dates| - 1];
      WindowEventsAreDated(init, myLogs, partnerLogs, myName, partnerName);
      var date := dates[|dates| - 1];
      if date in myLogs {
        LogEventsAreDated(myLogs[date], myName);
      }
      if date in partnerLogs {
        LogEventsAreDated(partnerLogs[date], partnerName);
      }
      assert forall d :: d in init ==> d in dates;
    }
  }

  lemma LogEventsAreDated(log: HabitLog, userName: string)
    ensures forall e :: e in LogEvents(log, userName) ==> e.date == log.date && e.userId == log.userId && e.userName == userName
  {
    HabitEventsComeFromIds(HABIT_ORDER, log, userName);
  }

  /** The events of `events` that fall on `date`, in their order. */
  function EventsOn(events: seq<FeedEvent>, date: Date): seq<FeedEvent> {
    if events == [] then []
    else
      EventsOn(events[..|events| - 1], date)
      + (if events[|events| - 1].date == date then [events[|events| - 1]] else [])
  }

  /** Each event occurs in a date's group as often as in the list if it has that date, and never otherwise. */
  lemma {:induction false} EventsOnCounts(events: seq<FeedEvent>, date: Date)
    ensures forall e :: multiset(EventsOn(events, date))[e] == if e.date == date then multiset(events)[e] else 0
  {
    if events != [] {
      var init := events[..|events| - 1];
      EventsOnCounts(init, date);
      assert events == init + [events[|events| - 1]];
    }
  }

  /** Grouping after a reordering gives the same groups up to order. */
  lemma SameEventsSameGroups(s: seq<FeedEvent>, t: seq<FeedEvent>, date: Date)
    requires multiset(s) == multiset(t)
    ensures multiset(EventsOn(s, date)) == multiset(EventsOn(t, date))
  {
    EventsOnCounts(s, date);
    EventsOnCounts(t, date);
  }

  /** A group of a list sorted by completion time is itself sorted. */
  lemma {:induction false} GroupOfSortedIsSorted(events: seq<FeedEvent>, date: Date)
    requires SortedDescending(events, CompletedAtKey)
    ensures SortedDescending(EventsOn(events, date), CompletedAtKey)
    ensures forall e :: e in EventsOn(events, date) ==> e in events && e.date == date
  {
    if events != [] {
      var init := events[..|events| - 1];
      assert forall p, q :: 0 <= p < q < |init| ==> init[p] == events[p] && init[q] == events[q];
      GroupOfSortedIsSorted(init, date);
      assert forall e :: e in init ==> e in events;
      forall e | e in EventsOn(init, date)
        ensures e.completedAt >= events[|events| - 1].completedAt
      {
        var p :| 0 <= p < |init| && init[p] == e;
        assert events[p] == e;
      }
    }
  }

  function CompletedAtKey(e: FeedEvent): int {
    e.completedAt
  }

  lemma {:induction false} EventsOnOfConcat(s: seq<FeedEvent>, t: seq<FeedEvent>, date: Date)
    ensures EventsOn(s + t, date) == EventsOn(s, date) + EventsOn(t, date)
  {
    if t == [] {
      assert s + t == s;
    } else {
      var t' := t[..|t| - 1];
      assert (s + t)[..|s + t| - 1] == s + t';
      EventsOnOfConcat(s, t', date);
    }
  }

  /** Taking a date's events and taking the events of one completion time commute. */
  lemma {:induction false} GroupOfKeyClass(events: seq<FeedEvent>, date: Date, k: int)
    ensures KeyClass(EventsOn(events, date), CompletedAtKey, k) == EventsOn(KeyClass(events, CompletedAtKey, k), date)
  {
    if events != [] {
      var init := events[..|events| - 1];
      var e := events[|events| - 1];
      GroupOfKeyClass(init, date, k);
      var byDate := if e.date == date then [e] else [];
      var byKey := if CompletedAtKey(e) == k then [e] else [];
      KeyClassOfConcat(EventsOn(init, date), byDate, CompletedAtKey, k);
      EventsOnOfConcat(KeyClass(init, CompletedAtKey, k), byKey, date);
      assert [e][..0] == [];
      assert KeyClass(byDate, CompletedAtKey, k) == EventsOn(byKey, date);
    }
  }

  /** Lists with the same events at each completion time have, date by date, the same events at each completion time. */
  lemma GroupsKeepKeyClasses(s: seq<FeedEvent>, t: seq<FeedEvent>, date: Date)
    requires SameKeyClasses(s, t, CompletedAtKey)
    ensures SameKeyClasses(EventsOn(s, date), EventsOn(t, date), CompletedAtKey)
  {
    forall k ensures KeyClass(EventsOn(s, date), CompletedAtKey, k) == KeyClass(EventsOn(t, date), CompletedAtKey, k) {
      GroupOfKeyClass(s, date, k);
      GroupOfKeyClass(t, date, k);
    }
  }

  /** The `dayMap` loop: events appended to their date's group, in list order. */
  method GroupByDate(events: seq<FeedEvent>) returns (dayMap: map<Date, seq<FeedEvent>>)
    ensures forall d :: d in dayMap ==> dayMap[d] == EventsOn(events, d) && dayMap[d] != []
    ensures forall d :: d !in dayMap ==> EventsOn(events, d) == []
  {
    dayMap := map[];
    for i := 0 to |events|
      invariant forall d :: d in dayMap ==> dayMap[d] == EventsOn(events[..i], d) && dayMap[d] != []
      invariant forall d :: d !in dayMap ==> EventsOn(events[..i], d) == []
    {
      var event := events[i];
      assert events[..i + 1][..i] == events[..i];
      var existing := if event.date in dayMap then dayMap[event.date] else [];
      dayMap := dayMap[event.date := existing + [event]];
    }
    assert events[..|events|] == events;
  }

  /** How a day is headed: today (with its challenge day when a start date is set), yesterday, or a calendar date. */
  datatype DayLabel = TodayLabel(dayNum: Option<int>) | YesterdayLabel | DateLabel(date: Date)

  function LabelOf(date: Date, today: Date, challengeStart: Option<Date>): (l: DayLabel)
    ensures l.TodayLabel? <==> date == today
    ensures l.YesterdayLabel? <==> date == today - 1
    ensures l.TodayLabel? ==> (l.dayNum.Some? <==> challengeStart.Some?)
  {
    if date == today then
      TodayLabel(if challengeStart.Some? then Some((date - challengeStart.value) + 1) else None)
    else if date == today - 1 then YesterdayLabel
    else DateLabel(date)
  }

  /** Today's "Day N" is the challenge day number of the dashboard. */
  lemma TodayLabelIsDayNumber(today: Date, challengeStart: Date)
    ensures LabelOf(today, today, Some(challengeStart)) == TodayLabel(Some(GetDayNumber(challengeStart, today)))
  {
  }

  datatype FeedDay = FeedDay(date: Date, heading: DayLabel, events: seq<FeedEvent>)

  predicate HasEvents(dayMap: map<Date, seq<FeedEvent>>, date: Date) {
    date in dayMap && dayMap[date] != []
  }

  predicate Listed(days: seq<FeedDay>, date: Date) {
    exists k :: 0 <= k < |days| && days[k].date == date
  }

  /** A day of the feed: a window date, its group of events, and its heading. */
  predicate IsFeedDay(day: FeedDay, dayMap: map<Date, seq<FeedEvent>>, today: Date, challengeStart: Option<Date>) {
    && HasEvents(dayMap, day.date) && day.events == dayMap[day.date]
    && day.heading == LabelOf(day.date, today, challengeStart)
    && today - FEED_DAYS < day.date <= today
  }

  predicate NewestFirst(days: seq<FeedDay>) {
    forall p, q :: 0 <= p < q < |days| ==> days[p].date > days[q].date
  }

  /** The `days` loop: the window's dates in order, skipping those without events. */
  method BuildFeedDays(dayMap: map<Date, seq<FeedEvent>>, today: Date, challengeStart: Option<Date>)
    returns (days: seq<FeedDay>)
    ensures forall k :: 0 <= k < |days| ==> IsFeedDay(days[k], dayMap, today, challengeStart)
    ensures NewestFirst(days)
    ensures forall d :: today - FEED_DAYS < d <= today ==> (HasEvents(dayMap, d) <==> Listed(days, d))
  {
    var dates := FeedWindow(today);
    days := [];
    for i := 0 to |dates|
      invariant forall k :: 0 <= k < |days| ==> IsFeedDay(days[k], dayMap, today, challengeStart) && today - i < days[k].date
      invariant NewestFirst(days)
      invariant forall d :: today - i < d <= today ==> (HasEvents(dayMap, d) <==> Listed(days, d))
    {
      var date := dates[i];
      var events := if date in dayMap then dayMap[date] else [];
      if events == [] {
        assert !Listed(days, date);
        continue;
      }
      var heading := LabelOf(date, today, challengeStart);
      ghost var before := days;
      days := days + [FeedDay(date, heading, events)];
      ListedAfterAppend(before, FeedDay(date, heading, events));
    }
  }

  lemma ListedAfterAppend(days: seq<FeedDay>, day: FeedDay)
    ensures forall d :: Listed(days + [day], d) <==> Listed(days, d) || d == day.date
  {
    var after := days + [day];
    forall d ensures Listed(after, d) <==> Listed(days, d) || d == day.date {
      if Listed(days, d) {
        var k :| 0 <= k < |days| && days[k].date == d;
        assert after[k].date == d;
      }
      if d == day.date {
        assert after[|days|].date == d;
      }
      if Listed(after, d) {
        var k :| 0 <= k < |after| && after[k].date == d;
        if k < |days| {
          assert days[k].date == d;
        }
      }
    }
  }

  /**
   * `feedDays`: events sorted by completion time, newest first (a stable
   * sort), grouped by date and laid out in window order.
   */
  method FeedDays(allEvents: seq<FeedEvent>, today: Date, challengeStart: Option<Date>) returns (days: seq<FeedDay>)
    ensures forall k :: 0 <= k < |days| ==>
      days[k].events != []
      && SortedDescending(days[k].events, CompletedAtKey)
      && multiset(days[k].events) == multiset(EventsOn(allEvents, days[k].date))
      && SameKeyClasses(days[k].events, EventsOn(allEvents, days[k].date), CompletedAtKey)
      && (forall e :: e in days[k].events ==> e.date == days[k].date)
      && days[k].heading == LabelOf(days[k].date, today, challengeStart)
      && today - FEED_DAYS < days[k].date <= today
    ensures NewestFirst(days)
    ensures forall d :: today - FEED_DAYS < d <= today ==> (EventsOn(allEvents, d) != [] <==> Listed(days, d))
  {
    var a := new FeedEvent[|allEvents|](i requires 0 <= i < |allEvents| => allEvents[i]);
    assert a[..] == allEvents;
    SortDescendingBy(a, CompletedAtKey);
    var sorted := a[..];
    var dayMap := GroupByDate(sorted);
    days := BuildFeedDays(dayMap, today, challengeStart);
    forall k | 0 <= k < |days|
      ensures SortedDescending(days[k].events, CompletedAtKey)
      ensures multiset(days[k].events) == multiset(EventsOn(allEvents, days[k].date))
      ensures SameKeyClasses(days[k].events, EventsOn(allEvents, days[k].date), CompletedAtKey)
      ensures forall e :: e in days[k].events ==> e.date == days[k].date
    {
      assert IsFeedDay(days[k], dayMap, today, challengeStart);
      GroupOfSortedIsSorted(sorted, days[k].date);
      SameEventsSameGroups(sorted, allEvents, days[k].date);
      GroupsKeepKeyClasses(sorted, allEvents, days[k].date);
    }
    forall d | today - FEED_DAYS < d <= today
      ensures EventsOn(allEvents, d) != [] <==> Listed(days, d)
    {
      SameEventsSameGroups(sorted, allEvents, d);
      assert HasEvents(dayMap, d) <==> EventsOn(sorted, d) != [];
    }
  }

  /** The progress header's count: the completed entries of the log for today, or 0 without one. */
  function TodayCompletedCount(logs: map<Date, HabitLog>, today: Date): (n: nat)
    ensures today !in logs ==> n == 0
    ensures today in logs ==> n == |CompletedSet(logs[today].habits)|
    ensures n <= |HABIT_ORDER|
  {
    if today in logs then
      OrderCountIsValueCount(logs[today].habits);
      CompletedValueCount(logs[today].habits)
    else 0
  }
}
