/**
 * The statistics that `useSharedStats` (src/hooks/useSharedStats.ts) derives
 * from the two partners' logs: daily stats, per-habit streak tables, today's
 * count, the 25-day chunk grid and the sorted habit comparisons.
 *
 * The fetch is left out: the two log lists (newest first) and "today" are
 * parameters.
 */
module SharedStats {
  import opened Common
  import opened Dates
  import opened Habits
  import opened Streaks
  import opened Sorting

  datatype DayStats = DayStats(date: Date, completedCount: nat, totalCount: nat)

  /** The stats of one log: the completed entries of its record out of the seven habits. */
  function DayStatsOf(log: HabitLog): (s: DayStats)
    ensures s.date == log.date && s.totalCount == 7
    ensures s.completedCount == |CompletedSet(log.habits)| <= s.totalCount
  {
    OrderCountIsValueCount(log.habits);
    DayStats(log.date, CompletedValueCount(log.habits), |HABIT_ORDER|)
  }

  /** `buildDailyStats`: one entry per log, in log order. */
  function BuildDailyStats(logs: seq<HabitLog>): (r: seq<DayStats>)
    ensures |r| == |logs|
    ensures forall i :: 0 <= i < |logs| ==>
      r[i].date == logs[i].date && r[i].totalCount == 7
      && r[i].completedCount == |CompletedSet(logs[i].habits)| <= 7
  {
    seq(|logs|, i requires 0 <= i < |logs| => DayStatsOf(logs[i]))
  }

  /** Counting the record's values agrees with the streak engine's count along `HABIT_ORDER`. */
  lemma DailyCountIsDayCompletionCount(logs: seq<HabitLog>, i: int)
    requires WellFormedLogs(logs) && 0 <= i < |logs|
    ensures BuildDailyStats(logs)[i].completedCount == CalculateDayCompletionCount(logs[i].habits)
  {
  }

  datatype HabitStreak = HabitStreak(habitId: HabitId, currentStreak: nat, longestStreak: nat, completionRate: Ratio)

  /** The streak table row of one habit; `calculateStreak` is the method `Streaks.CalculateStreak`, proved equal to these runs. */
  function StreakOf(logs: seq<HabitLog>, habitId: HabitId): (s: HabitStreak)
    requires WellFormedLogs(logs)
    ensures s.habitId == habitId
    ensures s.currentStreak == LeadingRun(CompletionFlags(logs, habitId))
    ensures s.longestStreak == LongestRun(CompletionFlags(logs, habitId))
    ensures s.currentStreak <= s.longestStreak <= |logs|
    ensures s.completionRate == CalculateCompletionRate(logs, habitId)
  {
    var f := CompletionFlags(logs, habitId);
    CurrentAtMostLongest(f);
    LongestAtMostLength(f);
    HabitStreak(habitId, LeadingRun(f), LongestRun(f), CalculateCompletionRate(logs, habitId))
  }

  /** `buildHabitStreaks`: one row per habit, in `HABIT_ORDER`. */
  function BuildHabitStreaks(logs: seq<HabitLog>): (r: seq<HabitStreak>)
    requires WellFormedLogs(logs)
    ensures |r| == |HABIT_ORDER|
    ensures forall i :: 0 <= i < |r| ==> r[i].habitId == HABIT_ORDER[i]
    ensures forall i :: 0 <= i < |r| ==> r[i].currentStreak <= r[i].longestStreak <= |logs|
  {
    seq(|HABIT_ORDER|, i requires 0 <= i < |HABIT_ORDER| => StreakOf(logs, HABIT_ORDER[i]))
  }

  /** Every habit has exactly one row of the streak table. */
  lemma HabitStreaksCoverEachHabitOnce(logs: seq<HabitLog>, h: HabitId)
    requires WellFormedLogs(logs)
    ensures exists i :: 0 <= i < 7 && BuildHabitStreaks(logs)[i].habitId == h
    ensures forall i, j :: 0 <= i < j < 7 ==> BuildHabitStreaks(logs)[i].habitId != BuildHabitStreaks(logs)[j].habitId
  {
    HabitOrderIsTheHabitIdUnion();
    var k := OrderIndex(h);
    assert BuildHabitStreaks(logs)[k].habitId == h;
  }

  /** The index of the first log of the given date (`logs.find((l) => l.date === date)`). */
  function FindLogByDate(logs: seq<HabitLog>, date: Date): (r: Option<nat>)
    ensures r.None? ==> forall i :: 0 <= i < |logs| ==> logs[i].date != date
    ensures r.Some? ==>
      r.value < |logs| && logs[r.value].date == date && forall j :: 0 <= j < r.value ==> logs[j].date != date
  {
    if logs == [] then None
    else if logs[0].date == date then Some(0)
    else match FindLogByDate(logs[1..], date)
      case None => None
      case Some(i) => Some(i + 1)
  }

  /** `getTodayCompletedCount`: the completed entries of the first log dated today, 0 if there is none. */
  function GetTodayCompletedCount(logs: seq<HabitLog>, today: Date): (n: nat)
    ensures (forall i :: 0 <= i < |logs| ==> logs[i].date != today) ==> n == 0
    ensures forall i ::
      (0 <= i < |logs| && logs[i].date == today && forall j :: 0 <= j < i ==> logs[j].date != today)
      ==> n == |CompletedSet(logs[i].habits)|
    ensures n <= 7
  {
    match FindLogByDate(logs, today)
    case None => 0
    case Some(i) =>
      OrderCountIsValueCount(logs[i].habits);
      CompletedValueCount(logs[i].habits)
  }

  /** `Math.max(1, getDayNumber(start))`: the shared stats never report a day before day 1. */
  function SharedDayNumber(challengeStart: Date, today: Date): (d: int)
    ensures d >= 1
    ensures today >= challengeStart ==> d == GetDayNumber(challengeStart, today)
    ensures today < challengeStart ==> d == 1
  {
    Max(1, GetDayNumber(challengeStart, today))
  }

  /** How many days ago the current chunk started: the chunk start is the first day of today's chunk. */
  function ChunkStartOffset(dayNumber: int): (o: int)
    requires dayNumber >= 1
    ensures 0 <= o < CHUNK_SIZE_DAYS
    ensures GetChunkNumber(dayNumber - o) == GetChunkNumber(dayNumber)
    ensures (dayNumber - o - 1) % CHUNK_SIZE_DAYS == 0
  {
    var c := GetChunkNumber(dayNumber);
    var o := dayNumber - ((c - 1) * CHUNK_SIZE_DAYS + 1);
    assert dayNumber - o == (c - 1) * CHUNK_SIZE_DAYS + 1;
    o
  }

  function LogDate(log: HabitLog): int {
    log.date
  }

  /** `new Map(logs.map((l) => [l.date, l]))`: a later log of the same date replaces an earlier one. */
  function LogMap(logs: seq<HabitLog>): map<Date, HabitLog> {
    IndexBy(logs, LogDate)
  }

  /** `HABIT_ORDER.every(...)` on the log of a date, false when there is no log for it. */
  predicate DayComplete(logMap: map<Date, HabitLog>, date: Date) {
    date in logMap && AllHabitsCompleted(logMap[date].habits)
  }

  /** A date without a log is never complete. */
  lemma MissingLogIsIncomplete(logs: seq<HabitLog>, date: Date)
    requires forall i :: 0 <= i < |logs| ==> logs[i].date != date
    ensures !DayComplete(LogMap(logs), date)
  {
    IndexByHoldsKeys(logs, LogDate);
  }

  /** A logged date is complete exactly when the count along `HABIT_ORDER` reaches seven. */
  lemma DayCompleteIffSevenDone(logMap: map<Date, HabitLog>, date: Date)
    requires date in logMap
    ensures DayComplete(logMap, date) <==> CountCompletedIn(HABIT_ORDER, logMap[date].habits) == 7
  {
    AllCompletedIffCountIsSeven(logMap[date].habits);
  }

  datatype PairDayResult = PairDayResult(date: Date, myComplete: bool, partnerComplete: bool, bothComplete: bool)

  /** The chunk-grid loop: 25 consecutive dates from the chunk's first day, whatever logs exist. */
  method BuildChunkGrid(myLogs: seq<HabitLog>, partnerLogs: seq<HabitLog>, today: Date, dayNumber: int)
    returns (results: seq<PairDayResult>)
    requires dayNumber >= 1
    ensures |results| == CHUNK_SIZE_DAYS
    ensures forall d :: 0 <= d < |results| ==> results[d].date == today - ChunkStartOffset(dayNumber) + d
    ensures forall d :: 0 <= d < |results| ==>
      results[d].myComplete == DayComplete(LogMap(myLogs), results[d].date)
      && results[d].partnerComplete == DayComplete(LogMap(partnerLogs), results[d].date)
      && results[d].bothComplete == (results[d].myComplete && results[d].partnerComplete)
    ensures results[ChunkStartOffset(dayNumber)].date == today
  {
    var chunkStartDate := today - ChunkStartOffset(dayNumber);
    var myLogMap := LogMap(myLogs);
    var partnerLogMap := LogMap(partnerLogs);
    results := [];
    for d := 0 to CHUNK_SIZE_DAYS
      invariant |results| == d
      invariant forall e :: 0 <= e < d ==> results[e].date == chunkStartDate + e
      invariant forall e :: 0 <= e < d ==>
        results[e].myComplete == DayComplete(myLogMap, results[e].date)
        && results[e].partnerComplete == DayComplete(partnerLogMap, results[e].date)
        && results[e].bothComplete == (results[e].myComplete && results[e].partnerComplete)
    {
      var date := chunkStartDate + d;
      var myComplete := date in myLogMap && AllHabitsCompleted(myLogMap[date].habits);
      var partnerComplete := date in partnerLogMap && AllHabitsCompleted(partnerLogMap[date].habits);
      results := results + [PairDayResult(date, myComplete, partnerComplete, myComplete && partnerComplete)];
    }
  }

  /** With no partner, the partner list is empty: no stats, a zero count, no complete day. */
  lemma NoPartnerMeansNothingShared(today: Date, date: Date)
    ensures BuildDailyStats([]) == []
    ensures GetTodayCompletedCount([], today) == 0
    ensures !DayComplete(LogMap([]), date)
    ensures forall i :: 0 <= i < 7 ==> BuildHabitStreaks([])[i].currentStreak == 0
  {
  }

  datatype HabitComparison = HabitComparison(
    habitId: HabitId,
    myCurrent: nat, myLongest: nat,
    partnerCurrent: nat, partnerLongest: nat,
    myCompletionRate: Ratio, partnerCompletionRate: Ratio)

  /** The first row of a streak table with the given habit (`streaks.find((s) => s.habitId === id)`). */
  function FindStreak(streaks: seq<HabitStreak>, h: HabitId): (r: Option<HabitStreak>)
    ensures r.None? ==> forall i :: 0 <= i < |streaks| ==> streaks[i].habitId != h
    ensures r.Some? ==>
      r.value.habitId == h && exists i :: 0 <= i < |streaks| && streaks[i] == r.value && forall j :: 0 <= j < i ==> streaks[j].habitId != h
  {
    if streaks == [] then None
    else if streaks[0].habitId == h then Some(streaks[0])
    else
      var r := FindStreak(streaks[1..], h);
      assert r.Some? ==>
        exists i :: 1 <= i < |streaks| && streaks[i] == r.value && forall j :: 0 <= j < i ==> streaks[j].habitId != h by {
        if r.Some? {
          var i :| 0 <= i < |streaks[1..]| && streaks[1..][i] == r.value
            && forall j :: 0 <= j < i ==> streaks[1..][j].habitId != h;
          assert streaks[i + 1] == r.value;
          assert forall j :: 1 <= j < i + 1 ==> streaks[j].habitId == streaks[1..][j - 1].habitId;
        }
      }
      r
  }

  /** A table built by `BuildHabitStreaks` finds every habit at its `HABIT_ORDER` position. */
  lemma FindInStreakTable(logs: seq<HabitLog>, h: HabitId)
    requires WellFormedLogs(logs)
    ensures FindStreak(BuildHabitStreaks(logs), h) == Some(StreakOf(logs, h))
  {
    HabitOrderIsTheHabitIdUnion();
    var t := BuildHabitStreaks(logs);
    var k := OrderIndex(h);
    var r := FindStreak(t, h);
    assert t[k].habitId == h;
    var i :| 0 <= i < |t| && t[i] == r.value && forall j :: 0 <= j < i ==> t[j].habitId != h;
    assert i == k;
  }

  /** The comparison row of one habit, from the two streak tables. */
  function ComparisonOf(my: seq<HabitStreak>, partner: seq<HabitStreak>, h: HabitId): (c: HabitComparison)
    requires FindStreak(my, h).Some? && FindStreak(partner, h).Some?
    ensures c.habitId == h
    ensures c.myCurrent == FindStreak(my, h).value.currentStreak && c.myLongest == FindStreak(my, h).value.longestStreak
    ensures c.partnerCurrent == FindStreak(partner, h).value.currentStreak
      && c.partnerLongest == FindStreak(partner, h).value.longestStreak
  {
    var m := FindStreak(my, h).value;
    var p := FindStreak(partner, h).value;
    HabitComparison(h, m.currentStreak, m.longestStreak, p.currentStreak, p.longestStreak,
      m.completionRate, p.completionRate)
  }

  /** `HABIT_ORDER.map(...)` over the two users' streak tables, before sorting. */
  function BuildHabitComparisons(myLogs: seq<HabitLog>, partnerLogs: seq<HabitLog>): (r: seq<HabitComparison>)
    requires WellFormedLogs(myLogs) && WellFormedLogs(partnerLogs)
    ensures |r| == 7
    ensures forall i :: 0 <= i < 7 ==> r[i].habitId == HABIT_ORDER[i]
    ensures forall i :: 0 <= i < 7 ==>
      r[i].myCurrent == LeadingRun(CompletionFlags(myLogs, HABIT_ORDER[i]))
      && r[i].partnerCurrent == LeadingRun(CompletionFlags(partnerLogs, HABIT_ORDER[i]))
  {
    var my := BuildHabitStreaks(myLogs);
    var partner := BuildHabitStreaks(partnerLogs);
    seq(7, i requires 0 <= i < 7 =>
      FindInStreakTable(myLogs, HABIT_ORDER[i]);
      FindInStreakTable(partnerLogs, HABIT_ORDER[i]);
      ComparisonOf(my, partner, HABIT_ORDER[i]))
  }

  /** The sort key: the best combined current streak first. */
  function CombinedCurrent(c: HabitComparison): int {
    c.myCurrent + c.partnerCurrent
  }

  /** `habitComparisons.sort(...)`: the comparisons, best combined current streak first, ties kept in `HABIT_ORDER`. */
  method SortedHabitComparisons(myLogs: seq<HabitLog>, partnerLogs: seq<HabitLog>) returns (r: seq<HabitComparison>)
    requires WellFormedLogs(myLogs) && WellFormedLogs(partnerLogs)
    ensures multiset(r) == multiset(BuildHabitComparisons(myLogs, partnerLogs))
    ensures SortedDescending(r, CombinedCurrent)
    ensures SameKeyClasses(r, BuildHabitComparisons(myLogs, partnerLogs), CombinedCurrent)
  {
    var unsorted := BuildHabitComparisons(myLogs, partnerLogs);
    var a := new HabitComparison[7](i requires 0 <= i < 7 => unsorted[i]);
    assert a[..] == unsorted;
    SortDescendingBy(a, CombinedCurrent);
    r := a[..];
  }

  function HabitRank(c: HabitComparison): int {
    OrderIndex(c.habitId)
  }

  /** Comparisons with the same combined streak stay in `HABIT_ORDER` after the stable sort. */
  lemma TiesStayInHabitOrder(myLogs: seq<HabitLog>, partnerLogs: seq<HabitLog>, r: seq<HabitComparison>, k: int)
    requires WellFormedLogs(myLogs) && WellFormedLogs(partnerLogs)
    requires SameKeyClasses(r, BuildHabitComparisons(myLogs, partnerLogs), CombinedCurrent)
    ensures forall p, q :: 0 <= p < q < |KeyClass(r, CombinedCurrent, k)| ==>
      HabitRank(KeyClass(r, CombinedCurrent, k)[p]) < HabitRank(KeyClass(r, CombinedCurrent, k)[q])
  {
    var u := BuildHabitComparisons(myLogs, partnerLogs);
    HabitOrderIsTheHabitIdUnion();
    forall p, q | 0 <= p < q < |u| ensures HabitRank(u[p]) < HabitRank(u[q]) {
      OrderIndexOfPosition(p);
      OrderIndexOfPosition(q);
    }
    KeyClassKeepsRankOrder(u, CombinedCurrent, k, HabitRank);
    assert KeyClass(r, CombinedCurrent, k) == KeyClass(u, CombinedCurrent, k);
  }
}
