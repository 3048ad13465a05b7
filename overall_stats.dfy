/**
 * The single-user statistics of `useStats` (src/hooks/useStats.ts): the same
 * daily-stats and streak-table mappings as the shared stats, an unclamped day
 * number and the overall completion rate.
 */
module OverallStats {
  import opened Common
  import opened Dates
  import opened Habits
  import opened Streaks
  import opened SharedStats

  /** `getDayNumber(profile.challengeStartDate)`, taken as is: before the start it is 0 or less. */
  function StatsDayNumber(challengeStart: Date, today: Date): (d: int)
    ensures d == today - challengeStart + 1
  {
    GetDayNumber(challengeStart, today)
  }

  /** Before the challenge starts the single-user day number drops below 1, while the shared one stays at 1. */
  lemma DayNumberIsNotClamped(challengeStart: Date, today: Date)
    requires today < challengeStart
    ensures StatsDayNumber(challengeStart, today) < 1
    ensures SharedDayNumber(challengeStart, today) == 1
  {
  }

  /** `dailyStats.reduce((sum, d) => sum + d.completedCount, 0)`. */
  function SumCompleted(stats: seq<DayStats>): nat {
    if stats == [] then 0 else SumCompleted(stats[..|stats| - 1]) + stats[|stats| - 1].completedCount
  }

  /** `dailyStats.reduce((sum, d) => sum + d.totalCount, 0)`. */
  function SumTotal(stats: seq<DayStats>): nat {
    if stats == [] then 0 else SumTotal(stats[..|stats| - 1]) + stats[|stats| - 1].totalCount
  }

  lemma {:induction false} SumCompletedAtMostSumTotal(stats: seq<DayStats>)
    requires forall i :: 0 <= i < |stats| ==> stats[i].completedCount <= stats[i].totalCount
    ensures SumCompleted(stats) <= SumTotal(stats)
  {
    if stats != [] {
      SumCompletedAtMostSumTotal(stats[..|stats| - 1]);
    }
  }

  lemma {:induction false} SumTotalOfSevens(stats: seq<DayStats>)
    requires forall i :: 0 <= i < |stats| ==> stats[i].totalCount == 7
    ensures SumTotal(stats) == 7 * |stats|
  {
    if stats != [] {
      SumTotalOfSevens(stats[..|stats| - 1]);
    }
  }

  /** `overallCompletionRate`: all completed entries over seven per log, 0 without logs. */
  function OverallCompletionRate(logs: seq<HabitLog>): (r: Ratio)
    ensures |logs| == 0 ==> r == Ratio(0, 1)
    ensures |logs| > 0 ==> r.den == 7 * |logs| && r.num == SumCompleted(BuildDailyStats(logs))
    ensures r.num <= r.den
  {
    var stats := BuildDailyStats(logs);
    SumTotalOfSevens(stats);
    SumCompletedAtMostSumTotal(stats);
    var totalPossible := SumTotal(stats);
    if totalPossible > 0 then Ratio(SumCompleted(stats), totalPossible) else Ratio(0, 1)
  }

  /** When every log has all seven habits done, the rate is exactly 1. */
  lemma {:induction false} AllDoneGivesFullRate(logs: seq<HabitLog>)
    requires |logs| > 0
    requires forall i :: 0 <= i < |logs| ==> AllHabitsCompleted(logs[i].habits)
    ensures OverallCompletionRate(logs).num == OverallCompletionRate(logs).den
  {
    var stats := BuildDailyStats(logs);
    AllSevenSum(stats, logs);
  }

  lemma {:induction false} AllSevenSum(stats: seq<DayStats>, logs: seq<HabitLog>)
    requires stats == BuildDailyStats(logs)
    requires forall i :: 0 <= i < |logs| ==> AllHabitsCompleted(logs[i].habits)
    ensures SumCompleted(stats) == 7 * |stats|
  {
    if stats != [] {
      var n := |logs|;
      assert stats[..n - 1] == BuildDailyStats(logs[..n - 1]);
      AllSevenSum(stats[..n - 1], logs[..n - 1]);
      AllCompletedIffCountIsSeven(logs[n - 1].habits);
      OrderCountIsValueCount(logs[n - 1].habits);
    }
  }
}
