/**
 * The streak engine (src/utils/streaks.ts): one pass over a user's logs,
 * newest first, for one habit.
 *
 * The pass is specified by three functions over the sequence of "completed"
 * flags, newest first: the leading run (the current streak), the trailing run
 * of a prefix, and the longest run anywhere.
 */
module Streaks {
  import opened Common
  import opened Habits

  /** Every log has an entry for every habit: the pass reads `log.habits[habitId].completed` unguarded. */
  predicate WellFormedLogs(logs: seq<HabitLog>) {
    forall i :: 0 <= i < |logs| ==> HasAllHabits(logs[i].habits)
  }

  /** The habit's `completed` flag in each log, in log order. */
  function CompletionFlags(logs: seq<HabitLog>, habitId: HabitId): (f: seq<bool>)
    requires WellFormedLogs(logs)
    ensures |f| == |logs|
    ensures forall i :: 0 <= i < |logs| ==> f[i] == logs[i].habits[habitId].completed
  {
    seq(|logs|, i requires 0 <= i < |logs| => logs[i].habits[habitId].completed)
  }

  /** Positions `i .. j-1` all hold `true`. */
  predicate IsRun(f: seq<bool>, i: int, j: int) {
    0 <= i <= j <= |f| && forall k :: i <= k < j ==> f[k]
  }

  /** The number of `true` flags before the first `false`. */
  function LeadingRun(f: seq<bool>): nat {
    if f == [] || !f[0] then 0 else 1 + LeadingRun(f[1..])
  }

  /** The number of `true` flags after the last `false`. */
  function TrailingRun(f: seq<bool>): nat {
    if f == [] || !f[|f| - 1] then 0 else 1 + TrailingRun(f[..|f| - 1])
  }

  /** The best trailing run over all prefixes: the longest run anywhere. */
  function LongestRun(f: seq<bool>): nat {
    if f == [] then 0 else Max(LongestRun(f[..|f| - 1]), TrailingRun(f))
  }

  /** The current streak is the maximal completed prefix. */
  lemma {:induction false} LeadingRunIsMaximalPrefix(f: seq<bool>)
    ensures IsRun(f, 0, LeadingRun(f))
    ensures LeadingRun(f) == |f| || !f[LeadingRun(f)]
  {
    if f != [] && f[0] {
      LeadingRunIsMaximalPrefix(f[1..]);
      assert forall k :: 1 <= k <= |f[1..]| ==> f[k] == f[1..][k - 1];
    }
  }

  /** A completed prefix that is followed by a miss (or by nothing) has the length of the leading run. */
  lemma {:induction false} LeadingRunUnique(f: seq<bool>, n: nat)
    requires IsRun(f, 0, n) && (n == |f| || !f[n])
    ensures LeadingRun(f) == n
  {
    if n > 0 {
      assert f[0];
      assert IsRun(f[1..], 0, n - 1) by {
        assert forall k :: 0 <= k < n - 1 ==> f[1..][k] == f[k + 1];
      }
      assert n - 1 == |f[1..]| || !f[1..][n - 1];
      LeadingRunUnique(f[1..], n - 1);
    }
  }

  lemma {:induction false} TrailingRunIsMaximalSuffix(f: seq<bool>)
    ensures TrailingRun(f) <= |f|
    ensures IsRun(f, |f| - TrailingRun(f), |f|)
    ensures TrailingRun(f) == |f| || !f[|f| - TrailingRun(f) - 1]
  {
    if f != [] && f[|f| - 1] {
      var p := f[..|f| - 1];
      TrailingRunIsMaximalSuffix(p);
      assert forall k :: 0 <= k < |p| ==> p[k] == f[k];
    }
  }

  /** A run that reaches the end of the sequence is no longer than the trailing run. */
  lemma {:induction false} RunAtEndWithinTrailingRun(f: seq<bool>, i: int)
    requires IsRun(f, i, |f|)
    ensures |f| - i <= TrailingRun(f)
  {
    if i < |f| {
      var p := f[..|f| - 1];
      assert IsRun(p, i, |p|);
      RunAtEndWithinTrailingRun(p, i);
    }
  }

  /** The longest run bounds every run, and some run has exactly that length. */
  lemma {:induction false} LongestRunIsLongest(f: seq<bool>)
    ensures forall i, j :: IsRun(f, i, j) ==> j - i <= LongestRun(f)
    ensures exists i, j :: IsRun(f, i, j) && j - i == LongestRun(f)
  {
    if f == [] {
      assert IsRun(f, 0, 0);
    } else {
      var p := f[..|f| - 1];
      LongestRunIsLongest(p);
      forall i, j | IsRun(f, i, j) ensures j - i <= LongestRun(f) {
        if j == |f| {
          RunAtEndWithinTrailingRun(f, i);
        } else {
          assert IsRun(p, i, j);
        }
      }
      if LongestRun(f) == TrailingRun(f) {
        TrailingRunIsMaximalSuffix(f);
        assert IsRun(f, |f| - TrailingRun(f), |f|);
      } else {
        var i, j :| IsRun(p, i, j) && j - i == LongestRun(p);
        assert IsRun(f, i, j);
      }
    }
  }

  lemma CurrentAtMostLongest(f: seq<bool>)
    ensures LeadingRun(f) <= LongestRun(f)
  {
    LeadingRunIsMaximalPrefix(f);
    LongestRunIsLongest(f);
  }

  lemma LongestAtMostLength(f: seq<bool>)
    ensures LongestRun(f) <= |f|
  {
    LongestRunIsLongest(f);
  }

  /** An all-completed history of length N gives current = longest = N. */
  lemma AllCompletedGivesFullStreaks(f: seq<bool>)
    requires forall k :: 0 <= k < |f| ==> f[k]
    ensures LeadingRun(f) == |f| && LongestRun(f) == |f|
  {
    LeadingRunUnique(f, |f|);
    LongestRunIsLongest(f);
    assert IsRun(f, 0, |f|);
  }

  lemma MissedHeadBreaksCurrent(f: seq<bool>)
    requires f != [] && !f[0]
    ensures LeadingRun(f) == 0
  {
  }

  /** `calculateStreak`: the loop over the logs, newest first. */
  method CalculateStreak(logs: seq<HabitLog>, habitId: HabitId) returns (current: nat, longest: nat)
    requires WellFormedLogs(logs)
    ensures current == LeadingRun(CompletionFlags(logs, habitId))
    ensures longest == LongestRun(CompletionFlags(logs, habitId))
    ensures current <= longest <= |logs|
  {
    ghost var f := CompletionFlags(logs, habitId);
    current, longest := 0, 0;
    var streak := 0;
    var countingCurrent := true;
    for i := 0 to |logs|
      invariant streak == TrailingRun(f[..i])
      invariant Max(longest, streak) == LongestRun(f[..i])
      invariant countingCurrent <==> IsRun(f, 0, i)
      invariant countingCurrent ==> current == i
      invariant !countingCurrent ==> current == LeadingRun(f)
    {
      assert f[..i + 1][..i] == f[..i];
      if logs[i].habits[habitId].completed {
        streak := streak + 1;
        if countingCurrent {
          current := streak;
          TrailingRunIsMaximalSuffix(f[..i]);
        }
      } else {
        if countingCurrent {
          LeadingRunUnique(f, i);
        }
        countingCurrent := false;
        if streak > longest {
          longest := streak;
        }
        streak := 0;
      }
    }
    assert f[..|logs|] == f;
    if streak > longest {
      longest := streak;
    }
    if countingCurrent {
      LeadingRunUnique(f, |logs|);
    }
    CurrentAtMostLongest(f);
    LongestAtMostLength(f);
  }

  /** Two histories with the same flags have the same streaks, whatever their dates. */
  lemma DatesAreNeverInspected(logs1: seq<HabitLog>, logs2: seq<HabitLog>, habitId: HabitId)
    requires WellFormedLogs(logs1) && WellFormedLogs(logs2) && |logs1| == |logs2|
    requires forall i :: 0 <= i < |logs1| ==> logs1[i].habits == logs2[i].habits
    ensures CompletionFlags(logs1, habitId) == CompletionFlags(logs2, habitId)
  {
  }

  /** `calculateCompletionRate`: completed logs over all logs, 0 for no logs. */
  function CalculateCompletionRate(logs: seq<HabitLog>, habitId: HabitId): (r: Ratio)
    requires WellFormedLogs(logs)
    ensures |logs| == 0 ==> r == Ratio(0, 1)
    ensures |logs| > 0 ==>
      r.den == |logs| && r.num == |set i | 0 <= i < |logs| && logs[i].habits[habitId].completed|
    ensures r.num <= r.den
  {
    if |logs| == 0 then Ratio(0, 1)
    else
      var f := CompletionFlags(logs, habitId);
      CountTrueIsIndexCount(f);
      assert (set i | 0 <= i < |f| && f[i]) == set i | 0 <= i < |logs| && logs[i].habits[habitId].completed;
      Ratio(CountTrue(f), |logs|)
  }

  /** `calculateDayCompletionCount`: the completed habits of `HABIT_ORDER`. */
  function CalculateDayCompletionCount(habits: DayHabits): (n: nat)
    requires HasAllHabits(habits)
    ensures n <= 7
    ensures n == |CompletedSet(habits)|
  {
    OrderCountIsValueCount(habits);
    CountCompletedIn(HABIT_ORDER, habits)
  }
}
