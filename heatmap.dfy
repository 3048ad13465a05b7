/**
 * The activity heatmap (src/components/stats/HeatmapGrid.tsx): the intensity
 * bucket of a day and the layout of the last `days` days in week columns.
 *
 * The ratio thresholds 0.25, 0.5 and 0.75 are compared on integers
 * (`4 * completed <= total` and so on); the weekday of a date is a parameter.
 */
module Heatmap {
  import opened Common
  import opened Dates
  import opened SharedStats

  /** `getIntensity`: 0 for nothing, then one bucket per quarter of the total. */
  function GetIntensity(completedCount: nat, totalCount: nat): (r: nat)
    ensures r <= 4
    ensures r == 0 <==> totalCount == 0 || completedCount == 0
    ensures totalCount > 0 && completedCount > 0 ==>
      (r == 1 <==> 4 * completedCount <= totalCount)
      && (r == 2 <==> totalCount < 4 * completedCount && 2 * completedCount <= totalCount)
      && (r == 3 <==> totalCount < 2 * completedCount && 4 * completedCount <= 3 * totalCount)
      && (r == 4 <==> 3 * totalCount < 4 * completedCount)
  {
    if totalCount == 0 then 0
    else if completedCount == 0 then 0
    else if 4 * completedCount <= totalCount then 1
    else if 2 * completedCount <= totalCount then 2
    else if 4 * completedCount <= 3 * totalCount then 3
    else 4
  }

  /** For a fixed total, more completed habits never lower the intensity. */
  lemma IntensityIsMonotone(c1: nat, c2: nat, total: nat)
    requires c1 <= c2
    ensures GetIntensity(c1, total) <= GetIntensity(c2, total)
  {
  }

  /** A fully completed day is at the top bucket. */
  lemma FullDayIsDarkest(total: nat)
    requires total > 0
    ensures GetIntensity(total, total) == 4
  {
  }

  /** The intensity of each day of a seven-habit day: 1 done is 1, 2-3 are 2, 4-5 are 3, 6-7 are 4. */
  lemma SevenHabitBuckets()
    ensures GetIntensity(1, 7) == 1
    ensures GetIntensity(2, 7) == 2 && GetIntensity(3, 7) == 2
    ensures GetIntensity(4, 7) == 3 && GetIntensity(5, 7) == 3
    ensures GetIntensity(6, 7) == 4 && GetIntensity(7, 7) == 4
  {
  }

  datatype HeatmapCell = HeatmapCell(date: Date, intensity: nat, col: int, row: int)

  function StatsDate(s: DayStats): int {
    s.date
  }

  /** `Math.ceil(days / 7)`: the number of week columns. */
  function TotalCols(days: nat): (n: nat)
    ensures 7 * (n - 1) < days <= 7 * n || (days == 0 && n == 0)
  {
    (days + 6) / 7
  }

  /** The intensity of a date: from its stats, or 0 when it has none. */
  function DateIntensity(statsMap: map<Date, DayStats>, date: Date): (r: nat)
    ensures date !in statsMap ==> r == 0
    ensures date in statsMap ==> r == GetIntensity(statsMap[date].completedCount, statsMap[date].totalCount)
  {
    if date in statsMap then GetIntensity(statsMap[date].completedCount, statsMap[date].totalCount) else 0
  }

  /** The cell loop: one cell per day, oldest first, ending with today. */
  method BuildCells(dailyStats: seq<DayStats>, today: Date, days: nat, weekday: Date -> int) returns (cells: seq<HeatmapCell>)
    ensures |cells| == days
    ensures forall i :: 0 <= i < days ==> cells[i].date == today - (days - 1 - i)
    ensures forall i :: 0 <= i < days ==> cells[i].col == i / 7 && 0 <= cells[i].col < TotalCols(days)
    ensures forall i :: 0 <= i < days ==> cells[i].row == weekday(cells[i].date)
    ensures forall i :: 0 <= i < days ==> cells[i].intensity == DateIntensity(IndexBy(dailyStats, StatsDate), cells[i].date)
    ensures days > 0 ==> cells[days - 1].date == today
  {
    var statsMap := IndexBy(dailyStats, StatsDate);
    cells := [];
    for i := 0 to days
      invariant |cells| == i
      invariant forall k :: 0 <= k < i ==> cells[k].date == today - (days - 1 - k)
      invariant forall k :: 0 <= k < i ==> cells[k].col == k / 7 && 0 <= cells[k].col < TotalCols(days)
      invariant forall k :: 0 <= k < i ==> cells[k].row == weekday(cells[k].date)
      invariant forall k :: 0 <= k < i ==> cells[k].intensity == DateIntensity(statsMap, cells[k].date)
    {
      var date := today - (days - 1 - i);
      var col := i / 7;
      var stat := if date in statsMap then Some(statsMap[date]) else None;
      var intensity := if stat.Some? then GetIntensity(stat.value.completedCount, stat.value.totalCount) else 0;
      cells := cells + [HeatmapCell(date, intensity, col, weekday(date))];
    }
  }

  /** A date without stats is drawn at intensity 0. */
  lemma MissingStatsAreBlank(dailyStats: seq<DayStats>, date: Date)
    requires forall i :: 0 <= i < |dailyStats| ==> dailyStats[i].date != date
    ensures DateIntensity(IndexBy(dailyStats, StatsDate), date) == 0
  {
    IndexByHoldsKeys(dailyStats, StatsDate);
  }
}
