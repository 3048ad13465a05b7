/**
 * The 5 x 5 chunk grid (src/components/stats/ChunkGrid.tsx): the 25 day
 * results cut into rows, each cell's label, and the state and border a
 * cell is drawn with. Colours are left out; a cell's state names the colour.
 */
module ChunkGrid {
  import opened Dates
  import opened SharedStats

  /** `s.slice(i, j)` for `0 <= i <= j`: indices past the end are cut back to the length. */
  function Slice<T>(s: seq<T>, i: nat, j: nat): (r: seq<T>)
    requires i <= j
    ensures |r| <= j - i
    ensures i + |r| <= |s| ==> forall k :: 0 <= k < |r| ==> r[k] == s[i + k]
    ensures j <= |s| ==> r == s[i..j]
  {
    var lo := if i < |s| then i else |s|;
    var hi := if j < |s| then j else |s|;
    s[lo..hi]
  }

  /** The rows one after the other. */
  function Flatten<T>(rows: seq<seq<T>>): seq<T> {
    if rows == [] then [] else Flatten(rows[..|rows| - 1]) + rows[|rows| - 1]
  }

  /** The rows loop: `for (let i = 0; i < 25; i += 5) rows.push(results.slice(i, i + 5))`. */
  method BuildRows<T>(results: seq<T>) returns (rows: seq<seq<T>>)
    ensures |rows| == 5
    ensures forall r :: 0 <= r < 5 ==> rows[r] == Slice(results, 5 * r, 5 * r + 5)
    ensures |results| == 25 ==> (forall r :: 0 <= r < 5 ==> |rows[r]| == 5) && Flatten(rows) == results
  {
    rows := [];
    var i := 0;
    while i < 25
      invariant 0 <= i <= 25 && i % 5 == 0
      invariant |rows| == i / 5
      invariant forall r :: 0 <= r < |rows| ==> rows[r] == Slice(results, 5 * r, 5 * r + 5)
      invariant |results| == 25 ==> Flatten(rows) == results[..i]
    {
      ghost var before := rows;
      rows := rows + [Slice(results, i, i + 5)];
      assert rows[..|rows| - 1] == before;
      if |results| == 25 {
        assert results[..i + 5] == results[..i] + results[i..i + 5];
      }
      i := i + 5;
    }
    if |results| == 25 {
      assert results[..25] == results;
    }
  }

  /** `dayNum`: the label of the cell at a row and a column. */
  function DayNum(row: nat, col: nat): int {
    row * 5 + col + 1
  }

  /** The 25 cells are labelled 1 to 25, each label once, and a cell's label is its position in the chunk plus one. */
  lemma DayLabelsAreOneToTwentyFive(r1: nat, c1: nat, r2: nat, c2: nat)
    requires r1 < 5 && c1 < 5 && r2 < 5 && c2 < 5
    ensures 1 <= DayNum(r1, c1) <= 25
    ensures DayNum(r1, c1) == DayNum(r2, c2) ==> r1 == r2 && c1 == c2
    ensures DayNum(r1, c1) - 1 == 5 * r1 + c1
  {
  }

  /** A cell's date compared with today's: `YYYY-MM-DD` text orders like the day ordinal. */
  predicate IsToday(date: Date, today: Date) { date == today }
  predicate IsFuture(date: Date, today: Date) { date > today }

  /** In a chunk grid, exactly the cells after today's position are in the future, and only one is today. */
  lemma FutureCellsFollowToday(results: seq<PairDayResult>, today: Date, dayNumber: int, d: int)
    requires dayNumber >= 1 && |results| == CHUNK_SIZE_DAYS && 0 <= d < |results|
    requires forall e :: 0 <= e < |results| ==> results[e].date == today - ChunkStartOffset(dayNumber) + e
    ensures IsFuture(results[d].date, today) <==> d > ChunkStartOffset(dayNumber)
    ensures IsToday(results[d].date, today) <==> d == ChunkStartOffset(dayNumber)
  {
  }

  /** What a cell shows, in place of its colours. */
  datatype CellState = Future | BothDone | MineDone | PartnerDone | Missed

  datatype CellStyle = CellStyle(state: CellState, borderWidth: int)

  /** `getCellStyle`: future first, then both, then mine, then the partner's, else missed; only today has a border. */
  function GetCellStyle(day: PairDayResult, isToday: bool, isFuture: bool): (c: CellStyle)
    ensures c.state == Future <==> isFuture
    ensures c.state == BothDone <==> !isFuture && day.bothComplete
    ensures c.state == MineDone <==> !isFuture && !day.bothComplete && day.myComplete
    ensures c.state == PartnerDone <==> !isFuture && !day.bothComplete && !day.myComplete && day.partnerComplete
    ensures c.state == Missed <==> !isFuture && !day.bothComplete && !day.myComplete && !day.partnerComplete
    ensures c.borderWidth == (if isToday then 2 else 0)
  {
    var state :=
      if isFuture then Future
      else if day.bothComplete then BothDone
      else if day.myComplete then MineDone
      else if day.partnerComplete then PartnerDone
      else Missed;
    CellStyle(state, if isToday then 2 else 0)
  }

  /** A day of the chunk grid that both partners completed is drawn as both done unless it lies ahead. */
  lemma BothCompleteShowsBoth(day: PairDayResult, isToday: bool)
    requires day.bothComplete == (day.myComplete && day.partnerComplete)
    ensures GetCellStyle(day, isToday, false).state == BothDone <==> day.myComplete && day.partnerComplete
    ensures GetCellStyle(day, isToday, false).state == MineDone ==> !day.partnerComplete
  {
  }

  /** `canTap`: a cell can be tapped when it is not in the future and a handler is given. */
  function CanTap(isFuture: bool, hasHandler: bool): (b: bool)
    ensures b ==> !isFuture && hasHandler
    ensures !isFuture && hasHandler ==> b
  {
    !isFuture && hasHandler
  }
}
