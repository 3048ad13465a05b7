/**
 * Calendar arithmetic of the challenge (src/utils/dates.ts).
 *
 * A calendar date is a day ordinal: consecutive days have consecutive
 * ordinals, and `YYYY-MM-DD` strings order the way their ordinals do.
 * "Today" is always a parameter; the wall clock is not part of the model.
 */
module Dates {

  type Date = int

  const CHUNK_SIZE_DAYS: int := 25

  /** Day N of the challenge: whole days from the start date to today, plus one. */
  function GetDayNumber(challengeStart: Date, today: Date): int {
    today - challengeStart + 1
  }

  lemma StartIsDayOne(challengeStart: Date)
    ensures GetDayNumber(challengeStart, challengeStart) == 1
  {
  }

  lemma EachDayAddsOne(challengeStart: Date, today: Date)
    ensures GetDayNumber(challengeStart, today + 1) == GetDayNumber(challengeStart, today) + 1
  {
  }

  /** `Math.ceil(dayNumber / 25)`: the 25-day chunk that holds day `dayNumber`. */
  function GetChunkNumber(dayNumber: int): (c: int)
    ensures (c - 1) * CHUNK_SIZE_DAYS < dayNumber <= c * CHUNK_SIZE_DAYS
  {
    (dayNumber + CHUNK_SIZE_DAYS - 1) / CHUNK_SIZE_DAYS
  }

  lemma ChunkOfPositiveDay(dayNumber: int)
    requires dayNumber >= 1
    ensures GetChunkNumber(dayNumber) >= 1
  {
  }

  lemma ChunkNumberMonotone(d1: int, d2: int)
    requires d1 <= d2
    ensures GetChunkNumber(d1) <= GetChunkNumber(d2)
  {
  }

  lemma ChunksOfTheChallenge(d: int)
    requires 1 <= d <= 75
    ensures 1 <= d <= 25 ==> GetChunkNumber(d) == 1
    ensures 26 <= d <= 50 ==> GetChunkNumber(d) == 2
    ensures 51 <= d <= 75 ==> GetChunkNumber(d) == 3
  {
  }

  /** The document id of a user's log for a date: `userId + "_" + date`. */
  function GetHabitLogId(userId: string, date: string): string {
    userId + "_" + date
  }

  /**
   * Reads a log id back: the last ten characters are the `YYYY-MM-DD` date,
   * the character before them is the separator, the rest is the user id.
   */
  function ParseHabitLogId(id: string): (parts: (string, string))
    requires |id| >= 11
    ensures |parts.1| == 10
  {
    (id[..|id| - 11], id[|id| - 10..])
  }

  lemma {:induction false} HabitLogIdRoundTrip(userId: string, date: string)
    requires |date| == 10
    ensures |GetHabitLogId(userId, date)| >= 11
    ensures ParseHabitLogId(GetHabitLogId(userId, date)) == (userId, date)
  {
    var id := GetHabitLogId(userId, date);
    assert id[..|id| - 11] == userId;
    assert id[|id| - 10..] == date;
  }

  lemma HabitLogIdInjective(u1: string, d1: string, u2: string, d2: string)
    requires |d1| == 10 && |d2| == 10
    requires GetHabitLogId(u1, d1) == GetHabitLogId(u2, d2)
    ensures u1 == u2 && d1 == d2
  {
    HabitLogIdRoundTrip(u1, d1);
    HabitLogIdRoundTrip(u2, d2);
  }
}
