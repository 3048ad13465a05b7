/**
 * The record derivations of the habit actions (src/hooks/useHabits.ts): each
 * action computes the fields it writes for one habit, and
 * `updateHabitData` (the `Firestore` module) applies them.
 *
 * The signed-in user, the profile and the current timestamp are parameters;
 * an action that returns early writes nothing (`None`).
 */
module HabitActions {
  import opened Common
  import opened Habits
  import opened Validation
  import opened Firestore

  /** The profile fields the actions read. */
  datatype Profile = Profile(waterTargetOz: int)

  /** One `updateHabitData(userId, date, habitId, data)` call. */
  datatype Write = Write(habitId: HabitId, patch: Patch)

  /** `log?.habits ?? createEmptyDayHabits()`. */
  function CurrentHabits(log: Option<HabitLog>): (h: DayHabits)
    ensures log.Some? ==> h == log.value.habits
    ensures log.None? ==> HasAllHabits(h) && CompletedSet(h) == {}
  {
    if log.Some? then log.value.habits else CreateEmptyDayHabits()
  }

  /** `completedCount`: the completed values of the current record. */
  function CompletedCount(habits: DayHabits): (n: nat)
    ensures n == |CompletedSet(habits)| && n <= 7
  {
    OrderCountIsValueCount(habits);
    CompletedValueCount(habits)
  }

  /** Before the log loads, nothing counts as done. */
  lemma NoLogMeansNothingCompleted()
    ensures CompletedCount(CurrentHabits(None)) == 0
  {
  }

  /** `completedAt: completed ? Timestamp.now() : null`. */
  function CompletionStamp(completed: bool, now: Timestamp): (t: Option<Timestamp>)
    ensures t.Some? <==> completed
  {
    if completed then Some(now) else None
  }

  /** A write names both `completed` and `completedAt`, and the stamp is set exactly when the habit is completed. */
  predicate StampFollowsCompletion(p: Patch) {
    p.completed.Some? && p.completedAt.Some? && (p.completedAt.value.Some? <==> p.completed.value)
  }

  /** Whatever the entry held before, a write keeps `completedAt` set exactly when `completed` holds. */
  lemma WriteKeepsStampConsistent(d: HabitData, p: Patch)
    requires StampFollowsCompletion(p)
    ensures ApplyPatch(d, p).completed <==> ApplyPatch(d, p).completedAt.Some?
  {
  }

  /** `toggleBinaryHabit`: write the negated flag and its stamp. */
  function ToggleBinaryHabit(userId: Option<string>, habits: DayHabits, habitId: HabitId, now: Timestamp): (w: Option<Write>)
    requires userId.Some? ==> habitId in habits
    ensures w.Some? <==> userId.Some?
    ensures w.Some? ==>
      w.value.habitId == habitId && StampFollowsCompletion(w.value.patch)
      && w.value.patch.completed == Some(!habits[habitId].completed)
      && w.value.patch.(completed := None, completedAt := None) == EMPTY_PATCH
  {
    if userId.None? then None
    else
      var nowCompleted := !habits[habitId].completed;
      Some(Write(habitId, EMPTY_PATCH.(completed := Some(nowCompleted), completedAt := Some(CompletionStamp(nowCompleted, now)))))
  }

  /** Toggling twice restores the original flag, whatever the timestamps. */
  lemma ToggleTwiceRestores(userId: string, habits: DayHabits, habitId: HabitId, t1: Timestamp, t2: Timestamp)
    requires habitId in habits
    ensures
      var w1 := ToggleBinaryHabit(Some(userId), habits, habitId, t1).value;
      var after1 := PatchedHabits(habits, habitId, w1.patch);
      var w2 := ToggleBinaryHabit(Some(userId), after1, habitId, t2).value;
      var after2 := PatchedHabits(after1, habitId, w2.patch);
      after2[habitId].completed == habits[habitId].completed
      && after2[habitId].completedAt.None? == !habits[habitId].completed
  {
  }

  /** `updateWater`: clamp at 0, complete at the profile's target. */
  function UpdateWater(userId: Option<string>, profile: Option<Profile>, newOz: int, now: Timestamp): (w: Option<Write>)
    ensures w.Some? <==> userId.Some? && profile.Some?
    ensures w.Some? ==>
      w.value.habitId == Water && StampFollowsCompletion(w.value.patch)
      && w.value.patch.currentOz.Some? && w.value.patch.currentOz.value >= 0
      && (newOz >= 0 ==> w.value.patch.currentOz.value == newOz)
      && (newOz < 0 ==> w.value.patch.currentOz.value == 0)
      && (w.value.patch.completed.value <==> w.value.patch.currentOz.value >= profile.value.waterTargetOz)
      && w.value.patch.(completed := None, completedAt := None, currentOz := None) == EMPTY_PATCH
  {
    if userId.None? || profile.None? then None
    else
      var clamped := Max(0, newOz);
      var completed := clamped >= profile.value.waterTargetOz;
      Some(Write(Water, EMPTY_PATCH.(
        currentOz := Some(clamped), completed := Some(completed), completedAt := Some(CompletionStamp(completed, now)))))
  }

  /** `updateReading`: clamp at 0, complete at ten pages. */
  function UpdateReading(userId: Option<string>, newPages: int, now: Timestamp): (w: Option<Write>)
    ensures w.Some? <==> userId.Some?
    ensures w.Some? ==>
      w.value.habitId == Reading && StampFollowsCompletion(w.value.patch)
      && w.value.patch.pagesRead.Some? && w.value.patch.pagesRead.value >= 0
      && (newPages >= 0 ==> w.value.patch.pagesRead.value == newPages)
      && (newPages < 0 ==> w.value.patch.pagesRead.value == 0)
      && (w.value.patch.completed.value <==> w.value.patch.pagesRead.value >= READING_TARGET_PAGES)
      && w.value.patch.(completed := None, completedAt := None, pagesRead := None) == EMPTY_PATCH
  {
    if userId.None? then None
    else
      var clamped := Max(0, newPages);
      var completed := clamped >= 10;
      Some(Write(Reading, EMPTY_PATCH.(
        pagesRead := Some(clamped), completed := Some(completed), completedAt := Some(CompletionStamp(completed, now)))))
  }

  /** `saveJournal`: store the text as typed; it completes the habit when it is a valid entry. */
  function SaveJournal(userId: Option<string>, text: string, now: Timestamp): (w: Option<Write>)
    ensures w.Some? <==> userId.Some?
    ensures w.Some? ==>
      w.value.habitId == Journal && StampFollowsCompletion(w.value.patch)
      && w.value.patch.text == Some(text)
      && (w.value.patch.completed.value <==> IsValidJournalEntry(text))
      && w.value.patch.(completed := None, completedAt := None, text := None) == EMPTY_PATCH
  {
    if userId.None? then None
    else
      var trimmed := Trim(text);
      var completed := Utf16Length(trimmed) >= 10 && trimmed[|trimmed| - 1] in {'.', '!', '?'};
      assert completed == IsValidJournalEntry(text);
      Some(Write(Journal, EMPTY_PATCH.(
        text := Some(text), completed := Some(completed), completedAt := Some(CompletionStamp(completed, now)))))
  }

  /** A write changes the habit it names and leaves every other habit of the record as it was. */
  lemma WriteTouchesOnlyItsHabit(habits: DayHabits, w: Write, h: HabitId)
    requires h != w.habitId
    ensures h in PatchedHabits(habits, w.habitId, w.patch) <==> h in habits
    ensures h in habits ==> PatchedHabits(habits, w.habitId, w.patch)[h] == habits[h]
  {
  }
}
