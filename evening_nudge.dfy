/**
 * `eveningNudge` (functions/src/eveningNudge.ts): at 9pm every user with a
 * push token and the streak nudge turned on is reminded when today's log is
 * missing or has habits left to do.
 *
 * The source compares the completed count with a total of 6 while the app
 * tracks 7 habits; `NudgeAsWritten` keeps that total and the counterexample
 * lemmas below exhibit the missed reminder, while `Nudge` and the trigger
 * `EveningNudge` use the app's 7.
 *
 * The date string of "today" (read from the wall clock in the source) is a
 * parameter, and so are the `users` collection (as a list, in query order)
 * and the `habitLogs` documents (by document id).
 */
module EveningNudge {
  import opened Common
  import opened Dates
  import opened Habits
  import opened Notify

  /** The total the source subtracts from. */
  const TOTAL_HABITS_AS_WRITTEN: int := 6

  /** The number of habits the app tracks. */
  const TOTAL_HABITS: int := |HABIT_ORDER|

  const NUDGE_TITLE: string := "Evening check-in"
  const NO_LOG_BODY: string := "You haven't logged any habits today. Keep the streak alive!"

  /** The keys of a complete day's `habits` map. */
  const HABIT_KEYS: set<string> :=
    {"wakeUpOnTime", "morningSunlight", "water", "journal", "reading", "workout", "meditate"}

  /** The keys are exactly the habit ids as written in documents, seven of them. */
  lemma HabitKeysAreTheHabits()
    ensures forall h :: HabitKey(h) in HABIT_KEYS
    ensures forall k :: k in HABIT_KEYS ==> exists h :: HabitKey(h) == k
    ensures |HABIT_KEYS| == TOTAL_HABITS == 7
  {
    assert HabitKey(WakeUpOnTime) == "wakeUpOnTime" && HabitKey(MorningSunlight) == "morningSunlight";
    assert HabitKey(Water) == "water" && HabitKey(Journal) == "journal" && HabitKey(Reading) == "reading";
    assert HabitKey(Workout) == "workout" && HabitKey(Meditate) == "meditate";
  }

  /** The number of completed entries among the map's values. */
  function CompletedCount(habits: map<string, RawHabit>): (n: nat)
    ensures n <= |habits|
  {
    var done := set k | k in habits && habits[k].completed;
    assert done <= habits.Keys;
    CardinalityOfSubset(done, habits.Keys);
    |done|
  }

  lemma CardinalityOfSubset<T>(a: set<T>, b: set<T>)
    requires a <= b
    ensures |a| <= |b|
    ensures a != b ==> |a| < |b|
  {
    assert b == a + (b - a);
    if a != b {
      var x :| x in b && x !in a;
      assert x in b - a;
    }
  }

  const REMAINING_HEAD: string := "You have "
  const REMAINING_TAIL: string := " left today. Keep the streak alive!"

  /** `N habit` or `N habits`: singular for one. */
  function HabitsLeft(remaining: nat): string {
    NatText(remaining) + " habit" + (if remaining == 1 then "" else "s")
  }

  /** `You have N habit(s) left today. Keep the streak alive!` */
  function RemainingBody(remaining: nat): string {
    REMAINING_HEAD + HabitsLeft(remaining) + REMAINING_TAIL
  }

  /** One habit left reads "1 habit". */
  lemma OneHabitLeftIsSingular()
    ensures RemainingBody(1) == REMAINING_HEAD + "1 habit" + REMAINING_TAIL
  {
    assert NatText(1) == [DigitChar(1)];
    assert DigitChar(1) == '1';
    assert HabitsLeft(1) == "1" + " habit" + "";
  }

  /** More than one left reads "N habits". */
  lemma MoreHabitsLeftArePlural(remaining: nat)
    requires remaining > 1
    ensures RemainingBody(remaining) == REMAINING_HEAD + NatText(remaining) + " habits" + REMAINING_TAIL
  {
    assert HabitsLeft(remaining) == NatText(remaining) + " habits";
  }

  /**
   * The nudge for one user against a total: none without a token or the
   * preference, the "no log" reminder without today's log, none for a log
   * without a habits map, otherwise the number left when it is positive.
   */
  function NudgeWith(total: int, userId: string, user: UserDoc, logs: map<string, RawLog>, today: string): (r: Option<PushMessage>)
    ensures r.Some? <==>
      Truthy(user.expoPushToken) && user.streakNudge
      && (GetHabitLogId(userId, today) !in logs
          || (logs[GetHabitLogId(userId, today)].habits.Some? && CompletedCount(logs[GetHabitLogId(userId, today)].habits.value) < total))
    ensures r.Some? ==> r.value.to == user.expoPushToken.value && r.value.title == NUDGE_TITLE
    ensures r.Some? && GetHabitLogId(userId, today) !in logs ==> r.value.body == NO_LOG_BODY
    ensures r.Some? && GetHabitLogId(userId, today) in logs ==>
      r.value.body == RemainingBody(total - CompletedCount(logs[GetHabitLogId(userId, today)].habits.value))
  {
    if !Truthy(user.expoPushToken) || !user.streakNudge then None
    else
      var logId := GetHabitLogId(userId, today);
      if logId !in logs then Some(PushMessage(user.expoPushToken.value, NUDGE_TITLE, NO_LOG_BODY))
      else if logs[logId].habits.None? then None
      else
        var remaining := total - CompletedCount(logs[logId].habits.value);
        if remaining > 0 then Some(PushMessage(user.expoPushToken.value, NUDGE_TITLE, RemainingBody(remaining)))
        else None
  }

  /** The nudge as the source computes it, out of 6. */
  function NudgeAsWritten(userId: string, user: UserDoc, logs: map<string, RawLog>, today: string): Option<PushMessage> {
    NudgeWith(TOTAL_HABITS_AS_WRITTEN, userId, user, logs, today)
  }

  /** The nudge out of the app's 7 habits. */
  function Nudge(userId: string, user: UserDoc, logs: map<string, RawLog>, today: string): Option<PushMessage> {
    NudgeWith(TOTAL_HABITS, userId, user, logs, today)
  }

  /** A complete day's log: one entry per habit. */
  predicate IsFullDay(habits: map<string, RawHabit>) {
    habits.Keys == HABIT_KEYS
  }

  predicate HasHabitLeft(habits: map<string, RawHabit>) {
    exists k :: k in habits && !habits[k].completed
  }

  /** Over a full day, the completed count is 7 exactly when no habit is left. */
  lemma CountOfFullDay(habits: map<string, RawHabit>)
    requires IsFullDay(habits)
    ensures CompletedCount(habits) <= 7
    ensures CompletedCount(habits) == 7 <==> !HasHabitLeft(habits)
  {
    HabitKeysAreTheHabits();
    var done := set k | k in habits && habits[k].completed;
    CardinalityOfSubset(done, habits.Keys);
    if HasHabitLeft(habits) {
      var k :| k in habits && !habits[k].completed;
      assert k !in done;
    } else {
      assert done == habits.Keys;
    }
  }

  /**
   * Corrected: a user who wants nudges and has a full log for today is
   * nudged exactly when some habit is not done.
   */
  lemma NudgeIffHabitLeft(userId: string, user: UserDoc, logs: map<string, RawLog>, today: string)
    requires Truthy(user.expoPushToken) && user.streakNudge
    requires GetHabitLogId(userId, today) in logs && logs[GetHabitLogId(userId, today)].habits.Some?
    requires IsFullDay(logs[GetHabitLogId(userId, today)].habits.value)
    ensures Nudge(userId, user, logs, today).Some? <==> HasHabitLeft(logs[GetHabitLogId(userId, today)].habits.value)
  {
    HabitKeysAreTheHabits();
    CountOfFullDay(logs[GetHabitLogId(userId, today)].habits.value);
  }

  /** Six of seven done, the last one not. */
  function SixOfSeven(): map<string, RawHabit> {
    map["wakeUpOnTime" := RawHabit(true, None), "morningSunlight" := RawHabit(true, None),
        "water" := RawHabit(true, None), "journal" := RawHabit(true, None),
        "reading" := RawHabit(true, None), "workout" := RawHabit(true, None),
        "meditate" := RawHabit(false, None)]
  }

  lemma SixOfSevenCount()
    ensures IsFullDay(SixOfSeven()) && HasHabitLeft(SixOfSeven())
    ensures CompletedCount(SixOfSeven()) == 6
  {
    var habits := SixOfSeven();
    assert habits.Keys == HABIT_KEYS;
    assert !habits["meditate"].completed;
    var done := set k | k in habits && habits[k].completed;
    assert done == HABIT_KEYS - {"meditate"};
    HabitKeysAreTheHabits();
  }

  /**
   * As written: with only meditation left the source sends nothing, where
   * the corrected nudge says one habit is left.
   */
  lemma AsWrittenMissesTheLastHabit()
    ensures var user := UserDoc(Some("Sam"), None, Some("token"), true, true);
            var logs := map[GetHabitLogId("u1", "2025-01-01") := RawLog("u1", Some(SixOfSeven()))];
            && NudgeAsWritten("u1", user, logs, "2025-01-01") == None
            && Nudge("u1", user, logs, "2025-01-01")
               == Some(PushMessage("token", NUDGE_TITLE, REMAINING_HEAD + "1 habit" + REMAINING_TAIL))
  {
    SixOfSevenCount();
    OneHabitLeftIsSingular();
  }

  /**
   * As written, over a full day a user is nudged only when at least two
   * habits are left: the one-left case is always missed.
   */
  lemma AsWrittenNeedsTwoLeft(userId: string, user: UserDoc, logs: map<string, RawLog>, today: string)
    requires Truthy(user.expoPushToken) && user.streakNudge
    requires GetHabitLogId(userId, today) in logs && logs[GetHabitLogId(userId, today)].habits.Some?
    requires IsFullDay(logs[GetHabitLogId(userId, today)].habits.value)
    ensures NudgeAsWritten(userId, user, logs, today).Some? <==> CompletedCount(logs[GetHabitLogId(userId, today)].habits.value) <= 7 - 2
  {
  }

  /** The nudges of a list of users, in list order. */
  function Nudges(users: seq<(string, UserDoc)>, logs: map<string, RawLog>, today: string): seq<PushMessage> {
    if users == [] then []
    else
      var last := users[|users| - 1];
      var m := Nudge(last.0, last.1, logs, today);
      Nudges(users[..|users| - 1], logs, today) + (if m.Some? then [m.value] else [])
  }

  /** The scheduled job: one pass over the users, `continue` on each skip. */
  method EveningNudge(users: seq<(string, UserDoc)>, logs: map<string, RawLog>, today: string)
    returns (messages: seq<PushMessage>)
    ensures messages == Nudges(users, logs, today)
  {
    messages := [];
    for i := 0 to |users|
      invariant messages == Nudges(users[..i], logs, today)
    {
      assert users[..i + 1][..i] == users[..i];
      var (userId, userData) := users[i];
      if !Truthy(userData.expoPushToken) {
        continue;
      }
      if !userData.streakNudge {
        continue;
      }
      var logId := GetHabitLogId(userId, today);
      if logId !in logs {
        messages := messages + [PushMessage(userData.expoPushToken.value, NUDGE_TITLE, NO_LOG_BODY)];
        continue;
      }
      if logs[logId].habits.None? {
        continue;
      }
      var completedCount := CompletedCount(logs[logId].habits.value);
      var remaining := TOTAL_HABITS - completedCount;
      if remaining > 0 {
        messages := messages + [PushMessage(userData.expoPushToken.value, NUDGE_TITLE, RemainingBody(remaining))];
      }
    }
    assert users[..|users|] == users;
  }

  /** At most one message per user, each to a user who wants nudges, titled "Evening check-in". */
  lemma {:induction false} OneNudgePerUser(users: seq<(string, UserDoc)>, logs: map<string, RawLog>, today: string)
    ensures |Nudges(users, logs, today)| <= |users|
    ensures forall m :: m in Nudges(users, logs, today) ==>
      m.title == NUDGE_TITLE
      && exists u :: u in users && u.1.streakNudge && Truthy(u.1.expoPushToken) && m.to == u.1.expoPushToken.value
  {
    if users != [] {
      var init := users[..|users| - 1];
      OneNudgePerUser(init, logs, today);
      assert forall u :: u in init ==> u in users;
      assert users[|users| - 1] in users;
    }
  }
}
