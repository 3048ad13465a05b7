/**
 * `onHabitComplete` (functions/src/onHabitComplete.ts): when a log document
 * is updated, tell the partner about each habit that has just been completed.
 *
 * A document whose `habits` map is missing makes the source throw before
 * anything is sent; here that is the empty list of messages.
 */
module HabitCompleteNotify {
  import opened Common
  import opened Habits
  import opened Notify

  /** The function's own label table. */
  const HABIT_LABELS: map<string, string> := map[
    "wakeUpOnTime" := "Wake Up On Time",
    "morningSunlight" := "Morning Sunlight",
    "water" := "Water",
    "journal" := "Journal",
    "reading" := "Read",
    "workout" := "Workout",
    "meditate" := "Meditate"
  ]

  /** `HABIT_LABELS[habitId] || habitId`. */
  function LabelOf(habitId: string): string {
    OrElse(if habitId in HABIT_LABELS then Some(HABIT_LABELS[habitId]) else None, habitId)
  }

  /** An id missing from the table is shown as itself. */
  lemma UnknownIdIsItsOwnLabel(unknown: string)
    requires unknown !in HABIT_LABELS
    ensures LabelOf(unknown) == unknown
  {
  }

  lemma TableLabels()
    ensures LabelOf("wakeUpOnTime") == "Wake Up On Time" && LabelOf("morningSunlight") == "Morning Sunlight"
    ensures LabelOf("water") == "Water" && LabelOf("journal") == "Journal" && LabelOf("reading") == "Read"
    ensures LabelOf("workout") == "Workout" && LabelOf("meditate") == "Meditate"
  {
  }

  /** The table agrees with the app's habit definitions. */
  lemma LabelsMatchDefinitions(h: HabitId)
    ensures LabelOf(HabitKey(h)) == GetHabitDefinition(h).labelText
  {
    DefinitionAtOrderIndex(h);
    TableLabels();
  }

  /** A habit is newly completed when it is completed after the write and was not completed (or absent) before. */
  predicate IsNewlyCompleted(before: map<string, RawHabit>, after: map<string, RawHabit>, key: string) {
    key in after && after[key].completed && !(key in before && before[key].completed)
  }

  /** The newly completed keys, in the order the after map lists them. */
  function NewlyCompleted(keys: seq<string>, before: map<string, RawHabit>, after: map<string, RawHabit>): seq<string> {
    if keys == [] then []
    else
      var k := keys[|keys| - 1];
      NewlyCompleted(keys[..|keys| - 1], before, after) + (if IsNewlyCompleted(before, after, k) then [k] else [])
  }

  /** The `newlyCompleted` loop over `Object.entries(after.habits)`. */
  method FindNewlyCompleted(keys: seq<string>, before: map<string, RawHabit>, after: map<string, RawHabit>)
    returns (ids: seq<string>)
    ensures ids == NewlyCompleted(keys, before, after)
  {
    ids := [];
    for i := 0 to |keys|
      invariant ids == NewlyCompleted(keys[..i], before, after)
    {
      assert keys[..i + 1][..i] == keys[..i];
      var habitId := keys[i];
      var beforeCompleted := habitId in before && before[habitId].completed;
      if habitId in after && after[habitId].completed && !beforeCompleted {
        ids := ids + [habitId];
      }
    }
    assert keys[..|keys|] == keys;
  }

  /**
   * Over a listing of the after map, the newly completed ids are exactly the
   * habits completed by this write, each once: un-completing a habit or
   * rewriting a completed one never appears.
   */
  lemma {:induction false} NewlyCompletedIsTheDiff(keys: seq<string>, before: map<string, RawHabit>, after: map<string, RawHabit>)
    requires forall i, j :: 0 <= i < j < |keys| ==> keys[i] != keys[j]
    ensures forall k :: k in NewlyCompleted(keys, before, after) <==> k in keys && IsNewlyCompleted(before, after, k)
    ensures forall i, j :: 0 <= i < j < |NewlyCompleted(keys, before, after)| ==>
      NewlyCompleted(keys, before, after)[i] != NewlyCompleted(keys, before, after)[j]
  {
    if keys != [] {
      var init := keys[..|keys| - 1];
      NewlyCompletedIsTheDiff(init, before, after);
      assert keys[|keys| - 1] !in init;
      assert forall k :: k in keys <==> k in init || k == keys[|keys| - 1];
    }
  }

  /** The partner's push token, when the user has a partner who accepts completion notifications. */
  function PartnerToken(userId: string, users: map<string, UserDoc>): (r: Option<string>)
    ensures r.Some? ==>
      userId in users && Truthy(users[userId].partnerId) && users[userId].partnerId.value in users
      && var partner := users[users[userId].partnerId.value];
         Truthy(partner.expoPushToken) && partner.partnerCompletions && r.value == partner.expoPushToken.value
    ensures r.None? ==>
      userId !in users || !Truthy(users[userId].partnerId) || users[userId].partnerId.value !in users
      || !Truthy(users[users[userId].partnerId.value].expoPushToken)
      || !users[users[userId].partnerId.value].partnerCompletions
  {
    if userId !in users || !Truthy(users[userId].partnerId) then None
    else
      var partnerId := users[userId].partnerId.value;
      if partnerId !in users then None
      else
        var partner := users[partnerId];
        if !Truthy(partner.expoPushToken) || !partner.partnerCompletions then None
        else Some(partner.expoPushToken.value)
  }

  /** The body: who completed what, with the workout note when there is one. */
  function CompletionBody(name: string, habitId: string, after: map<string, RawHabit>): string {
    var body := name + " completed " + LabelOf(habitId);
    if habitId == "workout" && "workout" in after && Truthy(after["workout"].note) then body + ": " + after["workout"].note.value
    else body
  }

  /** A workout with a note names it after a colon; every other body is just the completion. */
  lemma CompletionBodyShape(name: string, habitId: string, after: map<string, RawHabit>)
    ensures habitId != "workout" ==> CompletionBody(name, habitId, after) == name + " completed " + LabelOf(habitId)
    ensures habitId == "workout" && "workout" in after && Truthy(after["workout"].note) ==>
      CompletionBody(name, habitId, after) == name + " completed Workout: " + after["workout"].note.value
    ensures habitId == "workout" && !("workout" in after && Truthy(after["workout"].note)) ==>
      CompletionBody(name, habitId, after) == name + " completed Workout"
  {
    assert LabelOf("workout") == "Workout";
  }

  function CompletionMessage(token: string, name: string, habitId: string, after: map<string, RawHabit>): PushMessage {
    PushMessage(token, name + " completed a habit!", CompletionBody(name, habitId, after))
  }

  /**
   * The trigger: nothing without both documents and their habit maps, nothing
   * when no habit was newly completed, nothing without a reachable partner;
   * otherwise one message per newly completed habit, in order, to the
   * partner's token.
   */
  method OnHabitComplete(before: Option<RawLog>, after: Option<RawLog>, afterKeys: seq<string>, users: map<string, UserDoc>)
    returns (messages: seq<PushMessage>)
    ensures before.None? || after.None? || before.value.habits.None? || after.value.habits.None? ==> messages == []
    ensures before.Some? && after.Some? && before.value.habits.Some? && after.value.habits.Some? ==>
      var newly := NewlyCompleted(afterKeys, before.value.habits.value, after.value.habits.value);
      var token := PartnerToken(after.value.userId, users);
      && (newly == [] || token.None? ==> messages == [])
      && (newly != [] && token.Some? ==>
            |messages| == |newly|
            && forall i :: 0 <= i < |newly| ==>
                 messages[i] == CompletionMessage(token.value, InTemplate(users[after.value.userId].displayName), newly[i], after.value.habits.value))
  {
    messages := [];
    if before.None? || after.None? || before.value.habits.None? || after.value.habits.None? {
      return;
    }
    var afterHabits := after.value.habits.value;
    var newly := FindNewlyCompleted(afterKeys, before.value.habits.value, afterHabits);
    if |newly| == 0 {
      return;
    }
    var token := PartnerToken(after.value.userId, users);
    if token.None? {
      return;
    }
    var name := InTemplate(users[after.value.userId].displayName);
    messages := seq(|newly|, i requires 0 <= i < |newly| => CompletionMessage(token.value, name, newly[i], afterHabits));
  }
}
