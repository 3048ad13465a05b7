/**
 * `onReaction` (functions/src/onReaction.ts): when reactions are added to a
 * feed event, tell the event's owner who reacted and to what.
 *
 * The event id is `userId_date_habitId`; the owner is its first
 * `_`-separated piece and the habit its last.
 */
module ReactionNotify {
  import opened Common
  import opened Notify

  /** The function's label table, which also names the all-complete event. */
  const HABIT_LABELS: map<string, string> := map[
    "wakeUpOnTime" := "Wake Up On Time",
    "morningSunlight" := "Morning Sunlight",
    "water" := "Water",
    "journal" := "Journal",
    "reading" := "Read",
    "workout" := "Workout",
    "meditate" := "Meditate",
    "allComplete" := "completing all habits"
  ]

  function LabelOf(habitId: string): string {
    OrElse(if habitId in HABIT_LABELS then Some(HABIT_LABELS[habitId]) else None, habitId)
  }

  /** The owner (first piece) and habit (last piece) of an event id with at least three pieces. */
  function ParseEventId(eventId: string): (r: Option<(string, string)>)
    ensures r.Some? <==> |Split(eventId, '_')| >= 3
    ensures r.Some? ==> r.value.0 == Split(eventId, '_')[0]
    ensures r.Some? ==> r.value.1 == Split(eventId, '_')[|Split(eventId, '_')| - 1]
  {
    var parts := Split(eventId, '_');
    if |parts| < 3 then None else Some((parts[0], parts[|parts| - 1]))
  }

  /** An event id built from a user, a date and a habit, none of the outer two holding `_`, parses back to them. */
  lemma EventIdRoundTrip(userId: string, date: string, habitId: string)
    requires '_' !in userId && '_' !in habitId
    ensures ParseEventId(userId + "_" + date + "_" + habitId) == Some((userId, habitId))
  {
    var rest := date + "_" + habitId;
    assert userId + "_" + date + "_" + habitId == userId + ['_'] + rest;
    SplitAfterHead(userId, rest, '_');
    assert rest == date + ['_'] + habitId;
    SplitBeforeTail(date, habitId, '_');
  }

  /** An id with fewer than two separators is ignored. */
  lemma ShortIdsAreIgnored(a: string, b: string)
    requires '_' !in a && '_' !in b
    ensures ParseEventId(a) == None
    ensures ParseEventId(a + "_" + b) == None
  {
    SplitWithoutSeparator(a, '_');
    assert a + "_" + b == a + ['_'] + b;
    SplitAfterHead(a, b, '_');
    SplitWithoutSeparator(b, '_');
  }

  function ReactionBody(reactorName: string, habitId: string): string {
    if habitId == "allComplete" then reactorName + " reacted to you completing all habits!"
    else reactorName + " reacted to your " + LabelOf(habitId)
  }

  /** The message for one new reaction key, if any: skipped for a reaction with no user, the owner's own reaction, or an owner without a token. */
  function ReactionMessage(key: string, reactions: map<string, Reaction>, ownerId: string, habitId: string,
                           users: map<string, UserDoc>): (m: Option<PushMessage>)
    ensures m.Some? <==>
      key in reactions && Truthy(reactions[key].userId) && reactions[key].userId.value != ownerId
      && ownerId in users && Truthy(users[ownerId].expoPushToken)
    ensures m.Some? ==>
      var reactorName := ReactorName(reactions[key].userId.value, users);
      && m.value.to == users[ownerId].expoPushToken.value
      && m.value.title == reactorName + " reacted " + OrElse(reactions[key].emoji, "")
      && m.value.body == ReactionBody(reactorName, habitId)
  {
    if key !in reactions || !Truthy(reactions[key].userId) || reactions[key].userId.value == ownerId then None
    else
      var reaction := reactions[key];
      var reactorName := ReactorName(reaction.userId.value, users);
      if ownerId !in users || !Truthy(users[ownerId].expoPushToken) then None
      else
        Some(PushMessage(users[ownerId].expoPushToken.value,
                         reactorName + " reacted " + OrElse(reaction.emoji, ""),
                         ReactionBody(reactorName, habitId)))
  }

  /** The messages of a list of keys, in key order. */
  function ReactionMessages(keys: seq<string>, reactions: map<string, Reaction>, ownerId: string, habitId: string,
                            users: map<string, UserDoc>): seq<PushMessage>
  {
    if keys == [] then []
    else
      var m := ReactionMessage(keys[|keys| - 1], reactions, ownerId, habitId, users);
      ReactionMessages(keys[..|keys| - 1], reactions, ownerId, habitId, users) + (if m.Some? then [m.value] else [])
  }

  /** What the trigger sends for a write of the interaction document. */
  function Notifications(before: Option<ReactionDoc>, after: Option<ReactionDoc>, afterKeys: seq<string>,
                         eventId: string, users: map<string, UserDoc>): seq<PushMessage>
  {
    if after.None? then []
    else
      var newKeys := NewKeys(afterKeys, ReactionsOf(before));
      var parsed := ParseEventId(eventId);
      if newKeys == [] || parsed.None? then []
      else ReactionMessages(newKeys, ReactionsOf(after), parsed.value.0, parsed.value.1, users)
  }

  /** The trigger: the new keys, the event id, then a loop over the new keys with `continue` on each skip. */
  method OnReaction(before: Option<ReactionDoc>, after: Option<ReactionDoc>, afterKeys: seq<string>,
                    eventId: string, users: map<string, UserDoc>) returns (messages: seq<PushMessage>)
    ensures messages == Notifications(before, after, afterKeys, eventId, users)
  {
    messages := [];
    if after.None? {
      return;
    }
    var beforeReactions := ReactionsOf(before);
    var afterReactions := ReactionsOf(after);
    var newReactionKeys := NewKeys(afterKeys, beforeReactions);
    if |newReactionKeys| == 0 {
      return;
    }
    var parts := Split(eventId, '_');
    if |parts| < 3 {
      return;
    }
    var eventOwnerId := parts[0];
    var habitId := parts[|parts| - 1];
    for i := 0 to |newReactionKeys|
      invariant messages == ReactionMessages(newReactionKeys[..i], afterReactions, eventOwnerId, habitId, users)
    {
      assert newReactionKeys[..i + 1][..i] == newReactionKeys[..i];
      var key := newReactionKeys[i];
      if key !in afterReactions || !Truthy(afterReactions[key].userId) || afterReactions[key].userId.value == eventOwnerId {
        continue;
      }
      var reaction := afterReactions[key];
      var emoji := OrElse(reaction.emoji, "");
      var reactorName := ReactorName(reaction.userId.value, users);
      if eventOwnerId !in users || !Truthy(users[eventOwnerId].expoPushToken) {
        continue;
      }
      var body := ReactionBody(reactorName, habitId);
      messages := messages + [PushMessage(users[eventOwnerId].expoPushToken.value, reactorName + " reacted " + emoji, body)];
    }
    assert newReactionKeys[..|newReactionKeys|] == newReactionKeys;
  }

  /**
   * Every message goes to the owner's token, one at most per key, and only
   * for a key that names a reaction by someone other than the owner.
   */
  lemma {:induction false} MessagesComeFromOthersReactions(keys: seq<string>, reactions: map<string, Reaction>, ownerId: string,
                                                          habitId: string, users: map<string, UserDoc>)
    ensures |ReactionMessages(keys, reactions, ownerId, habitId, users)| <= |keys|
    ensures ReactionMessages(keys, reactions, ownerId, habitId, users) != [] ==>
      ownerId in users && Truthy(users[ownerId].expoPushToken)
      && (forall m :: m in ReactionMessages(keys, reactions, ownerId, habitId, users) ==> m.to == users[ownerId].expoPushToken.value)
      && exists k :: k in keys && k in reactions && Truthy(reactions[k].userId) && reactions[k].userId.value != ownerId
  {
    if keys != [] {
      var init := keys[..|keys| - 1];
      MessagesComeFromOthersReactions(init, reactions, ownerId, habitId, users);
      var k := keys[|keys| - 1];
      assert forall x :: x in init ==> x in keys;
      var m := ReactionMessage(k, reactions, ownerId, habitId, users);
      if m.Some? {
        assert k in keys;
      }
    }
  }

  /** Deleting the document, adding no reaction, or reacting only to one's own event sends nothing. */
  lemma NothingForOwnOrNoReaction(before: Option<ReactionDoc>, after: Option<ReactionDoc>, afterKeys: seq<string>,
                                  eventId: string, users: map<string, UserDoc>)
    requires after.None?
      || NewKeys(afterKeys, ReactionsOf(before)) == []
      || (ParseEventId(eventId).Some?
          && forall k :: k in afterKeys && k in ReactionsOf(after) ==>
               !Truthy(ReactionsOf(after)[k].userId) || ReactionsOf(after)[k].userId.value == ParseEventId(eventId).value.0)
    ensures Notifications(before, after, afterKeys, eventId, users) == []
  {
    if after.Some? && ParseEventId(eventId).Some? {
      var newKeys := NewKeys(afterKeys, ReactionsOf(before));
      MessagesComeFromOthersReactions(newKeys, ReactionsOf(after), ParseEventId(eventId).value.0, ParseEventId(eventId).value.1, users);
    }
  }

  /** The body names the all-complete event, or the habit's label (its raw id when unknown). */
  lemma ReactionBodyShape(reactorName: string, habitId: string)
    ensures habitId == "allComplete" ==> ReactionBody(reactorName, habitId) == reactorName + " reacted to you completing all habits!"
    ensures habitId != "allComplete" && habitId !in HABIT_LABELS ==> ReactionBody(reactorName, habitId) == reactorName + " reacted to your " + habitId
    ensures habitId == "workout" ==> ReactionBody(reactorName, habitId) == reactorName + " reacted to your Workout"
  {
  }
}
