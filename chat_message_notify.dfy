/**
 * `onChatMessage` (functions/src/onChatMessage.ts): a new chat message is
 * pushed to the sender's partner, cut to 100 characters, titled with the
 * sender's name.
 */
module ChatMessageNotify {
  import opened Common
  import opened Notify
  import opened ChatReactionNotify

  const BODY_LIMIT: nat := 100

  /**
   * The push for a new message, if any. A sender without a display name
   * gives an empty title here, where the source leaves the title unset.
   */
  function OnChatMessage(data: Option<ChatMessageDoc>, users: map<string, UserDoc>): (r: Option<PushMessage>)
    ensures r.Some? <==>
      data.Some? && data.value.userId in users && Truthy(users[data.value.userId].partnerId)
      && users[data.value.userId].partnerId.value in users
      && Truthy(users[users[data.value.userId].partnerId.value].expoPushToken)
    ensures r.Some? ==>
      var sender := users[data.value.userId];
      && r.value.to == users[sender.partnerId.value].expoPushToken.value
      && r.value.title == OrElse(sender.displayName, "")
      && r.value.body == Truncate(data.value.text, BODY_LIMIT)
  {
    if data.None? then None
    else
      var userId := data.value.userId;
      var text := data.value.text;
      if userId !in users || !Truthy(users[userId].partnerId) then None
      else
        var senderData := users[userId];
        var partnerId := senderData.partnerId.value;
        if partnerId !in users || !Truthy(users[partnerId].expoPushToken) then None
        else
          Some(PushMessage(users[partnerId].expoPushToken.value, OrElse(senderData.displayName, ""),
                           Truncate(text, BODY_LIMIT)))
  }

  /**
   * The body is never longer than 100 code units, a text that fits is sent
   * unchanged, and a longer one is cut to a head of the text plus "...".
   */
  lemma BodyFits(data: Option<ChatMessageDoc>, users: map<string, UserDoc>)
    requires OnChatMessage(data, users).Some?
    ensures Utf16Length(OnChatMessage(data, users).value.body) <= BODY_LIMIT
    ensures Utf16Length(data.value.text) <= BODY_LIMIT ==> OnChatMessage(data, users).value.body == data.value.text
    ensures Utf16Length(data.value.text) > BODY_LIMIT ==>
      var body := OnChatMessage(data, users).value.body;
      && |body| >= 3 && body[|body| - 3..] == "..." && body[..|body| - 3] <= data.value.text
      && 96 <= Utf16Length(body[..|body| - 3]) <= 97
    ensures (forall i :: 0 <= i < |data.value.text| ==> CodeUnits(data.value.text[i]) == 1) ==>
      OnChatMessage(data, users).value.body
        == if |data.value.text| > BODY_LIMIT then data.value.text[..97] + "..." else data.value.text
  {
    TruncateFits(data.value.text, BODY_LIMIT);
    if forall i :: 0 <= i < |data.value.text| ==> CodeUnits(data.value.text[i]) == 1 {
      TruncateWithinPlane(data.value.text, BODY_LIMIT);
    }
  }
}
