/**
 * `onChatReaction` (functions/src/onChatReaction.ts): when reactions are
 * added to a chat message, tell the message's author, quoting the message
 * cut to 60 characters.
 */
module ChatReactionNotify {
  import opened Common
  import opened Notify

  /** The fields of a `chatMessages` document the function reads. */
  datatype ChatMessageDoc = ChatMessageDoc(userId: string, text: string)

  const QUOTE_LIMIT: nat := 60

  /** The message for one new reaction key: skipped for a reaction with no user, the author's own reaction, or an author without a token. */
  function ChatReactionMessage(key: string, reactions: map<string, Reaction>, message: ChatMessageDoc,
                               users: map<string, UserDoc>): (m: Option<PushMessage>)
    ensures m.Some? <==>
      key in reactions && Truthy(reactions[key].userId) && reactions[key].userId.value != message.userId
      && message.userId in users && Truthy(users[message.userId].expoPushToken)
    ensures m.Some? ==>
      m.value.to == users[message.userId].expoPushToken.value
      && m.value.body == Truncate(message.text, QUOTE_LIMIT)
      && m.value.title == ReactorName(reactions[key].userId.value, users) + " reacted " + OrElse(reactions[key].emoji, "")
  {
    if key !in reactions || !Truthy(reactions[key].userId) || reactions[key].userId.value == message.userId then None
    else
      var reaction := reactions[key];
      var reactorName := ReactorName(reaction.userId.value, users);
      var ownerId := message.userId;
      if ownerId !in users || !Truthy(users[ownerId].expoPushToken) then None
      else
        Some(PushMessage(users[ownerId].expoPushToken.value,
                         reactorName + " reacted " + OrElse(reaction.emoji, ""),
                         Truncate(message.text, QUOTE_LIMIT)))
  }

  function ChatReactionMessages(keys: seq<string>, reactions: map<string, Reaction>, message: ChatMessageDoc,
                                users: map<string, UserDoc>): seq<PushMessage>
  {
    if keys == [] then []
    else
      var m := ChatReactionMessage(keys[|keys| - 1], reactions, message, users);
      ChatReactionMessages(keys[..|keys| - 1], reactions, message, users) + (if m.Some? then [m.value] else [])
  }

  /** What the trigger sends for a write of a message's reactions document. */
  function Notifications(before: Option<ReactionDoc>, after: Option<ReactionDoc>, afterKeys: seq<string>,
                         messageId: string, chatMessages: map<string, ChatMessageDoc>, users: map<string, UserDoc>): seq<PushMessage>
  {
    if after.None? then []
    else
      var newKeys := NewKeys(afterKeys, ReactionsOf(before));
      if newKeys == [] || messageId !in chatMessages then []
      else ChatReactionMessages(newKeys, ReactionsOf(after), chatMessages[messageId], users)
  }

  /** The messages for one more key are those so far plus that key's message, if any. */
  lemma MessagesOfNextKey(keys: seq<string>, i: int, reactions: map<string, Reaction>, message: ChatMessageDoc,
                          users: map<string, UserDoc>)
    requires 0 <= i < |keys|
    ensures var m := ChatReactionMessage(keys[i], reactions, message, users);
      ChatReactionMessages(keys[..i + 1], reactions, message, users)
      == ChatReactionMessages(keys[..i], reactions, message, users) + (if m.Some? then [m.value] else [])
  {
    assert keys[..i + 1][..i] == keys[..i];
  }

  /** The trigger: the new keys, the message lookup, then a loop over the new keys with `continue` on each skip. */
  method OnChatReaction(before: Option<ReactionDoc>, after: Option<ReactionDoc>, afterKeys: seq<string>,
                        messageId: string, chatMessages: map<string, ChatMessageDoc>, users: map<string, UserDoc>)
    returns (messages: seq<PushMessage>)
    ensures messages == Notifications(before, after, afterKeys, messageId, chatMessages, users)
  {
    messages := [];
    if after.None? {
      return;
    }
    var beforeReactions := ReactionsOf(before);
    var afterReactions := ReactionsOf(after);
    var newReactionKeys := NewKeys(afterKeys, beforeReactions);
    if |newReactionKeys| == 0 {
      return;
    }
    if messageId !in chatMessages {
      return;
    }
    var messageData := chatMessages[messageId];
    var messageOwnerId := messageData.userId;
    var messageText := if Utf16Length(messageData.text) > 60 then CutUnits(messageData.text, 57) + "..." else messageData.text;
    assert messageText == Truncate(messageData.text, QUOTE_LIMIT);
    for i := 0 to |newReactionKeys|
      invariant messages == ChatReactionMessages(newReactionKeys[..i], afterReactions, messageData, users)
    {
      MessagesOfNextKey(newReactionKeys, i, afterReactions, messageData, users);
      var key := newReactionKeys[i];
      if key !in afterReactions || !Truthy(afterReactions[key].userId) || afterReactions[key].userId.value == messageOwnerId {
        continue;
      }
      var reaction := afterReactions[key];
      var emoji := OrElse(reaction.emoji, "");
      var reactorName := ReactorName(reaction.userId.value, users);
      if messageOwnerId !in users || !Truthy(users[messageOwnerId].expoPushToken) {
        continue;
      }
      messages := messages + [PushMessage(users[messageOwnerId].expoPushToken.value, reactorName + " reacted " + emoji, messageText)];
    }
    assert newReactionKeys[..|newReactionKeys|] == newReactionKeys;
  }

  /**
   * Every message goes to the author's token and quotes at most 60
   * characters of the text, one message at most per new key, each for a
   * reaction by someone other than the author.
   */
  lemma {:induction false} MessagesQuoteTheText(keys: seq<string>, reactions: map<string, Reaction>, message: ChatMessageDoc,
                                               users: map<string, UserDoc>)
    ensures |ChatReactionMessages(keys, reactions, message, users)| <= |keys|
    ensures forall m :: m in ChatReactionMessages(keys, reactions, message, users) ==>
      message.userId in users && Truthy(users[message.userId].expoPushToken)
      && m.to == users[message.userId].expoPushToken.value
      && m.body == Truncate(message.text, QUOTE_LIMIT) && Utf16Length(m.body) <= QUOTE_LIMIT
    ensures ChatReactionMessages(keys, reactions, message, users) != [] ==>
      exists k :: k in keys && k in reactions && Truthy(reactions[k].userId) && reactions[k].userId.value != message.userId
  {
    TruncateFits(message.text, QUOTE_LIMIT);
    if keys != [] {
      var init := keys[..|keys| - 1];
      MessagesQuoteTheText(init, reactions, message, users);
      assert forall x :: x in init ==> x in keys;
      var k := keys[|keys| - 1];
      if ChatReactionMessage(k, reactions, message, users).Some? {
        assert k in keys;
      }
    }
  }

  /** Deleting the document, adding no reaction, or reacting to a message that does not exist sends nothing. */
  lemma NothingWithoutNewReactionOrMessage(before: Option<ReactionDoc>, after: Option<ReactionDoc>, afterKeys: seq<string>,
                                           messageId: string, chatMessages: map<string, ChatMessageDoc>, users: map<string, UserDoc>)
    requires after.None? || NewKeys(afterKeys, ReactionsOf(before)) == [] || messageId !in chatMessages
    ensures Notifications(before, after, afterKeys, messageId, chatMessages, users) == []
  {
  }

  /** The author reacting to their own message is never told about it. */
  lemma OwnReactionsAreSkipped(keys: seq<string>, reactions: map<string, Reaction>, message: ChatMessageDoc, users: map<string, UserDoc>)
    requires forall k :: k in keys && k in reactions ==> !Truthy(reactions[k].userId) || reactions[k].userId.value == message.userId
    ensures ChatReactionMessages(keys, reactions, message, users) == []
  {
    MessagesQuoteTheText(keys, reactions, message, users);
  }
}
