/**
 * Chat tags (src/services/chat.ts) and the text a chat bubble shows
 * (src/components/chat/ChatBubble.tsx). A message starting with "#idea " or
 * "#bug " is stored with that tag and its text unchanged; the bubble shows
 * the text without the prefix.
 */
module Chat {
  import opened Common

  datatype ChatTag = Idea | Bug

  const IDEA_PREFIX: string := "#idea "
  const BUG_PREFIX: string := "#bug "

  predicate StartsWith(text: string, prefix: string) {
    |prefix| <= |text| && text[..|prefix|] == prefix
  }

  /** The tag a message's text carries, if any. */
  function ParseTag(text: string): (tag: Option<ChatTag>)
    ensures tag == Some(Idea) <==> StartsWith(text, IDEA_PREFIX)
    ensures tag == Some(Bug) <==> StartsWith(text, BUG_PREFIX)
    ensures tag.None? <==> !StartsWith(text, IDEA_PREFIX) && !StartsWith(text, BUG_PREFIX)
  {
    PrefixesExclude(text);
    if StartsWith(text, IDEA_PREFIX) then Some(Idea)
    else if StartsWith(text, BUG_PREFIX) then Some(Bug)
    else None
  }

  /** The two prefixes never both match. */
  lemma PrefixesExclude(text: string)
    ensures !(StartsWith(text, IDEA_PREFIX) && StartsWith(text, BUG_PREFIX))
  {
    if |text| >= 6 && text[..6] == IDEA_PREFIX {
      assert text[1] == text[..6][1] == 'i';
      assert text[..5][1] != BUG_PREFIX[1];
    }
  }

  /** A stored `chatMessages` document; the server timestamp is a parameter. */
  datatype ChatMessage = ChatMessage(userId: string, text: string, tag: Option<ChatTag>, timestamp: int)

  /** `sendMessage`: the document added for a message. */
  function SendMessage(userId: string, text: string, serverTime: int): (doc: ChatMessage)
    ensures doc.userId == userId && doc.text == text && doc.timestamp == serverTime
    ensures doc.tag == Some(Idea) <==> StartsWith(text, IDEA_PREFIX)
    ensures doc.tag == Some(Bug) <==> StartsWith(text, BUG_PREFIX)
  {
    ChatMessage(userId, text, ParseTag(text), serverTime)
  }

  /** The text a bubble shows: the tag prefix dropped. */
  function GetDisplayText(text: string): (shown: string)
    ensures |shown| <= |text|
    ensures shown == text <==> ParseTag(text).None?
    ensures StartsWith(text, IDEA_PREFIX) ==> text == IDEA_PREFIX + shown
    ensures !StartsWith(text, IDEA_PREFIX) && StartsWith(text, BUG_PREFIX) ==> text == BUG_PREFIX + shown
  {
    if StartsWith(text, IDEA_PREFIX) then text[|IDEA_PREFIX|..]
    else if StartsWith(text, BUG_PREFIX) then text[|BUG_PREFIX|..]
    else text
  }

  /** Writing a tag before any text gives that tag back and shows the text alone. */
  lemma TagRoundTrip(s: string)
    ensures ParseTag(IDEA_PREFIX + s) == Some(Idea) && GetDisplayText(IDEA_PREFIX + s) == s
    ensures ParseTag(BUG_PREFIX + s) == Some(Bug) && GetDisplayText(BUG_PREFIX + s) == s
  {
    assert (IDEA_PREFIX + s)[..|IDEA_PREFIX|] == IDEA_PREFIX;
    assert (BUG_PREFIX + s)[..|BUG_PREFIX|] == BUG_PREFIX;
    PrefixesExclude(BUG_PREFIX + s);
  }

  /** A stored message's tag matches the prefix its bubble drops. */
  lemma StoredTagMatchesDisplay(userId: string, text: string, serverTime: int)
    ensures SendMessage(userId, text, serverTime).tag == Some(Idea) ==> text == IDEA_PREFIX + GetDisplayText(text)
    ensures SendMessage(userId, text, serverTime).tag == Some(Bug) ==> text == BUG_PREFIX + GetDisplayText(text)
    ensures SendMessage(userId, text, serverTime).tag.None? ==> GetDisplayText(text) == text
  {
    PrefixesExclude(text);
  }

  /** A tag word without its space, or a tag that is not at the start, is no tag. */
  lemma UntaggedExamples(s: string)
    requires |s| >= 1 && s[0] != '#'
    ensures ParseTag("#idea") == None && ParseTag("#bug") == None
    ensures ParseTag(s + IDEA_PREFIX) == None && ParseTag(s + BUG_PREFIX) == None
  {
    assert |IDEA_PREFIX| == 6 && |BUG_PREFIX| == 5;
    assert "#idea"[..5][1] != BUG_PREFIX[1];
    assert !StartsWith("#bug", IDEA_PREFIX) && !StartsWith("#bug", BUG_PREFIX);
    assert (s + IDEA_PREFIX)[0] == s[0];
    assert (s + BUG_PREFIX)[0] == s[0];
  }
}
