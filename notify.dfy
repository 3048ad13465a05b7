/**
 * What the cloud functions (functions/src) share: the push message they
 * build, the raw documents they read, JavaScript truthiness of optional
 * fields, the "newly added key" diff of two reaction maps, text truncation
 * and `split('_')`.
 *
 * Documents are read untyped by the functions, so habit maps are keyed by
 * strings here. Firestore reads are map lookups passed in as parameters and
 * delivery through the push service is not modelled.
 */
module Notify {
  import opened Common
  import opened Validation

  /** An Expo push message: the push token it goes to, a title and a body. */
  datatype PushMessage = PushMessage(to: string, title: string, body: string)

  /** The fields of a `users` document the functions read. */
  datatype UserDoc = UserDoc(
    displayName: Option<string>,
    partnerId: Option<string>,
    expoPushToken: Option<string>,
    partnerCompletions: bool,
    streakNudge: bool)

  /** One habit entry of a raw `habitLogs` document. */
  datatype RawHabit = RawHabit(completed: bool, note: Option<string>)

  /** A raw `habitLogs` document; `habits` may be missing. */
  datatype RawLog = RawLog(userId: string, habits: Option<map<string, RawHabit>>)

  /** A reaction entry; either field may be missing. */
  datatype Reaction = Reaction(userId: Option<string>, emoji: Option<string>)

  /** A document holding a reactions map (a feed event's or a chat message's); the map may be missing. */
  datatype ReactionDoc = ReactionDoc(reactions: Option<map<string, Reaction>>)

  /** `doc?.reactions || {}`. */
  function ReactionsOf(doc: Option<ReactionDoc>): map<string, Reaction> {
    if doc.Some? && doc.value.reactions.Some? then doc.value.reactions.value else map[]
  }

  /** A string field is truthy when present and non-empty. */
  predicate Truthy(s: Option<string>) {
    s.Some? && s.value != ""
  }

  /** `s || fallback`. */
  function OrElse(s: Option<string>, fallback: string): (r: string)
    ensures Truthy(s) ==> r == s.value
    ensures !Truthy(s) ==> r == fallback
  {
    if Truthy(s) then s.value else fallback
  }

  /** The reactor's name: their display name, or "Your partner" when it is missing or empty. */
  function ReactorName(reactorId: string, users: map<string, UserDoc>): (r: string)
    ensures reactorId in users && Truthy(users[reactorId].displayName) ==> r == users[reactorId].displayName.value
    ensures !(reactorId in users && Truthy(users[reactorId].displayName)) ==> r == "Your partner"
  {
    if reactorId in users then OrElse(users[reactorId].displayName, "Your partner") else "Your partner"
  }

  /** A possibly missing string in a template literal. */
  function InTemplate(s: Option<string>): string {
    if s.Some? then s.value else "undefined"
  }

  /** `keys` is what `Object.keys(m)` returns: each key of `m` once. */
  ghost predicate ListsKeys<V>(keys: seq<string>, m: map<string, V>) {
    && (forall k :: k in keys <==> k in m)
    && (forall i, j :: 0 <= i < j < |keys| ==> keys[i] != keys[j])
  }

  /** `Object.keys(after).filter((key) => !before[key])`: the keys added by a write, in key order. */
  function NewKeys<V>(afterKeys: seq<string>, before: map<string, V>): (r: seq<string>)
    ensures |r| <= |afterKeys|
    ensures forall k :: k in r <==> k in afterKeys && k !in before
  {
    if afterKeys == [] then []
    else
      var init := NewKeys(afterKeys[..|afterKeys| - 1], before);
      var k := afterKeys[|afterKeys| - 1];
      assert forall x :: x in afterKeys <==> x in afterKeys[..|afterKeys| - 1] || x == k;
      init + (if k !in before then [k] else [])
  }

  /** A key that was already there is never new, and the new keys of a listing are distinct. */
  lemma {:induction false} NewKeysAreDistinct<V>(afterKeys: seq<string>, before: map<string, V>)
    requires forall i, j :: 0 <= i < j < |afterKeys| ==> afterKeys[i] != afterKeys[j]
    ensures forall i, j :: 0 <= i < j < |NewKeys(afterKeys, before)| ==> NewKeys(afterKeys, before)[i] != NewKeys(afterKeys, before)[j]
  {
    if afterKeys != [] {
      var init := afterKeys[..|afterKeys| - 1];
      NewKeysAreDistinct(init, before);
      assert afterKeys[|afterKeys| - 1] !in init;
    }
  }

  /**
   * `text.length > limit ? text.slice(0, limit - 3) + '...' : text`, with
   * `length` and `slice` counting UTF-16 code units.
   */
  function Truncate(text: string, limit: nat): string
    requires limit >= 3
  {
    if Utf16Length(text) > limit then CutUnits(text, limit - 3) + "..." else text
  }

  /**
   * A truncated text fits the limit in code units; a short text is kept; a
   * long one becomes a head of the text plus "...", where the head takes
   * limit-3 units, or one fewer when unit limit-3 would split a surrogate pair.
   */
  lemma TruncateFits(text: string, limit: nat)
    requires limit >= 3
    ensures Utf16Length(Truncate(text, limit)) <= limit
    ensures Utf16Length(text) <= limit ==> Truncate(text, limit) == text
    ensures Utf16Length(text) > limit ==>
      var r := Truncate(text, limit);
      && 3 <= |r| && r[|r| - 3..] == "..."
      && r[..|r| - 3] <= text && |r| - 3 < |text|
      && limit - 4 <= Utf16Length(r[..|r| - 3]) <= limit - 3
      && (Utf16Length(r[..|r| - 3]) < limit - 3 ==> CodeUnits(text[|r| - 3]) == 2)
  {
    if Utf16Length(text) > limit {
      var head := CutUnits(text, limit - 3);
      var r := head + "...";
      assert r[..|r| - 3] == head && r[|r| - 3..] == "...";
      Utf16LengthOfConcat(head, "...");
    }
  }

  /** For text inside the Basic Multilingual Plane the cut is at limit-3 characters. */
  lemma TruncateWithinPlane(text: string, limit: nat)
    requires limit >= 3
    requires forall i :: 0 <= i < |text| ==> CodeUnits(text[i]) == 1
    ensures |text| <= limit ==> Truncate(text, limit) == text
    ensures |text| > limit ==> Truncate(text, limit) == text[..limit - 3] + "..."
  {
    PlaneLength(text);
    PlaneCut(text, limit - 3);
  }

  /** `s.split(sep)`: the text up to the first separator, then the pieces of the rest. */
  function Split(s: string, sep: char): (parts: seq<string>)
    ensures |parts| >= 1
    decreases |s|
  {
    var i := IndexOf(s, sep);
    if i == |s| then [s] else [s[..i]] + Split(s[i + 1..], sep)
  }

  /** No piece holds the separator. */
  lemma {:induction false} SplitPiecesHaveNoSeparator(s: string, sep: char)
    ensures forall p :: p in Split(s, sep) ==> sep !in p
    decreases |s|
  {
    var i := IndexOf(s, sep);
    if i < |s| {
      SplitPiecesHaveNoSeparator(s[i + 1..], sep);
    }
  }

  /** The pieces joined with the separator. */
  function Join(parts: seq<string>, sep: char): string
    requires |parts| >= 1
  {
    if |parts| == 1 then parts[0] else parts[0] + [sep] + Join(parts[1..], sep)
  }

  /** Joining the pieces of a split gives back the text. */
  lemma {:induction false} SplitJoinRoundTrip(s: string, sep: char)
    ensures Join(Split(s, sep), sep) == s
    decreases |s|
  {
    var i := IndexOf(s, sep);
    if i < |s| {
      SplitJoinRoundTrip(s[i + 1..], sep);
      var parts := Split(s, sep);
      assert parts[1..] == Split(s[i + 1..], sep);
      assert s == s[..i] + [sep] + s[i + 1..];
    }
  }

  /** A text without the separator is one piece. */
  lemma SplitWithoutSeparator(s: string, sep: char)
    requires sep !in s
    ensures Split(s, sep) == [s]
  {
    assert IndexOf(s, sep) == |s|;
  }

  /** A head without the separator is the first piece. */
  lemma SplitAfterHead(head: string, rest: string, sep: char)
    requires sep !in head
    ensures Split(head + [sep] + rest, sep) == [head] + Split(rest, sep)
  {
    var s := head + [sep] + rest;
    assert s[|head|] == sep;
    assert IndexOf(s, sep) == |head|;
    assert s[|head| + 1..] == rest;
    assert s[..|head|] == head;
  }

  /** A tail without the separator is the last piece. */
  lemma {:induction false} SplitBeforeTail(front: string, tail: string, sep: char)
    requires sep !in tail
    ensures |Split(front + [sep] + tail, sep)| >= 2
    ensures Split(front + [sep] + tail, sep)[|Split(front + [sep] + tail, sep)| - 1] == tail
    decreases |front|
  {
    var i := IndexOf(front, sep);
    if i == |front| {
      assert sep !in front;
      SplitAfterHead(front, tail, sep);
      SplitWithoutSeparator(tail, sep);
    } else {
      var head := front[..i];
      var more := front[i + 1..];
      assert sep !in head;
      assert front + [sep] + tail == head + [sep] + (more + [sep] + tail);
      SplitAfterHead(head, more + [sep] + tail, sep);
      SplitBeforeTail(more, tail, sep);
    }
  }
}
