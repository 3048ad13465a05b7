/**
 * The `habitLogs` collection as the app uses it (src/services/firestore.ts):
 * a table of documents keyed by `getHabitLogId(userId, date)`, with
 * create-if-absent, field-path updates and a date-range query.
 *
 * Firestore itself is not modelled: the collection is a map, the server
 * timestamp and the current date are parameters, and a date is written into
 * an id by a `YYYY-MM-DD` formatter given to the store.
 */
module Firestore {
  import opened Common
  import opened Dates
  import opened Habits

  /** `Partial<HabitData>`: the fields a write names, each optional. */
  datatype Patch = Patch(
    completed: Option<bool>,
    completedAt: Option<Option<Timestamp>>,
    currentOz: Option<int>,
    pagesRead: Option<int>,
    note: Option<string>,
    text: Option<string>)

  const EMPTY_PATCH := Patch(None, None, None, None, None, None)

  /** The record after the fields the patch names are overwritten. */
  function ApplyPatch(d: HabitData, p: Patch): (e: HabitData)
    ensures p.completed.Some? ==> e.completed == p.completed.value
    ensures p.completed.None? ==> e.completed == d.completed
    ensures p.completedAt.Some? ==> e.completedAt == p.completedAt.value
    ensures p.completedAt.None? ==> e.completedAt == d.completedAt
    ensures p.currentOz.Some? ==> e.currentOz == p.currentOz
    ensures p.currentOz.None? ==> e.currentOz == d.currentOz
    ensures p.pagesRead.Some? ==> e.pagesRead == p.pagesRead
    ensures p.pagesRead.None? ==> e.pagesRead == d.pagesRead
    ensures p.note.Some? ==> e.note == p.note
    ensures p.note.None? ==> e.note == d.note
    ensures p.text.Some? ==> e.text == p.text
    ensures p.text.None? ==> e.text == d.text
  {
    HabitData(
      if p.completed.Some? then p.completed.value else d.completed,
      if p.completedAt.Some? then p.completedAt.value else d.completedAt,
      if p.currentOz.Some? then p.currentOz else d.currentOz,
      if p.pagesRead.Some? then p.pagesRead else d.pagesRead,
      if p.note.Some? then p.note else d.note,
      if p.text.Some? then p.text else d.text)
  }

  /** A value of an update object: the server timestamp sentinel or a field value. */
  datatype UpdateValue =
    | ServerTimestamp
    | BoolValue(b: bool)
    | TimestampValue(t: Option<Timestamp>)
    | IntValue(n: int)
    | StringValue(s: string)

  /** The fields of a habit record that a write can name. */
  datatype Field = CompletedField | CompletedAtField | CurrentOzField | PagesReadField | NoteField | TextField

  function FieldName(f: Field): string {
    match f
    case CompletedField => "completed"
    case CompletedAtField => "completedAt"
    case CurrentOzField => "currentOz"
    case PagesReadField => "pagesRead"
    case NoteField => "note"
    case TextField => "text"
  }

  /** The value a patch gives a field, if it names it. */
  function PatchValue(p: Patch, f: Field): Option<UpdateValue> {
    match f
    case CompletedField => if p.completed.Some? then Some(BoolValue(p.completed.value)) else None
    case CompletedAtField => if p.completedAt.Some? then Some(TimestampValue(p.completedAt.value)) else None
    case CurrentOzField => if p.currentOz.Some? then Some(IntValue(p.currentOz.value)) else None
    case PagesReadField => if p.pagesRead.Some? then Some(IntValue(p.pagesRead.value)) else None
    case NoteField => if p.note.Some? then Some(StringValue(p.note.value)) else None
    case TextField => if p.text.Some? then Some(StringValue(p.text.value)) else None
  }

  /** The patch that names exactly the fields whose value has the field's type. */
  function PatchOfValues(value: Field -> Option<UpdateValue>): Patch {
    Patch(
      if value(CompletedField).Some? && value(CompletedField).value.BoolValue? then Some(value(CompletedField).value.b) else None,
      if value(CompletedAtField).Some? && value(CompletedAtField).value.TimestampValue? then Some(value(CompletedAtField).value.t) else None,
      if value(CurrentOzField).Some? && value(CurrentOzField).value.IntValue? then Some(value(CurrentOzField).value.n) else None,
      if value(PagesReadField).Some? && value(PagesReadField).value.IntValue? then Some(value(PagesReadField).value.n) else None,
      if value(NoteField).Some? && value(NoteField).value.StringValue? then Some(value(NoteField).value.s) else None,
      if value(TextField).Some? && value(TextField).value.StringValue? then Some(value(TextField).value.s) else None)
  }

  lemma PatchOfItsValues(p: Patch)
    ensures PatchOfValues(f => PatchValue(p, f)) == p
  {
  }

  lemma PatchOfSameValues(value1: Field -> Option<UpdateValue>, value2: Field -> Option<UpdateValue>)
    requires forall f :: value1(f) == value2(f)
    ensures PatchOfValues(value1) == PatchOfValues(value2)
  {
  }

  const FIELD_ORDER: seq<Field> := [CompletedField, CompletedAtField, CurrentOzField, PagesReadField, NoteField, TextField]

  lemma EveryFieldListed(f: Field)
    ensures f in FIELD_ORDER
  {
  }

  /** The named fields among `fields`, in that order, with their values. */
  function EntriesFrom(p: Patch, fields: seq<Field>): (e: seq<(Field, UpdateValue)>)
    ensures |e| <= |fields|
    ensures forall i :: 0 <= i < |e| ==> e[i].0 in fields && PatchValue(p, e[i].0) == Some(e[i].1)
  {
    if fields == [] then []
    else
      var rest := EntriesFrom(p, fields[1..]);
      match PatchValue(p, fields[0])
      case None => rest
      case Some(v) =>
        assert forall i :: 0 <= i < |rest| ==> ([(fields[0], v)] + rest)[i + 1] == rest[i];
        [(fields[0], v)] + rest
  }

  lemma {:induction false} EntriesFromAreComplete(p: Patch, fields: seq<Field>, f: Field)
    requires f in fields && PatchValue(p, f).Some?
    ensures exists i :: 0 <= i < |EntriesFrom(p, fields)| && EntriesFrom(p, fields)[i].0 == f
  {
    var e := EntriesFrom(p, fields);
    if fields[0] == f {
      assert e[0].0 == f;
    } else {
      EntriesFromAreComplete(p, fields[1..], f);
      var rest := EntriesFrom(p, fields[1..]);
      var i :| 0 <= i < |rest| && rest[i].0 == f;
      if PatchValue(p, fields[0]).Some? {
        assert e[i + 1].0 == f;
      } else {
        assert e[i].0 == f;
      }
    }
  }

  lemma {:induction false} EntriesFromAreDistinct(p: Patch, fields: seq<Field>)
    requires forall i, j :: 0 <= i < j < |fields| ==> fields[i] != fields[j]
    ensures forall i, j :: 0 <= i < j < |EntriesFrom(p, fields)| ==> EntriesFrom(p, fields)[i].0 != EntriesFrom(p, fields)[j].0
  {
    if fields != [] {
      EntriesFromAreDistinct(p, fields[1..]);
      assert fields[0] !in fields[1..];
    }
  }

  /** `Object.entries(data)`: each named field once, with its value. */
  function PatchEntries(p: Patch): (e: seq<(Field, UpdateValue)>)
    ensures |e| <= 6
    ensures forall i :: 0 <= i < |e| ==> PatchValue(p, e[i].0) == Some(e[i].1)
    ensures forall f :: PatchValue(p, f).Some? ==> exists i :: 0 <= i < |e| && e[i].0 == f
    ensures forall i, j :: 0 <= i < j < |e| ==> e[i].0 != e[j].0
  {
    EntriesFromAreDistinct(p, FIELD_ORDER);
    assert forall f :: PatchValue(p, f).Some? ==> exists i :: 0 <= i < |EntriesFrom(p, FIELD_ORDER)| && EntriesFrom(p, FIELD_ORDER)[i].0 == f by {
      forall f | PatchValue(p, f).Some? ensures exists i :: 0 <= i < |EntriesFrom(p, FIELD_ORDER)| && EntriesFrom(p, FIELD_ORDER)[i].0 == f {
        EveryFieldListed(f);
        EntriesFromAreComplete(p, FIELD_ORDER, f);
      }
    }
    EntriesFrom(p, FIELD_ORDER)
  }

  /** The update path of a field: `habits.<habitId>.<field>`. */
  function PathKey(habitId: HabitId, f: Field): string {
    "habits." + HabitKey(habitId) + "." + FieldName(f)
  }

  /** Reads a habit key back. */
  function HabitOfKey(k: string): Option<HabitId> {
    if k == "wakeUpOnTime" then Some(WakeUpOnTime)
    else if k == "morningSunlight" then Some(MorningSunlight)
    else if k == "water" then Some(Water)
    else if k == "journal" then Some(Journal)
    else if k == "reading" then Some(Reading)
    else if k == "workout" then Some(Workout)
    else if k == "meditate" then Some(Meditate)
    else None
  }

  lemma HabitKeyRoundTrip(h: HabitId)
    ensures HabitOfKey(HabitKey(h)) == Some(h)
    ensures forall k :: 0 <= k < |HabitKey(h)| ==> HabitKey(h)[k] != '.'
  {
  }

  /** Reads a field name back. */
  function FieldOfName(s: string): Option<Field> {
    if s == "completed" then Some(CompletedField)
    else if s == "completedAt" then Some(CompletedAtField)
    else if s == "currentOz" then Some(CurrentOzField)
    else if s == "pagesRead" then Some(PagesReadField)
    else if s == "note" then Some(NoteField)
    else if s == "text" then Some(TextField)
    else None
  }

  lemma FieldNameRoundTrip(f: Field)
    ensures FieldOfName(FieldName(f)) == Some(f)
  {
  }

  /** The position of the first dot, or the length when there is none. */
  function FirstDot(s: string): nat {
    if s == [] || s[0] == '.' then 0 else 1 + FirstDot(s[1..])
  }

  lemma {:induction false} FirstDotAfterKey(k: string, f: string)
    requires forall i :: 0 <= i < |k| ==> k[i] != '.'
    ensures FirstDot(k + "." + f) == |k|
  {
    if k != [] {
      assert (k + "." + f)[1..] == k[1..] + "." + f;
      FirstDotAfterKey(k[1..], f);
    }
  }

  /** Text without a dot, a dot, then anything: the split point is fixed. */
  lemma SplitAtFirstDot(k1: string, f1: string, k2: string, f2: string)
    requires forall i :: 0 <= i < |k1| ==> k1[i] != '.'
    requires forall i :: 0 <= i < |k2| ==> k2[i] != '.'
    requires k1 + "." + f1 == k2 + "." + f2
    ensures k1 == k2 && f1 == f2
  {
    var s := k1 + "." + f1;
    FirstDotAfterKey(k1, f1);
    FirstDotAfterKey(k2, f2);
    assert k1 == s[..|k1|] && k2 == s[..|k2|];
    assert f1 == s[|k1| + 1..] && f2 == s[|k2| + 1..];
  }

  /** A path is `habits.` followed by the habit key, a dot and the field name. */
  lemma PathKeyParts(h: HabitId, f: Field)
    ensures |PathKey(h, f)| > 7 && PathKey(h, f)[0] == 'h'
    ensures PathKey(h, f)[7..] == HabitKey(h) + "." + FieldName(f)
  {
    var rest := HabitKey(h) + "." + FieldName(f);
    assert PathKey(h, f) == "habits." + rest;
  }

  /** Distinct habits or distinct fields give distinct paths, and no path is `updatedAt`. */
  lemma PathKeyInjective(h1: HabitId, f1: Field, h2: HabitId, f2: Field)
    ensures PathKey(h1, f1) != "updatedAt"
    ensures PathKey(h1, f1) == PathKey(h2, f2) ==> h1 == h2 && f1 == f2
  {
    PathKeyParts(h1, f1);
    PathKeyParts(h2, f2);
    assert "updatedAt"[0] == 'u';
    if PathKey(h1, f1) == PathKey(h2, f2) {
      HabitKeyRoundTrip(h1);
      HabitKeyRoundTrip(h2);
      SplitAtFirstDot(HabitKey(h1), FieldName(f1), HabitKey(h2), FieldName(f2));
      FieldNameRoundTrip(f1);
      FieldNameRoundTrip(f2);
    }
  }

  /** `updateObj`: `updatedAt` plus one path per named field, each carrying the field's value. */
  ghost predicate IsUpdateObject(m: map<string, UpdateValue>, habitId: HabitId, p: Patch) {
    && "updatedAt" in m && m["updatedAt"] == ServerTimestamp
    && (forall f :: PatchValue(p, f).Some? ==> PathKey(habitId, f) in m && m[PathKey(habitId, f)] == PatchValue(p, f).value)
    && (forall k :: k in m ==> k == "updatedAt" || exists f :: PatchValue(p, f).Some? && k == PathKey(habitId, f))
  }

  /** `updatedAt` plus the paths of the entries so far. */
  ghost predicate HoldsEntries(m: map<string, UpdateValue>, habitId: HabitId, e: seq<(Field, UpdateValue)>) {
    && "updatedAt" in m && m["updatedAt"] == ServerTimestamp
    && (forall j :: 0 <= j < |e| ==> PathKey(habitId, e[j].0) in m && m[PathKey(habitId, e[j].0)] == e[j].1)
    && (forall k :: k in m ==> k == "updatedAt" || exists j :: 0 <= j < |e| && k == PathKey(habitId, e[j].0))
  }

  lemma AddEntry(m: map<string, UpdateValue>, habitId: HabitId, e: seq<(Field, UpdateValue)>, x: (Field, UpdateValue))
    requires HoldsEntries(m, habitId, e)
    requires forall j :: 0 <= j < |e| ==> e[j].0 != x.0
    ensures HoldsEntries(m[PathKey(habitId, x.0) := x.1], habitId, e + [x])
  {
    var m' := m[PathKey(habitId, x.0) := x.1];
    var e' := e + [x];
    PathKeyInjective(habitId, x.0, habitId, x.0);
    forall j | 0 <= j < |e'| ensures PathKey(habitId, e'[j].0) in m' && m'[PathKey(habitId, e'[j].0)] == e'[j].1 {
      if j < |e| {
        PathKeyInjective(habitId, e[j].0, habitId, x.0);
      }
    }
    forall k | k in m' ensures k == "updatedAt" || exists j :: 0 <= j < |e'| && k == PathKey(habitId, e'[j].0) {
      if k != "updatedAt" && k != PathKey(habitId, x.0) {
        var j :| 0 <= j < |e| && k == PathKey(habitId, e[j].0);
        assert e'[j] == e[j];
      } else if k != "updatedAt" {
        assert e'[|e|] == x;
      }
    }
  }

  lemma EntriesGiveUpdateObject(m: map<string, UpdateValue>, habitId: HabitId, p: Patch)
    requires HoldsEntries(m, habitId, PatchEntries(p))
    ensures IsUpdateObject(m, habitId, p)
  {
    var e := PatchEntries(p);
    forall f | PatchValue(p, f).Some? ensures PathKey(habitId, f) in m && m[PathKey(habitId, f)] == PatchValue(p, f).value {
      var j :| 0 <= j < |e| && e[j].0 == f;
    }
  }

  /** Writing the next of a list of entries with distinct fields keeps the object holding every entry so far. */
  lemma AddNextEntry(m: map<string, UpdateValue>, habitId: HabitId, entries: seq<(Field, UpdateValue)>, i: int)
    requires 0 <= i < |entries|
    requires forall a, b :: 0 <= a < b < |entries| ==> entries[a].0 != entries[b].0
    requires HoldsEntries(m, habitId, entries[..i])
    ensures HoldsEntries(m[PathKey(habitId, entries[i].0) := entries[i].1], habitId, entries[..i + 1])
  {
    assert entries[..i + 1] == entries[..i] + [entries[i]];
    AddEntry(m, habitId, entries[..i], entries[i]);
  }

  /** The loop of `updateHabitData` that fills `updateObj`. */
  method BuildUpdateObject(habitId: HabitId, p: Patch) returns (m: map<string, UpdateValue>)
    ensures IsUpdateObject(m, habitId, p)
  {
    var entries := PatchEntries(p);
    m := map["updatedAt" := ServerTimestamp];
    for i := 0 to |entries|
      invariant HoldsEntries(m, habitId, entries[..i])
    {
      AddNextEntry(m, habitId, entries, i);
      m := m[PathKey(habitId, entries[i].0) := entries[i].1];
    }
    assert entries[..|entries|] == entries;
    EntriesGiveUpdateObject(m, habitId, p);
  }

  /** The value an update object gives a field of a habit. */
  function ReadField(m: map<string, UpdateValue>, h: HabitId, f: Field): Option<UpdateValue> {
    if PathKey(h, f) in m then Some(m[PathKey(h, f)]) else None
  }

  /** The fields an update object sets on one habit, read back from its paths. */
  function ReadPatch(m: map<string, UpdateValue>, h: HabitId): Patch {
    PatchOfValues(f => ReadField(m, h, f))
  }

  /** An update object reads back as the patch on its habit and as nothing on every other habit. */
  lemma ReadPatchRoundTrip(m: map<string, UpdateValue>, habitId: HabitId, p: Patch, h: HabitId)
    requires IsUpdateObject(m, habitId, p)
    ensures ReadPatch(m, h) == if h == habitId then p else EMPTY_PATCH
  {
    forall f ensures ReadField(m, h, f) == if h == habitId then PatchValue(p, f) else None {
      PathKeyInjective(h, f, h, f);
      if PathKey(h, f) in m {
        var g :| PatchValue(p, g).Some? && PathKey(h, f) == PathKey(habitId, g);
        PathKeyInjective(h, f, habitId, g);
      }
    }
    PatchOfItsValues(p);
    if h == habitId {
      PatchOfSameValues(f => ReadField(m, h, f), f => PatchValue(p, f));
    } else {
      PatchOfSameValues(f => ReadField(m, h, f), f => None);
    }
  }

  /** The entry a path update starts from: the stored one, or a record with every field unset. */
  function EntryOrBlank(habits: DayHabits, h: HabitId): HabitData {
    if h in habits then habits[h] else BinaryEntry()
  }

  const ALL_HABIT_IDS: set<HabitId> := {WakeUpOnTime, MorningSunlight, Water, Journal, Reading, Workout, Meditate}

  /** `ref.update(updateObj)` on an existing document: each path overwrites one field. */
  function ApplyUpdateObject(doc: HabitLog, m: map<string, UpdateValue>, now: Timestamp): HabitLog {
    doc.(
      updatedAt := if "updatedAt" in m then now else doc.updatedAt,
      habits := map h | h in ALL_HABIT_IDS && (h in doc.habits || ReadPatch(m, h) != EMPTY_PATCH)
        :: ApplyPatch(EntryOrBlank(doc.habits, h), ReadPatch(m, h)))
  }

  /** The habits after a patch on one habit: that entry is patched, or created if the patch names a field. */
  function PatchedHabits(habits: DayHabits, habitId: HabitId, p: Patch): DayHabits {
    if habitId in habits || p != EMPTY_PATCH then habits[habitId := ApplyPatch(EntryOrBlank(habits, habitId), p)]
    else habits
  }

  /** One habit of the updated document: patched by what the update object says about it. */
  lemma UpdatedHabit(doc: HabitLog, m: map<string, UpdateValue>, now: Timestamp, h: HabitId)
    ensures h in ApplyUpdateObject(doc, m, now).habits <==> h in doc.habits || ReadPatch(m, h) != EMPTY_PATCH
    ensures h in ApplyUpdateObject(doc, m, now).habits ==>
      ApplyUpdateObject(doc, m, now).habits[h] == ApplyPatch(EntryOrBlank(doc.habits, h), ReadPatch(m, h))
  {
    EveryHabitIdListed(h);
  }

  /** The named habit is patched, every other one is left as it was. */
  lemma UpdateOfOneHabit(doc: HabitLog, m: map<string, UpdateValue>, habitId: HabitId, p: Patch, now: Timestamp, h: HabitId)
    requires ReadPatch(m, h) == if h == habitId then p else EMPTY_PATCH
    ensures h in ApplyUpdateObject(doc, m, now).habits <==> h in PatchedHabits(doc.habits, habitId, p)
    ensures h in PatchedHabits(doc.habits, habitId, p) ==>
      ApplyUpdateObject(doc, m, now).habits[h] == PatchedHabits(doc.habits, habitId, p)[h]
  {
    UpdatedHabit(doc, m, now, h);
    if h != habitId {
      EmptyPatchKeeps(EntryOrBlank(doc.habits, h));
    }
  }

  lemma EmptyPatchKeeps(d: HabitData)
    ensures ApplyPatch(d, EMPTY_PATCH) == d
  {
  }

  /** Applying the update changes `updatedAt` and the named fields of the named habit, and nothing else. */
  lemma UpdateTouchesOnlyNamedFields(doc: HabitLog, m: map<string, UpdateValue>, habitId: HabitId, p: Patch, now: Timestamp)
    requires IsUpdateObject(m, habitId, p)
    ensures ApplyUpdateObject(doc, m, now) == doc.(updatedAt := now, habits := PatchedHabits(doc.habits, habitId, p))
  {
    var r := ApplyUpdateObject(doc, m, now).habits;
    var expected := PatchedHabits(doc.habits, habitId, p);
    forall h: HabitId ensures (h in r <==> h in expected) && (h in r ==> r[h] == expected[h]) {
      ReadPatchRoundTrip(m, habitId, p, h);
      UpdateOfOneHabit(doc, m, habitId, p, now, h);
    }
    MapsAgree(r, expected);
  }

  lemma MapsAgree<K, V>(a: map<K, V>, b: map<K, V>)
    requires forall k :: k in a <==> k in b
    requires forall k :: k in a ==> a[k] == b[k]
    ensures a == b
  {
  }

  /** The log ids are the keys of the documents: a date formatter writing ten characters per date, one text per date. */
  ghost predicate IsDateFormatter(dateText: Date -> string) {
    && (forall d :: |dateText(d)| == 10)
    && (forall d1, d2 :: dateText(d1) == dateText(d2) ==> d1 == d2)
  }

  /** `getOrCreateTodayLog` on a table: the stored log if there is one, else the new log, stored. */
  function GetOrCreate(docs: map<string, HabitLog>, id: string, newLog: HabitLog): (r: (map<string, HabitLog>, HabitLog))
    ensures id in r.0 && r.0[id] == r.1
    ensures id in docs ==> r.0 == docs
    ensures id !in docs ==> r.1 == newLog
    ensures forall k :: k in docs ==> k in r.0 && r.0[k] == docs[k]
  {
    if id in docs then (docs, docs[id]) else (docs[id := newLog], newLog)
  }

  /** A second call leaves the table as the first left it and returns the same log. */
  lemma GetOrCreateIdempotent(docs: map<string, HabitLog>, id: string, newLog1: HabitLog, newLog2: HabitLog)
    ensures GetOrCreate(GetOrCreate(docs, id, newLog1).0, id, newLog2) == GetOrCreate(docs, id, newLog1)
  {
  }

  /** The `habitLogs` collection. */
  class LogStore {
    var docs: map<string, HabitLog>
    const dateText: Date -> string

    /** Every document sits under the id of its own user and date. */
    ghost predicate Valid()
      reads this
    {
      && IsDateFormatter(dateText)
      && forall id :: id in docs ==> id == GetHabitLogId(docs[id].userId, dateText(docs[id].date))
    }

    constructor (dateText: Date -> string)
      requires IsDateFormatter(dateText)
      ensures Valid() && docs == map[] && this.dateText == dateText
    {
      docs := map[];
      this.dateText := dateText;
    }

    /** `getHabitLogRef(userId, date)`: the document id. */
    function LogId(userId: string, date: Date): string {
      GetHabitLogId(userId, dateText(date))
    }

    lemma LogIdInjective(u1: string, d1: Date, u2: string, d2: Date)
      requires IsDateFormatter(dateText)
      requires LogId(u1, d1) == LogId(u2, d2)
      ensures u1 == u2 && d1 == d2
    {
      HabitLogIdInjective(u1, dateText(d1), u2, dateText(d2));
    }

    /** `getOrCreateTodayLog`: read today's log, or store the empty day and return it. */
    method GetOrCreateTodayLog(userId: string, today: Date, now: Timestamp) returns (log: HabitLog)
      requires Valid()
      modifies this
      ensures Valid()
      ensures (docs, log) == GetOrCreate(old(docs), LogId(userId, today), HabitLog(userId, today, now, CreateEmptyDayHabits()))
    {
      var id := LogId(userId, today);
      if id in docs {
        log := docs[id];
        return;
      }
      log := HabitLog(userId, today, now, CreateEmptyDayHabits());
      docs := docs[id := log];
    }

    /** `updateHabitData`: build the update object and apply it; an update of a missing document fails. */
    method UpdateHabitData(userId: string, date: Date, habitId: HabitId, p: Patch, now: Timestamp) returns (ok: bool)
      requires Valid()
      modifies this
      ensures Valid()
      ensures ok <==> LogId(userId, date) in old(docs)
      ensures !ok ==> docs == old(docs)
      ensures ok ==> docs == old(docs)[LogId(userId, date) := old(docs)[LogId(userId, date)].(
        updatedAt := now, habits := PatchedHabits(old(docs)[LogId(userId, date)].habits, habitId, p))]
    {
      var m := BuildUpdateObject(habitId, p);
      var id := LogId(userId, date);
      if id !in docs {
        return false;
      }
      UpdateTouchesOnlyNamedFields(docs[id], m, habitId, p, now);
      docs := docs[id := ApplyUpdateObject(docs[id], m, now)];
      ok := true;
    }

    /** The document of a user and a date can only sit under that pair's id, and the id holds only that pair's log. */
    lemma DocumentOfDate(userId: string, date: Date)
      requires Valid()
      ensures forall id :: id in docs && docs[id].userId == userId && docs[id].date == date ==> id == LogId(userId, date)
      ensures LogId(userId, date) in docs ==>
        docs[LogId(userId, date)].userId == userId && docs[LogId(userId, date)].date == date
    {
      var id := LogId(userId, date);
      if id in docs {
        LogIdInjective(userId, date, docs[id].userId, docs[id].date);
      }
    }

    /** After `k` dates of the walk down from `endDate`: exactly the user's logs of those dates, newest first. */
    ghost predicate Scanned(logs: seq<HabitLog>, userId: string, endDate: Date, k: int)
      reads this
    {
      && (forall i :: 0 <= i < |logs| ==>
            logs[i].userId == userId && endDate - k < logs[i].date <= endDate && logs[i] in docs.Values)
      && (forall i, j :: 0 <= i < j < |logs| ==> logs[i].date > logs[j].date)
      && (forall id :: id in docs && docs[id].userId == userId && endDate - k < docs[id].date <= endDate ==> docs[id] in logs)
    }

    /** One more date of the walk: its document, when it exists, is the next log. */
    lemma ScanStep(logs: seq<HabitLog>, userId: string, endDate: Date, k: int)
      requires Valid() && 0 <= k && Scanned(logs, userId, endDate, k)
      ensures var id := LogId(userId, endDate - k);
        Scanned(if id in docs then logs + [docs[id]] else logs, userId, endDate, k + 1)
    {
      var date := endDate - k;
      var id := LogId(userId, date);
      DocumentOfDate(userId, date);
      if id in docs {
        var next := logs + [docs[id]];
        assert next[|logs|] == docs[id];
        forall i | 0 <= i < |next|
          ensures next[i].userId == userId && endDate - (k + 1) < next[i].date <= endDate && next[i] in docs.Values
        {
          if i < |logs| {
            assert next[i] == logs[i];
          } else {
            assert docs[id] in docs.Values;
          }
        }
      }
    }

    /** Once the walk has covered the range, the logs found are the query's answer. */
    lemma ScanComplete(logs: seq<HabitLog>, userId: string, startDate: Date, endDate: Date)
      requires Scanned(logs, userId, endDate, if endDate < startDate then 0 else endDate - startDate + 1)
      ensures forall i :: 0 <= i < |logs| ==>
        logs[i].userId == userId && startDate <= logs[i].date <= endDate && logs[i] in docs.Values
      ensures forall i, j :: 0 <= i < j < |logs| ==> logs[i].date > logs[j].date
      ensures forall id :: id in docs && docs[id].userId == userId && startDate <= docs[id].date <= endDate ==> docs[id] in logs
    {
    }

    /**
     * `getHabitLogs(userId, startDate, endDate)`: the query, as a walk over the
     * dates of the range, newest first, picking the documents that exist.
     */
    method GetHabitLogs(userId: string, startDate: Date, endDate: Date) returns (logs: seq<HabitLog>)
      requires Valid()
      ensures forall i :: 0 <= i < |logs| ==>
        logs[i].userId == userId && startDate <= logs[i].date <= endDate && logs[i] in docs.Values
      ensures forall i, j :: 0 <= i < j < |logs| ==> logs[i].date > logs[j].date
      ensures forall id :: id in docs && docs[id].userId == userId && startDate <= docs[id].date <= endDate ==> docs[id] in logs
    {
      logs := [];
      var n := if endDate < startDate then 0 else endDate - startDate + 1;
      for k := 0 to n
        invariant Scanned(logs, userId, endDate, k)
      {
        var date := endDate - k;
        var id := LogId(userId, date);
        ScanStep(logs, userId, endDate, k);
        if id in docs {
          logs := logs + [docs[id]];
        }
      }
      ScanComplete(logs, userId, startDate, endDate);
    }
  }
}
