/**
 * The habit configuration and the shape of a day's log
 * (src/config/habits.ts, src/types/habit.ts).
 */
module Habits {
  import opened Common
  import opened Dates

  /** A Firestore timestamp, in milliseconds. */
  type Timestamp = int

  /** The `HabitId` union: the seven tracked habits. */
  datatype HabitId = WakeUpOnTime | MorningSunlight | Water | Journal | Reading | Workout | Meditate

  /** The string a habit id is written as in documents, update paths and event ids. */
  function HabitKey(h: HabitId): string {
    match h
    case WakeUpOnTime => "wakeUpOnTime"
    case MorningSunlight => "morningSunlight"
    case Water => "water"
    case Journal => "journal"
    case Reading => "reading"
    case Workout => "workout"
    case Meditate => "meditate"
  }

  datatype HabitType = Binary | Progressive | BinaryWithNote

  /** A row of `HABIT_DEFINITIONS`; colours and icons are presentation and are not modelled. */
  datatype HabitDefinition = HabitDefinition(id: HabitId, labelText: string, kind: HabitType, description: string)

  const HABIT_DEFINITIONS: seq<HabitDefinition> := [
    HabitDefinition(WakeUpOnTime, "Wake Up On Time", Binary, "Honor system"),
    HabitDefinition(MorningSunlight, "Morning Sunlight", Binary, "Honor system"),
    HabitDefinition(Water, "Water", Progressive, "Drink your target"),
    HabitDefinition(Journal, "Journal", Binary, "Write in your journal"),
    HabitDefinition(Reading, "Read", Progressive, "10+ pages"),
    HabitDefinition(Workout, "Workout", BinaryWithNote, "30+ min, honor system"),
    HabitDefinition(Meditate, "Meditate", Binary, "Honor system")
  ]

  const HABIT_ORDER: seq<HabitId> :=
    [WakeUpOnTime, MorningSunlight, Water, Journal, Reading, Workout, Meditate]

  const WATER_INCREMENT_OZ: int := 8
  const READING_TARGET_PAGES: int := 10
  const CHALLENGE_TOTAL_DAYS: int := 75

  /** `Array.prototype.find` over a definition table. */
  function FindDefinition(defs: seq<HabitDefinition>, id: HabitId): (r: Option<HabitDefinition>)
    ensures r.Some? ==> r.value in defs && r.value.id == id
    ensures r.None? ==> forall k :: 0 <= k < |defs| ==> defs[k].id != id
    ensures r.Some? ==> exists k :: 0 <= k < |defs| && defs[k] == r.value
                                    && forall j :: 0 <= j < k ==> defs[j].id != id
  {
    if defs == [] then None
    else if defs[0].id == id then Some(defs[0])
    else
      var r := FindDefinition(defs[1..], id);
      assert r.Some? ==> exists k :: 0 <= k < |defs[1..]| && defs[1..][k] == r.value
                                      && forall j :: 0 <= j < k ==> defs[1..][j].id != id;
      if r.Some? then
        var k :| 0 <= k < |defs[1..]| && defs[1..][k] == r.value
                 && forall j :: 0 <= j < k ==> defs[1..][j].id != id;
        assert defs[k + 1] == r.value;
        r
      else r
  }

  lemma EveryHabitIdListed(id: HabitId)
    ensures id in {WakeUpOnTime, MorningSunlight, Water, Journal, Reading, Workout, Meditate}
  {
  }

  /** The position of a habit in `HABIT_ORDER` (and in `HABIT_DEFINITIONS`). */
  function OrderIndex(h: HabitId): (i: nat)
    ensures i < |HABIT_ORDER| && HABIT_ORDER[i] == h
    ensures i < |HABIT_DEFINITIONS| && HABIT_DEFINITIONS[i].id == h
  {
    match h
    case WakeUpOnTime => 0
    case MorningSunlight => 1
    case Water => 2
    case Journal => 3
    case Reading => 4
    case Workout => 5
    case Meditate => 6
  }

  /** `HABIT_DEFINITIONS.find((h) => h.id === id)!`: never undefined, because every id has a row. */
  function GetHabitDefinition(id: HabitId): (d: HabitDefinition)
    ensures d in HABIT_DEFINITIONS && d.id == id
  {
    var r := FindDefinition(HABIT_DEFINITIONS, id);
    assert HABIT_DEFINITIONS[OrderIndex(id)].id == id;
    r.value
  }

  lemma HabitOrderIsTheHabitIdUnion()
    ensures |HABIT_ORDER| == 7
    ensures forall i, j :: 0 <= i < j < |HABIT_ORDER| ==> HABIT_ORDER[i] != HABIT_ORDER[j]
    ensures forall h: HabitId :: h in HABIT_ORDER
  {
    forall h: HabitId ensures h in HABIT_ORDER {
      assert HABIT_ORDER[OrderIndex(h)] == h;
    }
  }

  /** The habit at a position of HABIT_ORDER has that position as its index. */
  lemma OrderIndexOfPosition(i: int)
    requires 0 <= i < |HABIT_ORDER|
    ensures OrderIndex(HABIT_ORDER[i]) == i
  {
    HabitOrderIsTheHabitIdUnion();
  }

  lemma OneDefinitionPerHabit(id: HabitId)
    ensures forall i, j :: 0 <= i < j < |HABIT_DEFINITIONS| ==> HABIT_DEFINITIONS[i].id != HABIT_DEFINITIONS[j].id
    ensures exists k :: 0 <= k < |HABIT_DEFINITIONS| && HABIT_DEFINITIONS[k].id == id
  {
    assert HABIT_DEFINITIONS[OrderIndex(id)].id == id;
  }

  /** The definition of a habit sits at its `HABIT_ORDER` position in `HABIT_DEFINITIONS`. */
  lemma DefinitionAtOrderIndex(id: HabitId)
    ensures GetHabitDefinition(id) == HABIT_DEFINITIONS[OrderIndex(id)]
  {
    OneDefinitionPerHabit(id);
  }

  lemma HabitKinds(id: HabitId)
    ensures GetHabitDefinition(id).kind ==
      if id == Water || id == Reading then Progressive
      else if id == Workout then BinaryWithNote
      else Binary
  {
    var d := GetHabitDefinition(id);
    OneDefinitionPerHabit(id);
    assert d == HABIT_DEFINITIONS[OrderIndex(id)];
  }

  lemma ChallengeIsThreeChunks()
    ensures CHALLENGE_TOTAL_DAYS == 3 * CHUNK_SIZE_DAYS
  {
  }

  /**
   * One habit's entry in a day's log. `completedAt` is `null` as `None`; the
   * progressive and note fields exist only for the habits that use them, and
   * `text` is the field the journal save writes.
   */
  datatype HabitData = HabitData(
    completed: bool,
    completedAt: Option<Timestamp>,
    currentOz: Option<int>,
    pagesRead: Option<int>,
    note: Option<string>,
    text: Option<string>)

  type DayHabits = map<HabitId, HabitData>

  /** One document of the `habitLogs` collection: one user, one date. */
  datatype HabitLog = HabitLog(userId: string, date: Date, updatedAt: Timestamp, habits: DayHabits)

  function BinaryEntry(): HabitData {
    HabitData(false, None, None, None, None, None)
  }

  /** The record a new day starts from. */
  function CreateEmptyDayHabits(): (h: DayHabits)
    ensures HasAllHabits(h)
    ensures forall id :: id in h ==> !h[id].completed && h[id].completedAt == None
    ensures h[Water].currentOz == Some(0) && h[Reading].pagesRead == Some(0) && h[Workout].note == Some("")
    ensures forall id :: id in h && id != Water ==> h[id].currentOz == None
    ensures forall id :: id in h && id != Reading ==> h[id].pagesRead == None
    ensures forall id :: id in h && id != Workout ==> h[id].note == None
    ensures forall id :: id in h ==> h[id].text == None
  {
    var h := map[
      WakeUpOnTime := BinaryEntry(),
      MorningSunlight := BinaryEntry(),
      Water := BinaryEntry().(currentOz := Some(0)),
      Journal := BinaryEntry(),
      Reading := BinaryEntry().(pagesRead := Some(0)),
      Workout := BinaryEntry().(note := Some("")),
      Meditate := BinaryEntry()
    ];
    assert HasAllHabits(h) by {
      forall id: HabitId ensures id in h {
        EveryHabitIdListed(id);
      }
    }
    h
  }

  /** Every configured habit has an entry. */
  predicate HasAllHabits(habits: DayHabits) {
    forall id: HabitId :: id in habits
  }

  /** `habits?.[id]?.completed`: an absent entry reads as not completed. */
  predicate IsCompleted(habits: DayHabits, id: HabitId) {
    id in habits && habits[id].completed
  }

  /** The habits whose entry is present and completed: what `Object.values(habits).filter((h) => h.completed)` selects. */
  function CompletedSet(habits: DayHabits): set<HabitId> {
    set id | id in habits.Keys && habits[id].completed
  }

  /** `Object.values(habits).filter((h) => h?.completed).length`. */
  function CompletedValueCount(habits: DayHabits): nat {
    |CompletedSet(habits)|
  }

  /** How many of `ids` are completed in `habits`, counted in list order. */
  function CountCompletedIn(ids: seq<HabitId>, habits: DayHabits): (n: nat)
    ensures n <= |ids|
  {
    if ids == [] then 0
    else (if IsCompleted(habits, ids[0]) then 1 else 0) + CountCompletedIn(ids[1..], habits)
  }

  /** Counting along a list without repeats gives the size of the completed set restricted to it. */
  lemma {:induction false} CountCompletedInIsSetSize(ids: seq<HabitId>, habits: DayHabits)
    requires forall i, j :: 0 <= i < j < |ids| ==> ids[i] != ids[j]
    ensures CountCompletedIn(ids, habits) == |set id | id in ids && IsCompleted(habits, id)|
  {
    if ids == [] {
      assert (set id | id in ids && IsCompleted(habits, id)) == {};
    } else {
      var rest := set id | id in ids[1..] && IsCompleted(habits, id);
      CountCompletedInIsSetSize(ids[1..], habits);
      assert ids[0] !in ids[1..];
      if IsCompleted(habits, ids[0]) {
        assert (set id | id in ids && IsCompleted(habits, id)) == rest + {ids[0]};
      } else {
        assert (set id | id in ids && IsCompleted(habits, id)) == rest;
      }
    }
  }

  /** Counting along `HABIT_ORDER` counts exactly the completed entries of the record. */
  lemma OrderCountIsValueCount(habits: DayHabits)
    ensures CountCompletedIn(HABIT_ORDER, habits) == CompletedValueCount(habits)
    ensures CompletedValueCount(habits) <= 7
  {
    HabitOrderIsTheHabitIdUnion();
    CountCompletedInIsSetSize(HABIT_ORDER, habits);
    assert (set id | id in HABIT_ORDER && IsCompleted(habits, id)) == CompletedSet(habits);
  }

  /** Every habit of `HABIT_ORDER` is completed: `HABIT_ORDER.every((id) => habits?.[id]?.completed)`. */
  predicate AllHabitsCompleted(habits: DayHabits) {
    forall i :: 0 <= i < |HABIT_ORDER| ==> IsCompleted(habits, HABIT_ORDER[i])
  }

  lemma {:induction false} AllCompletedIffCountIsSeven(habits: DayHabits)
    ensures AllHabitsCompleted(habits) <==> CountCompletedIn(HABIT_ORDER, habits) == 7
  {
    CountAllIn(HABIT_ORDER, habits);
  }

  lemma {:induction false} CountAllIn(ids: seq<HabitId>, habits: DayHabits)
    ensures (forall i :: 0 <= i < |ids| ==> IsCompleted(habits, ids[i])) <==> CountCompletedIn(ids, habits) == |ids|
  {
    if ids != [] {
      CountAllIn(ids[1..], habits);
      assert forall i :: 1 <= i < |ids| ==> ids[i] == ids[1..][i - 1];
    }
  }
}
