# Habit tracker core in Dafny

This project models the bookkeeping and statistics core of a two-person
75-day habit challenge app. Each partner logs seven daily habits:

- wake up on time, morning sunlight, water, journal, reading, workout and meditate.

The app computes the following:

- streaks, completion rates and per-day counts;
- a shared 25-day "chunk" grid, a heatmap and an activity feed;
- the push messages that its cloud functions send: partner completions, reactions, chat messages and the evening nudge;
- local reminder times, the chat tags and the timed-habit card.

Dates are integer day ordinals. "Today" and "now" are parameters.
Rates are `Ratio(num, den)` pairs. Untyped Firestore documents are records of
`Option`s, and JavaScript truthiness is `Notify.Truthy`. The order that
`Object.keys` / `Object.entries` give is a `keys: seq<string>` parameter.

Modules follow the source files:

| module (file) | source |
|---|---|
| `Common` (common.dfy) | shared helpers: counting, indexing by key, decimal text |
| `Dates` (dates.dfy) | src/utils/dates.ts |
| `Habits` (habits.dfy) | src/config/habits.ts |
| `Validation` (validation.dfy) | src/utils/validation.ts |
| `Streaks` (streaks.dfy) | src/utils/streaks.ts |
| `Sorting` (sorting.dfy) | the stable in-place `Array.prototype.sort` used by the stats and the feed |
| `SharedStats` (shared_stats.dfy) | src/hooks/useSharedStats.ts |
| `OverallStats` (overall_stats.dfy) | src/hooks/useStats.ts |
| `Firestore` (firestore.dfy) | src/services/firestore.ts |
| `HabitActions` (habit_actions.dfy) | src/hooks/useHabits.ts |
| `ProgressiveCard` (progressive_card.dfy) | src/components/habits/ProgressiveHabitCard.tsx |
| `ChunkGrid` (chunk_grid.dfy) | src/components/stats/ChunkGrid.tsx |
| `Heatmap` (heatmap.dfy) | src/components/stats/HeatmapGrid.tsx |
| `Feed` (feed.dfy) | src/hooks/useFeed.ts |
| `Notify` (notify.dfy) | shared document shapes and string helpers of functions/src |
| `HabitCompleteNotify` (habit_complete_notify.dfy) | functions/src/onHabitComplete.ts |
| `ReactionNotify` (reaction_notify.dfy) | functions/src/onReaction.ts |
| `ChatReactionNotify` (chat_reaction_notify.dfy) | functions/src/onChatReaction.ts |
| `ChatMessageNotify` (chat_message_notify.dfy) | functions/src/onChatMessage.ts |
| `EveningNudge` (evening_nudge.dfy) | functions/src/eveningNudge.ts |
| `Chat` (chat.dfy) | src/services/chat.ts and src/components/chat/ChatBubble.tsx |
| `Reminders` (reminders.dfy) | src/services/notifications.ts |
| `TimedCard` (timed_card.dfy) | src/components/habits/TimedHabitCard.tsx |

Loops in the source are Dafny methods with loop invariants. Each method is
proved equal to a recursive specification function, and the properties are
proved about that function. This applies to:

- the streak pass, the chunk-grid loop, the heatmap cells and the feed builders;
- the update-object loop and the per-key notification loops;
- the evening-nudge loop.

Reminder times have no loop: `Reminders.OffsetTime` is closed-form, with
the wrap past midnight stated modulo a day. Text lengths are JavaScript's:
`Common.Utf16Length` counts UTF-16 code units, so a character outside the
Basic Multilingual Plane counts twice.

Objects whose state changes in place are classes:

- `Firestore.LogStore`, the log documents keyed by log id;
- `Reminders.Scheduler`, the pending local notifications keyed by identifier;
- `TimedCard.TimedHabitCard`, the timer refs and state.

## Model

| member | source | states |
|---|---|---|
| Common.CountTrue | src/utils/streaks.ts:36 | the count of true flags is at most the length, equals it iff every flag is true, and is 0 iff none is |
| Common.CountTrueIsIndexCount | src/utils/streaks.ts:36 | the filter count equals the size of the set of indices whose flag is true |
| Common.IndexByHoldsKeys | src/hooks/useSharedStats.ts:93-94 | a map built from a list by key holds exactly the keys of the list's elements, each mapped to an element with that key |
| Common.IndexByKeepsLast | src/components/stats/HeatmapGrid.tsx:29 | when later elements have other keys, the map holds the element itself (later entries win, as in `new Map(...)`) |
| Common.NatText | src/components/habits/TimedHabitCard.tsx:27 | the decimal text of a number is non-empty, all digits, without a leading zero |
| Common.NatTextRoundTrip | src/components/habits/TimedHabitCard.tsx:27 | reading the decimal text back gives the number |
| Common.CodeUnits | src/utils/validation.ts:3 | a character takes two UTF-16 code units exactly when it lies outside the Basic Multilingual Plane, otherwise one |
| Common.Utf16Length | src/utils/validation.ts:3 | JavaScript's `length`: at least the number of characters, at most twice it, and positive for a non-empty text |
| Common.Utf16LengthOfConcat | functions/src/onChatMessage.ts:45 | the length of a concatenation is the sum of the lengths |
| Common.PlaneLength | src/utils/validation.ts:3 | inside the Basic Multilingual Plane the length is the number of characters |
| Common.CutUnits | functions/src/onChatMessage.ts:45 | `slice(0, n)` on whole characters: a prefix of at most n code units, the whole text when it fits, and otherwise the next character would not fit |
| Common.PlaneCut | functions/src/onChatMessage.ts:45 | inside the Basic Multilingual Plane the cut is the first n characters |
| Dates.GetDayNumber | src/utils/dates.ts:7-11 | definition: `differenceInDays(today, start) + 1` on day ordinals; its properties are StartIsDayOne and EachDayAddsOne |
| Dates.StartIsDayOne | src/utils/dates.ts:7-11 | the challenge start date is day 1 |
| Dates.EachDayAddsOne | src/utils/dates.ts:7-11 | each later day adds one to the day number |
| Dates.GetChunkNumber | src/utils/dates.ts:13-15 | the chunk c of day d is ceil(d/25): (c-1)*25 < d <= c*25 |
| Dates.ChunkOfPositiveDay | src/utils/dates.ts:13-15 | days from 1 on lie in chunk 1 or later |
| Dates.ChunkNumberMonotone | src/utils/dates.ts:14 | the chunk number never decreases as the day number grows |
| Dates.ChunksOfTheChallenge | src/utils/dates.ts:14 | days 1..25 are chunk 1, 26..50 chunk 2, 51..75 chunk 3 |
| Dates.GetHabitLogId | src/utils/dates.ts:21-23 | definition: `${userId}_${date}`; its properties are HabitLogIdRoundTrip and HabitLogIdInjective |
| Dates.ParseHabitLogId | src/utils/dates.ts:21-23 | splitting a log id yields a ten-character date part |
| Dates.HabitLogIdRoundTrip | src/utils/dates.ts:21-23 | with a YYYY-MM-DD date, the user id and the date are recovered from `userId_date` |
| Dates.HabitLogIdInjective | src/utils/dates.ts:21-23 | two log ids with ten-character dates are equal only for the same user and date |
| Habits.FindDefinition | src/config/habits.ts:78-80 | the lookup finds an entry of the table with the requested id, or reports that no entry has it |
| Habits.OrderIndex | src/config/habits.ts:4-71 | every habit has a position at which both HABIT_ORDER and HABIT_DEFINITIONS list it |
| Habits.GetHabitDefinition | src/config/habits.ts:78-80 | the lookup is total and returns the table's definition with that id |
| Habits.EveryHabitIdListed | src/config/habits.ts:63-71 | the habit id type has exactly the seven configured ids |
| Habits.HabitOrderIsTheHabitIdUnion | src/config/habits.ts:63-71 | HABIT_ORDER has seven distinct ids and lists every habit |
| Habits.OrderIndexOfPosition | src/config/habits.ts:63-71 | the habit at position i of HABIT_ORDER has index i, as the ids are distinct |
| Habits.OneDefinitionPerHabit | src/config/habits.ts:4-61 | every habit has exactly one definition |
| Habits.DefinitionAtOrderIndex | src/config/habits.ts:4-80 | the definition found by id sits at the habit's HABIT_ORDER position |
| Habits.HabitKinds | src/config/habits.ts:4-61 | water and reading are progressive, workout is binary with a note, the rest are binary |
| Habits.ChallengeIsThreeChunks | src/config/habits.ts:75-76 | the 75-day challenge is exactly three chunks of 25 days |
| Habits.CreateEmptyDayHabits | src/config/habits.ts:82-92 | the template holds all seven habits, none completed or stamped, with water 0 oz, reading 0 pages, an empty workout note and no other progress fields |
| Habits.CountCompletedIn | src/utils/streaks.ts:40-42 | the filtered count never exceeds the number of ids filtered |
| Habits.CountCompletedInIsSetSize | src/utils/streaks.ts:40-42 | over distinct ids, the filter count is the number of those ids whose entry is completed |
| Habits.OrderCountIsValueCount | src/utils/streaks.ts:41 | counting over HABIT_ORDER equals counting the completed entries of the record, at most 7 |
| Habits.AllCompletedIffCountIsSeven | src/hooks/useSharedStats.ts:101-106 | every habit is completed iff the HABIT_ORDER count is 7 |
| Habits.CountAllIn | src/hooks/useSharedStats.ts:101-106 | every listed id is completed iff the count equals the list length |
| Validation.Trim | src/utils/validation.ts:2 | definition: `trim()` as TrimEnd of TrimStart; its properties are TrimmedEnds and TrimIdempotent |
| Validation.TrimStart | src/utils/validation.ts:2 | removes exactly the leading whitespace: what is dropped is whitespace and the result does not start with it |
| Validation.TrimEnd | src/utils/validation.ts:2 | removes exactly the trailing whitespace |
| Validation.TrimmedEnds | src/utils/validation.ts:2 | a trimmed text is empty or neither starts nor ends with whitespace |
| Validation.TrimIdempotent | src/utils/validation.ts:2 | trimming twice is trimming once |
| Validation.IsValidJournalEntry | src/utils/validation.ts:1-5 | definition: the trimmed text has at least 10 UTF-16 code units and ends in `.`, `!` or `?`; its properties are JournalIgnoresSurroundingWhitespace and ShortJournalIsInvalid |
| Validation.JournalIgnoresSurroundingWhitespace | src/utils/validation.ts:1-5 | a journal entry is valid iff its trimmed text is valid |
| Validation.ShortJournalIsInvalid | src/utils/validation.ts:2-3 | a trimmed text shorter than 10 UTF-16 code units is never a valid entry |
| Validation.TwoDigits | src/components/habits/TimedHabitCard.tsx:28-29 | a number below 100 is written as two digits whose value is the number |
| Validation.IsValidTime | src/utils/validation.ts:11-13 | definition: `/^([01]\d|2[0-3]):[0-5]\d$/` character by character; its properties are ParseTime, TimeTextRoundTrip and RejectedTimes |
| Validation.ParseTime | src/utils/validation.ts:11-13 | an accepted HH:MM time has hour 0..23 and minute 0..59 and is exactly the text of that pair |
| Validation.TimeTextRoundTrip | src/utils/validation.ts:11-13 | every hour 0..23 and minute 0..59 is written as an accepted HH:MM time that parses back to the pair |
| Validation.RejectedTimes | src/utils/validation.ts:12 | "24:00", "7:00" and "12:60" are rejected; "00:00" and "23:59" are accepted |
| Validation.IndexOf | src/utils/validation.ts:8 | finds the first occurrence of a character, or the length if none |
| Validation.IsValidEmail | src/utils/validation.ts:7-9 | definition: the structural form of `/^[^\s@]+@[^\s@]+\.[^\s@]+$/`; its property is EmailCheckMatchesPattern |
| Validation.EmailCheckMatchesPattern | src/utils/validation.ts:7-9 | the email check holds iff the text has no whitespace, exactly one '@' after a non-empty local part, and a '.' with at least one character between it and the '@' and at least one after it |
| Streaks.CompletionFlags | src/utils/streaks.ts:15-16 | one flag per log, in order, reading that log's entry for the habit |
| Streaks.LeadingRunIsMaximalPrefix | src/utils/streaks.ts:14-24 | the current streak is a completed prefix that ends at a miss or at the end of the list |
| Streaks.LeadingRunUnique | src/utils/streaks.ts:14-24 | any completed prefix ending at a miss or at the end is the current streak |
| Streaks.TrailingRunIsMaximalSuffix | src/utils/streaks.ts:26 | the run still open after the loop is a completed suffix preceded by a miss or the start |
| Streaks.RunAtEndWithinTrailingRun | src/utils/streaks.ts:26 | every completed suffix fits in that final run |
| Streaks.LongestRunIsLongest | src/utils/streaks.ts:14-26 | the longest streak bounds every run of consecutive completed logs and is attained by one |
| Streaks.CurrentAtMostLongest | src/utils/streaks.ts:17-26 | current <= longest |
| Streaks.LongestAtMostLength | src/utils/streaks.ts:26 | longest <= number of logs |
| Streaks.AllCompletedGivesFullStreaks | src/utils/streaks.ts:14-26 | an all-completed list of N logs gives current = longest = N |
| Streaks.MissedHeadBreaksCurrent | src/utils/streaks.ts:12-20 | a miss in the most recent log gives current = 0 |
| Streaks.CalculateStreak | src/utils/streaks.ts:4-29 | the loop returns the completed-prefix length and the longest run, with current <= longest <= number of logs (both 0 for no logs) |
| Streaks.DatesAreNeverInspected | src/utils/streaks.ts:14-24 | logs with the same habit entries give the same streak flags whatever their dates, so calendar gaps never break a streak |
| Streaks.CalculateCompletionRate | src/utils/streaks.ts:31-38 | 0 for no logs, else completed logs over all logs, never above 1 |
| Streaks.CalculateDayCompletionCount | src/utils/streaks.ts:40-42 | the number of completed habits of the day, 0..7 |
| Sorting.KeyClassOfConcat | src/hooks/useSharedStats.ts:133-137 | the elements with one key of a concatenation are those of each part, in order |
| Sorting.KeyClassIsSubset | src/hooks/useSharedStats.ts:133-137 | the elements with a key are elements of the list with that key |
| Sorting.KeyClassKeepsRankOrder | src/hooks/useSharedStats.ts:133-137 | a list ordered by a rank keeps that order within each key |
| Sorting.Swapped | src/hooks/useSharedStats.ts:133-137 | swapping neighbours exchanges the two and leaves every other position alone |
| Sorting.SwapKeepsKeyClasses | src/hooks/useSharedStats.ts:133-137 | swapping neighbours with different keys is a permutation that keeps each key's elements in order |
| Sorting.InsertionStarts | src/hooks/useSharedStats.ts:133-137 | inserting the next element starts from a sorted prefix |
| Sorting.InsertionSteps | src/hooks/useSharedStats.ts:133-137 | moving the inserted element past a smaller key keeps the insertion invariant |
| Sorting.InsertionEnds | src/hooks/useSharedStats.ts:133-137 | once the inserted element meets an equal or larger key, the prefix is sorted |
| Sorting.SwapStep | src/hooks/useSharedStats.ts:133-137 | a swap past a smaller key keeps the insertion invariant, the multiset and every key class |
| Sorting.InsertNext | src/hooks/useSharedStats.ts:133-137 | one insertion pass extends the sorted prefix by one element and stays a stable rearrangement of the input |
| Sorting.LastIsInOther | src/hooks/useSharedStats.ts:133-137 | the last element of a list occurs in any list with the same key classes |
| Sorting.LastKeysAgree | src/hooks/useSharedStats.ts:133-137 | two descending lists with the same key classes end in elements of the same key |
| Sorting.DropLastKeepsClasses | src/hooks/useSharedStats.ts:133-137 | lists with the same key classes whose last elements share a key end in the same element, and their prefixes keep the same key classes |
| Sorting.SortedPrefix | src/hooks/useSharedStats.ts:133-137 | a prefix of a descending list is descending |
| Sorting.SortedKeyClassesDetermine | src/hooks/useSharedStats.ts:133-137 | two descending lists with the same key classes are equal, so a stable descending sort has exactly one result |
| Sorting.SortDescendingBy | src/hooks/useSharedStats.ts:133-137 | the in-place sort leaves the array descending by key, a permutation of the input, stable: each key's elements stay in their old order |
| SharedStats.DayStatsOf | src/hooks/useSharedStats.ts:24-30 | a log's stats carry its date, total 7 and its completed count |
| SharedStats.BuildDailyStats | src/hooks/useSharedStats.ts:24-30 | one stats entry per log, in order, each the stats of that log |
| SharedStats.DailyCountIsDayCompletionCount | src/hooks/useSharedStats.ts:28 | each completed count is calculateDayCompletionCount of that log |
| SharedStats.StreakOf | src/hooks/useSharedStats.ts:32-38 | the habit's entry carries its current streak, longest streak and completion rate |
| SharedStats.BuildHabitStreaks | src/hooks/useSharedStats.ts:32-38 | seven entries in HABIT_ORDER order, each with current <= longest <= number of logs |
| SharedStats.HabitStreaksCoverEachHabitOnce | src/hooks/useSharedStats.ts:32-38 | each habit has exactly one entry in the streak table |
| SharedStats.FindLogByDate | src/hooks/useSharedStats.ts:41 | finds the first log with the date, or reports that none has it |
| SharedStats.GetTodayCompletedCount | src/hooks/useSharedStats.ts:40-44 | 0 when no log has today's date, else the completed count of the first such log, at most 7 |
| SharedStats.SharedDayNumber | src/hooks/useSharedStats.ts:73 | the day number is at least 1 and equals getDayNumber from the start on |
| SharedStats.ChunkStartOffset | src/hooks/useSharedStats.ts:74-91 | the offset into the chunk lies in 0..24, and subtracting it lands on the chunk's first day |
| SharedStats.LogMap | src/hooks/useSharedStats.ts:93-94 | definition: `new Map(logs.map(l => [l.date, l]))` as Common.IndexBy; its properties are Common.IndexByHoldsKeys, Common.IndexByKeepsLast and MissingLogIsIncomplete |
| SharedStats.MissingLogIsIncomplete | src/hooks/useSharedStats.ts:99-106 | a date with no log is never complete |
| SharedStats.DayCompleteIffSevenDone | src/hooks/useSharedStats.ts:101-106 | a logged date is complete iff all seven habits in HABIT_ORDER are completed |
| SharedStats.BuildChunkGrid | src/hooks/useSharedStats.ts:91-113 | exactly 25 results on consecutive dates from the chunk start, today at index offset, each with my/partner completion from the logs and both = my && partner |
| SharedStats.NoPartnerMeansNothingShared | src/hooks/useSharedStats.ts:66-111 | with no partner logs: no daily stats, today's count 0, no complete day, every streak 0 |
| SharedStats.FindStreak | src/hooks/useSharedStats.ts:117-118 | finds the first table entry for the habit, or reports none |
| SharedStats.FindInStreakTable | src/hooks/useSharedStats.ts:117-118 | in a built table the lookup finds that habit's streak |
| SharedStats.ComparisonOf | src/hooks/useSharedStats.ts:116-130 | a comparison carries the habit and both partners' current and longest streaks |
| SharedStats.BuildHabitComparisons | src/hooks/useSharedStats.ts:116-130 | seven comparisons in HABIT_ORDER, each from the two streak tables |
| SharedStats.SortedHabitComparisons | src/hooks/useSharedStats.ts:133-137 | the sorted comparisons are a permutation, descending by combined current streak, with equal keys in their old order |
| SharedStats.TiesStayInHabitOrder | src/hooks/useSharedStats.ts:133-137 | comparisons with equal combined streaks stay in HABIT_ORDER order |
| OverallStats.StatsDayNumber | src/hooks/useStats.ts:28 | the personal day number is days since start + 1 |
| OverallStats.DayNumberIsNotClamped | src/hooks/useStats.ts:28 | before the start the personal day number is below 1, while the shared one is clamped to 1 |
| OverallStats.SumCompleted | src/hooks/useStats.ts:47 | definition: the `reduce` sum of the completed counts; its properties are SumCompletedAtMostSumTotal and AllSevenSum |
| OverallStats.SumCompletedAtMostSumTotal | src/hooks/useStats.ts:47-48 | total completed <= total possible when each day's count is within its total |
| OverallStats.SumTotalOfSevens | src/hooks/useStats.ts:30-48 | with totals of 7, total possible is 7 times the number of days |
| OverallStats.OverallCompletionRate | src/hooks/useStats.ts:47-53 | 0 with no logs, else total completed over 7 x number of logs, never above 1 |
| OverallStats.AllDoneGivesFullRate | src/hooks/useStats.ts:47-53 | when every habit of every log is done, the rate is 1 |
| OverallStats.AllSevenSum | src/hooks/useStats.ts:47 | when every habit of every log is done, total completed is 7 x days |
| Firestore.ApplyPatch | src/services/firestore.ts:42-44 | each field present in the update replaces the stored field, each absent field keeps its stored value |
| Firestore.PatchOfItsValues | src/services/firestore.ts:42-44 | an update is determined by its field values |
| Firestore.PatchOfSameValues | src/services/firestore.ts:42-44 | updates with the same field values are equal |
| Firestore.EveryFieldListed | src/services/firestore.ts:42 | every habit field is in the field order the update loop walks |
| Firestore.EntriesFrom | src/services/firestore.ts:42-44 | entries name listed fields and carry their values |
| Firestore.EntriesFromAreComplete | src/services/firestore.ts:42-44 | every present listed field gets an entry |
| Firestore.EntriesFromAreDistinct | src/services/firestore.ts:42-44 | entries of distinct fields are distinct |
| Firestore.PatchEntries | src/services/firestore.ts:42-44 | Object.entries of the update gives exactly its present fields, once each, with their values |
| Firestore.HabitKeyRoundTrip | src/services/firestore.ts:43 | a habit's key has no '.' and reads back as that habit |
| Firestore.FieldNameRoundTrip | src/services/firestore.ts:43 | a field name reads back as that field |
| Firestore.FirstDotAfterKey | src/services/firestore.ts:43 | the first '.' of `key.field` follows the key |
| Firestore.SplitAtFirstDot | src/services/firestore.ts:43 | `key.field` strings with dot-free keys are equal only for equal keys and fields |
| Firestore.PathKeyParts | src/services/firestore.ts:43 | a path is "habits." + habit key + "." + field name |
| Firestore.PathKeyInjective | src/services/firestore.ts:38-44 | distinct habit fields have distinct paths, none of them "updatedAt" |
| Firestore.AddEntry | src/services/firestore.ts:42-44 | writing one more entry into the update object keeps it holding all entries so far |
| Firestore.EntriesGiveUpdateObject | src/services/firestore.ts:38-44 | an object holding all entries is the update object: "updatedAt" plus one path per present field |
| Firestore.BuildUpdateObject | src/services/firestore.ts:38-44 | the loop builds the update object: "updatedAt" plus exactly one `habits.<id>.<field>` key per present field, with its value |
| Firestore.ReadPatchRoundTrip | src/services/firestore.ts:38-44 | reading the update object back gives the update for its habit and nothing for other habits |
| Firestore.ApplyUpdateObject | src/services/firestore.ts:42-46 | definition: `ref.update(updateObj)`, each dotted path overwriting one field and `updatedAt` the time; its properties are UpdateOfOneHabit and UpdateTouchesOnlyNamedFields |
| Firestore.UpdatedHabit | src/services/firestore.ts:42-46 | a habit is in the updated document iff it was stored or the update names one of its fields, and it is patched by those fields |
| Firestore.UpdateOfOneHabit | src/services/firestore.ts:42-46 | the named habit gets the update's fields and any other habit is unchanged |
| Firestore.UpdateTouchesOnlyNamedFields | src/services/firestore.ts:42-46 | applying the update object changes the named fields of the named habit and updatedAt, nothing else |
| Firestore.GetOrCreate | src/services/firestore.ts:11-29 | an existing document is returned with the store unchanged; otherwise the new one is stored and returned; other documents are kept |
| Firestore.GetOrCreateIdempotent | src/services/firestore.ts:11-29 | a second get-or-create leaves the store as the first left it and returns the same log |
| Firestore.LogStore.constructor | src/services/firestore.ts:6-9 | an empty store whose documents are keyed by log id |
| Firestore.LogStore.LogIdInjective | src/services/firestore.ts:6-9 | different user/date pairs have different document ids |
| Firestore.LogStore.GetOrCreateTodayLog | src/services/firestore.ts:11-29 | the store and result are those of get-or-create with the empty day template for that user and date |
| Firestore.LogStore.UpdateHabitData | src/services/firestore.ts:31-47 | a missing document fails and changes nothing; otherwise only that document changes, with updatedAt and the named habit's fields |
| Firestore.LogStore.DocumentOfDate | src/services/firestore.ts:6-9 | a user's document for a date can only be stored under its log id |
| Firestore.LogStore.ScanStep | src/services/firestore.ts:54-62 | one more date of the range adds that date's document of the user, if stored, keeping the logs newest first |
| Firestore.LogStore.GetHabitLogs | src/services/firestore.ts:49-63 | returns only that user's logs dated in range, newest first, and every such stored log |
| HabitActions.CurrentHabits | src/hooks/useHabits.ts:43 | the loaded log's habits, or the empty template with nothing completed |
| HabitActions.CompletedCount | src/hooks/useHabits.ts:110 | the number of completed habits, at most 7 |
| HabitActions.NoLogMeansNothingCompleted | src/hooks/useHabits.ts:110 | with no loaded log (habits then fall back to the template), completedCount is 0 |
| HabitActions.CompletionStamp | src/hooks/useHabits.ts:52-53 | a timestamp iff completed |
| HabitActions.WriteKeepsStampConsistent | src/hooks/useHabits.ts:45-108 | after any action's write, completedAt is set iff completed |
| HabitActions.ToggleBinaryHabit | src/hooks/useHabits.ts:45-57 | with a user, writes the negated flag and a matching stamp to that habit; without one, nothing |
| HabitActions.ToggleTwiceRestores | src/hooks/useHabits.ts:48-53 | two toggles restore the completed flag |
| HabitActions.UpdateWater | src/hooks/useHabits.ts:59-76 | with a user and a profile, writes max(0, oz) and completed iff that reaches the water target |
| HabitActions.UpdateReading | src/hooks/useHabits.ts:78-94 | with a user, writes max(0, pages) and completed iff that reaches 10 pages |
| HabitActions.SaveJournal | src/hooks/useHabits.ts:96-108 | with a user, stores the text unchanged, completed iff it is a valid journal entry (trimmed length in UTF-16 code units at least 10, ending in `.`, `!` or `?`) |
| HabitActions.WriteTouchesOnlyItsHabit | src/hooks/useHabits.ts:45-108 | a write leaves every other habit's entry unchanged |
| ProgressiveCard.Step | src/components/habits/ProgressiveHabitCard.tsx:31 | water steps by 8 oz, reading by 1 page |
| ProgressiveCard.Target | src/components/habits/ProgressiveHabitCard.tsx:30 | water targets the profile's ounces (80 without a profile), reading 10 pages |
| ProgressiveCard.CurrentValue | src/components/habits/ProgressiveHabitCard.tsx:26-28 | the current value is the stored ounces for water, pages otherwise |
| ProgressiveCard.HandleIncrement | src/components/habits/ProgressiveHabitCard.tsx:35-42 | proposes current + step |
| ProgressiveCard.HandleDecrement | src/components/habits/ProgressiveHabitCard.tsx:44-48 | does nothing iff current <= 0, else proposes current - step |
| ProgressiveCard.IncrementThenDecrement | src/components/habits/ProgressiveHabitCard.tsx:35-48 | from a value >= 0, an increment then a decrement proposes the original value |
| ProgressiveCard.WaterDecrementIsClamped | src/components/habits/ProgressiveHabitCard.tsx:47 | 5 oz minus one step proposes -3, which the water update stores as 0 |
| ProgressiveCard.CardProgress | src/components/habits/ProgressiveHabitCard.tsx:33 | 0 when the target is not positive, else current/target, within [0,1] when current is |
| ChunkGrid.Slice | src/components/stats/ChunkGrid.tsx:58-61 | `slice` clamps to the list and otherwise gives the exact sub-range |
| ChunkGrid.BuildRows | src/components/stats/ChunkGrid.tsx:58-61 | five rows, row r the slice 5r..5r+5; with 25 results each row has 5 cells and the rows concatenate to the results |
| ChunkGrid.DayLabelsAreOneToTwentyFive | src/components/stats/ChunkGrid.tsx:71 | the label of row r, column c is 5r + c + 1, in 1..25 with no repeats |
| ChunkGrid.FutureCellsFollowToday | src/components/stats/ChunkGrid.tsx:72-73 | a grid cell is future iff it lies after today's cell, and is today iff at today's offset |
| ChunkGrid.GetCellStyle | src/components/stats/ChunkGrid.tsx:19-46 | the state follows the priority future, both, mine, partner, missed; only today has a border, of width 2 |
| ChunkGrid.BothCompleteShowsBoth | src/components/stats/ChunkGrid.tsx:19-38 | a past cell shows both iff both partners completed it; "mine" means the partner did not |
| ChunkGrid.CanTap | src/components/stats/ChunkGrid.tsx:76 | a cell is tappable iff it is not future and a handler is given |
| Heatmap.GetIntensity | src/components/stats/HeatmapGrid.tsx:18-26 | 0 iff nothing to count or nothing done, else 1..4 by quarter of the ratio |
| Heatmap.IntensityIsMonotone | src/components/stats/HeatmapGrid.tsx:20-25 | more completed habits never lower the intensity |
| Heatmap.FullDayIsDarkest | src/components/stats/HeatmapGrid.tsx:25 | full completion gives intensity 4 |
| Heatmap.SevenHabitBuckets | src/components/stats/HeatmapGrid.tsx:22-25 | for seven habits: 1 -> 1, 2-3 -> 2, 4-5 -> 3, 6-7 -> 4 |
| Heatmap.TotalCols | src/components/stats/HeatmapGrid.tsx:34 | ceil(days / 7) columns |
| Heatmap.DateIntensity | src/components/stats/HeatmapGrid.tsx:43-46 | a date without stats is 0, else the intensity of its stats |
| Heatmap.BuildCells | src/components/stats/HeatmapGrid.tsx:34-49 | `days` cells, cell i dated today - (days-1-i) in column i/7 < the column count, row the weekday, intensity from the stats map; the last is today |
| Heatmap.MissingStatsAreBlank | src/components/stats/HeatmapGrid.tsx:43-46 | a date with no stats has intensity 0 |
| Feed.FlavorText | src/hooks/useFeed.ts:11-43 | definition: the per-habit sentence; its property is FlavorTextShape |
| Feed.FlavorTextShape | src/hooks/useFeed.ts:11-43 | starts with the user name; workout reads "crushed <note>" for a non-empty note, else "completed a workout" |
| Feed.LatestCompletedAt | src/hooks/useFeed.ts:76-79 | the reduce gives the maximum completedAt |
| Feed.LogEvents | src/hooks/useFeed.ts:45-98 | definition: the habit events in HABIT_ORDER, then the all-complete event when all seven emit; its properties are LogEventsInOrder, AllCompleteIffEveryHabitEmits, AllCompleteIsLatest and LogEventsAreDated, and BuildEventsFromLog is proved equal to it |
| Feed.BuildEventsFromLog | src/hooks/useFeed.ts:45-98 | the loop returns the log's events |
| Feed.HabitEventsComeFromIds | src/hooks/useFeed.ts:49-71 | at most one event per id, each for an id that is completed and stamped |
| Feed.EmittingHabitsHaveEvents | src/hooks/useFeed.ts:49-71 | every completed, stamped habit has its event |
| Feed.FullEventsIffAllEmit | src/hooks/useFeed.ts:49-73 | there is an event per id iff every id is completed and stamped |
| Feed.HabitEventsFollowOrder | src/hooks/useFeed.ts:49-71 | events follow the order of the ids |
| Feed.LogHabitEvents | src/hooks/useFeed.ts:49-71 | at most 7 habit events, one per completed and stamped habit, in HABIT_ORDER; 7 iff all are |
| Feed.LogEventsInOrder | src/hooks/useFeed.ts:45-98 | at most 8 events per log, in HABIT_ORDER with all-complete last |
| Feed.AllCompleteIffEveryHabitEmits | src/hooks/useFeed.ts:73-95 | the all-complete event appears iff all seven habits produced events |
| Feed.AllCompleteIsLatest | src/hooks/useFeed.ts:76-95 | the all-complete event is last and stamped with the latest completedAt |
| Feed.UnstampedHabitBlocksAllComplete | src/hooks/useFeed.ts:49-73 | a completed habit without completedAt gets no event and blocks the all-complete event |
| Feed.FeedWindow | src/hooks/useFeed.ts:122-127 | three dates, today first, each one day before the previous |
| Feed.WindowIsNewestFirst | src/hooks/useFeed.ts:122-127 | the window is strictly newest first and holds exactly the last three days |
| Feed.CollectEvents | src/hooks/useFeed.ts:162-178 | the loop collects the events of my and my partner's log for each window date |
| Feed.WindowEventsAreDated | src/hooks/useFeed.ts:162-178 | every collected event is dated within the window |
| Feed.LogEventsAreDated | src/hooks/useFeed.ts:45-98 | every event of a log carries its date, user id and user name |
| Feed.EventsOnCounts | src/hooks/useFeed.ts:221-226 | a date's group holds exactly the events of that date, with their multiplicities |
| Feed.SameEventsSameGroups | src/hooks/useFeed.ts:216-226 | reordering the events does not change any date's group as a multiset |
| Feed.GroupOfSortedIsSorted | src/hooks/useFeed.ts:216-226 | grouping a completedAt-descending list keeps each group descending |
| Feed.GroupByDate | src/hooks/useFeed.ts:221-226 | the map holds each date with events, mapped to its events in order, and no other date |
| Feed.LabelOf | src/hooks/useFeed.ts:234-248 | "Today" exactly for today, with a day number iff there is a challenge start; "Yesterday" exactly for the day before |
| Feed.TodayLabelIsDayNumber | src/hooks/useFeed.ts:239 | today's label carries getDayNumber of today |
| Feed.BuildFeedDays | src/hooks/useFeed.ts:229-251 | days follow the window newest first, each labelled with its events, and a window date is listed iff it has events |
| Feed.ListedAfterAppend | src/hooks/useFeed.ts:229-251 | appending a day lists exactly its date in addition |
| Feed.FeedDays | src/hooks/useFeed.ts:216-251 | each listed day holds its date's events sorted by completedAt descending, with events of equal completedAt in the order they were collected (the same key classes as the date's events, which with the order fixes the list by Sorting.SortedKeyClassesDetermine), newest day first, and a window date is listed iff it has events |
| Feed.EventsOnOfConcat | src/hooks/useFeed.ts:223-230 | a date's events of a concatenation are the date's events of each part |
| Feed.GroupOfKeyClass | src/hooks/useFeed.ts:216-230 | taking a date's events and taking the events of one completedAt commute |
| Feed.GroupsKeepKeyClasses | src/hooks/useFeed.ts:216-230 | lists with the same events at each completedAt keep that, date by date |
| Feed.TodayCompletedCount | src/hooks/useFeed.ts:257-266 | 0 when today's log is missing, else its completed count, at most 7 |
| Notify.OrElse | functions/src/onChatReaction.ts:56 | the value when truthy, else the fallback |
| Notify.ReactorName | functions/src/onReaction.ts:67 | the reactor's display name when set, else "Your partner" |
| Notify.NewKeys | functions/src/onReaction.ts:34-36 | the new keys are exactly the after-keys not in the before map |
| Notify.NewKeysAreDistinct | functions/src/onReaction.ts:34-36 | distinct after-keys give distinct new keys |
| Notify.Truncate | functions/src/onChatMessage.ts:45 | definition: `length > limit ? slice(0, limit - 3) + '...' : text` in UTF-16 code units; its properties are TruncateFits and TruncateWithinPlane |
| Notify.TruncateFits | functions/src/onChatMessage.ts:45 | with lengths in UTF-16 code units: the result fits the limit; a text that fits passes unchanged; a longer one becomes a prefix of limit-3 units (one fewer only where unit limit-3 would split a surrogate pair) plus "..." |
| Notify.TruncateWithinPlane | functions/src/onChatMessage.ts:45 | for text inside the Basic Multilingual Plane, exactly `slice(0, limit-3) + "..."` when longer than the limit, else the text |
| Notify.Split | functions/src/onReaction.ts:41 | `split` always yields at least one piece |
| Notify.SplitPiecesHaveNoSeparator | functions/src/onReaction.ts:41 | no piece contains the separator |
| Notify.SplitJoinRoundTrip | functions/src/onReaction.ts:41 | joining the pieces with the separator gives back the text |
| Notify.SplitWithoutSeparator | functions/src/onReaction.ts:41 | text without the separator is one piece |
| Notify.SplitAfterHead | functions/src/onReaction.ts:41 | a separator-free head is the first piece, followed by the pieces of the rest |
| Notify.SplitBeforeTail | functions/src/onReaction.ts:41 | a separator-free tail is the last piece |
| HabitCompleteNotify.UnknownIdIsItsOwnLabel | functions/src/onHabitComplete.ts:68 | an id without a label is shown as itself |
| HabitCompleteNotify.TableLabels | functions/src/onHabitComplete.ts:11-19 | the seven labels of the table |
| HabitCompleteNotify.LabelsMatchDefinitions | functions/src/onHabitComplete.ts:11-19 | each function label agrees with the app's habit definition label |
| HabitCompleteNotify.NewlyCompleted | functions/src/onHabitComplete.ts:30-39 | definition: the after-keys completed now and not before; its property is NewlyCompletedIsTheDiff, and FindNewlyCompleted is proved equal to it |
| HabitCompleteNotify.FindNewlyCompleted | functions/src/onHabitComplete.ts:30-39 | the loop returns the newly completed ids in key order |
| HabitCompleteNotify.NewlyCompletedIsTheDiff | functions/src/onHabitComplete.ts:30-39 | an id is listed iff it is completed after and not completed (or absent) before, once each |
| HabitCompleteNotify.PartnerToken | functions/src/onHabitComplete.ts:53-64 | a token iff the user has a partner whose token is set and partner completions are on |
| HabitCompleteNotify.CompletionBody | functions/src/onHabitComplete.ts:68-74 | definition: the body text; its property is CompletionBodyShape |
| HabitCompleteNotify.CompletionBodyShape | functions/src/onHabitComplete.ts:68-74 | "<name> completed <label>", with ": <note>" only for a workout with a non-empty note |
| HabitCompleteNotify.OnHabitComplete | functions/src/onHabitComplete.ts:21-82 | nothing for a missing document or habits; otherwise one message per newly completed habit to the partner's token, or none without a token |
| ReactionNotify.ReactionMessage | functions/src/onReaction.ts:50-89 | a message iff the reaction has a user other than the event owner and the owner has a push token; sent to that token, titled "<name> reacted <emoji>", with the habit-dependent body |
| ReactionNotify.ParseEventId | functions/src/onReaction.ts:40-47 | an owner and habit iff at least three '_' pieces: the first and the last |
| ReactionNotify.EventIdRoundTrip | functions/src/onReaction.ts:45-47 | `userId_date_habitId` with no '_' in the user or habit parses back to both |
| ReactionNotify.ShortIdsAreIgnored | functions/src/onReaction.ts:42-43 | ids of one or two pieces are ignored |
| ReactionNotify.Notifications | functions/src/onReaction.ts:22-100 | definition: the messages for the new reaction keys of a parsed event id; its properties are ShortIdsAreIgnored, MessagesComeFromOthersReactions and NothingForOwnOrNoReaction, and OnReaction is proved equal to it |
| ReactionNotify.OnReaction | functions/src/onReaction.ts:22-100 | the loop returns the notifications for the new reactions |
| ReactionNotify.MessagesComeFromOthersReactions | functions/src/onReaction.ts:50-100 | at most one message per key, each for a reaction by someone other than the owner, to the owner's token |
| ReactionNotify.NothingForOwnOrNoReaction | functions/src/onReaction.ts:28-38 | a deleted document gives no messages |
| ReactionNotify.ReactionBody | functions/src/onReaction.ts:82-89 | definition: the all-complete body or the label body; its property is ReactionBodyShape |
| ReactionNotify.ReactionBodyShape | functions/src/onReaction.ts:82-89 | "reacted to you completing all habits!" for all-complete, else "reacted to your <label>", falling back to the raw id |
| ChatReactionNotify.ChatReactionMessage | functions/src/onChatReaction.ts:49-94 | a message iff the reaction has a user other than the author and the author has a push token; sent to that token, quoting the text truncated at 60/57 UTF-16 code units, titled "<name> reacted <emoji>" |
| ChatReactionNotify.Notifications | functions/src/onChatReaction.ts:13-94 | definition: the messages for the new reaction keys of a chat message; its properties are MessagesQuoteTheText, NothingWithoutNewReactionOrMessage and OwnReactionsAreSkipped, and OnChatReaction is proved equal to it |
| ChatReactionNotify.OnChatReaction | functions/src/onChatReaction.ts:13-94 | the loop returns the notifications for the new reactions, each quoting the text cut at 60/57 UTF-16 code units |
| ChatReactionNotify.MessagesQuoteTheText | functions/src/onChatReaction.ts:43-94 | at most one message per key, each to the author's token with a body of at most 60 UTF-16 code units, and only for another user's reaction |
| ChatReactionNotify.NothingWithoutNewReactionOrMessage | functions/src/onChatReaction.ts:17-41 | a deleted document, no new keys or a missing message give nothing |
| ChatReactionNotify.OwnReactionsAreSkipped | functions/src/onChatReaction.ts:51-53 | the author's own reaction produces no message |
| ChatMessageNotify.OnChatMessage | functions/src/onChatMessage.ts:13-52 | a message iff the sender has a partner with a push token, sent to that token, titled with the sender's name, with the text truncated at 100/97 UTF-16 code units |
| ChatMessageNotify.BodyFits | functions/src/onChatMessage.ts:45 | the body has at most 100 UTF-16 code units; a text that fits passes unchanged; a longer one is a prefix of 96 or 97 units plus "..."; inside the Basic Multilingual Plane exactly 97 characters plus "..." |
| EveningNudge.HabitKeysAreTheHabits | src/config/habits.ts:63-71 | the log's habit keys are the seven habits |
| EveningNudge.CompletedCount | functions/src/eveningNudge.ts:60-62 | the completed entries are at most the entries |
| EveningNudge.OneHabitLeftIsSingular | functions/src/eveningNudge.ts:71 | one habit left says "1 habit" |
| EveningNudge.MoreHabitsLeftArePlural | functions/src/eveningNudge.ts:71 | more than one says "habits" |
| EveningNudge.NudgeWith | functions/src/eveningNudge.ts:35-73 | a nudge iff the user has a token and nudges on, and either has no log today or has habits with fewer than the total completed; no-log text or remaining count text |
| EveningNudge.CountOfFullDay | functions/src/eveningNudge.ts:60-62 | a full day counts at most 7, and 7 iff no habit is left |
| EveningNudge.Nudge | functions/src/eveningNudge.ts:35-73 | definition: NudgeWith with the corrected total of 7; its property is NudgeIffHabitLeft |
| EveningNudge.NudgeIffHabitLeft | functions/src/eveningNudge.ts:60-73 | with the seven configured habits, a logged user is nudged iff a habit is left |
| EveningNudge.SixOfSevenCount | functions/src/eveningNudge.ts:60-62 | illustration only (the general rule is NudgeIffHabitLeft): six of seven done counts 6 |
| EveningNudge.NudgeAsWritten | functions/src/eveningNudge.ts:11-66 | definition: NudgeWith with the source's `TOTAL_HABITS = 6`; its properties are AsWrittenMissesTheLastHabit and AsWrittenNeedsTwoLeft |
| EveningNudge.AsWrittenMissesTheLastHabit | functions/src/eveningNudge.ts:11-66 | with six of seven done, the code as written sends nothing, while the corrected count sends "You have 1 habit left today" |
| EveningNudge.AsWrittenNeedsTwoLeft | functions/src/eveningNudge.ts:11-66 | as written, a logged user is nudged iff at most five habits are done |
| EveningNudge.EveningNudge | functions/src/eveningNudge.ts:25-74 | the loop returns one decision per user in order, computing `remaining` with the corrected total of 7 rather than the source's `TOTAL_HABITS = 6` (see Findings) |
| EveningNudge.OneNudgePerUser | functions/src/eveningNudge.ts:32-74 | at most one message per user, each titled "Evening check-in" and sent to a listed user's token with nudges on |
| Chat.ParseTag | src/services/chat.ts:6-10 | idea iff "#idea " starts the text, bug iff "#bug " does, otherwise none |
| Chat.SendMessage | src/services/chat.ts:41-50 | stores the user, the unchanged text, its parsed tag and the server time |
| Chat.GetDisplayText | src/components/chat/ChatBubble.tsx:13-17 | never longer than the text, the text itself iff untagged, and the text minus its tag prefix otherwise |
| Chat.TagRoundTrip | src/components/chat/ChatBubble.tsx:14-15 | "#idea " + s and "#bug " + s display as s, with that tag |
| Chat.StoredTagMatchesDisplay | src/services/chat.ts:41-50 | the stored tag is the tag whose prefix the display drops |
| Chat.UntaggedExamples | src/services/chat.ts:6-10 | illustration only (the general rule is ParseTag): "#idea" and "#bug" without the space, and tags not at the start, are untagged |
| Reminders.OffsetTime | src/services/notifications.ts:70-76 | the reminder time equals wake time + offset modulo a day, and for a valid wake time lies in 0..23 : 0..59 |
| Reminders.Without | src/services/notifications.ts:35-45 | cancelling keeps every other reminder and removes all with the identifier |
| Reminders.WithoutKeepsOthers | src/services/notifications.ts:35-45 | cancelling one identifier leaves other identifiers' reminders unchanged |
| Reminders.EntriesOfAppend | src/services/notifications.ts:35-45 | the reminders of an identifier after adding one are the old ones plus it when it matches |
| Reminders.Reschedule | src/services/notifications.ts:35-45 | after cancel-then-schedule, the identifier has exactly the new reminder |
| Reminders.RescheduleKeepsUnique | src/services/notifications.ts:35-45 | cancel-then-schedule keeps identifiers unique |
| Reminders.WithoutKeepsUnique | src/services/notifications.ts:48-50 | cancelling keeps identifiers unique |
| Reminders.Scheduler.constructor | src/services/notifications.ts:28-50 | no reminders pending |
| Reminders.Scheduler.Schedule | src/services/notifications.ts:37-45 | `scheduleNotificationAsync` appends one daily reminder with the identifier, title, body, hour and minute, the others unchanged |
| Reminders.Scheduler.Cancel | src/services/notifications.ts:48-50 | `cancelScheduledNotificationAsync` removes every pending reminder with the identifier and keeps the rest in order |
| Reminders.Scheduler.ScheduleLocalReminder | src/services/notifications.ts:28-46 | the identifier's old reminder is replaced by the new one, others unchanged, identifiers stay unique |
| Reminders.Scheduler.CancelReminderById | src/services/notifications.ts:48-50 | removes the identifier's reminders only |
| Reminders.Scheduler.ScheduleHabitReminders | src/services/notifications.ts:64-111 | both reminders are rescheduled: wake at wake time + 2 and sunlight at + 20 minutes modulo a day, each in range, with their titles and bodies |
| Reminders.LateWakeUpWrapsToMidnight | src/services/notifications.ts:91-97 | illustration only (the general rule is OffsetTime): a 23:50 wake-up gives sunlight at 00:10 |
| TimedCard.FormatTime | src/components/habits/TimedHabitCard.tsx:26-30 | "m:ss" with a colon three from the end and two seconds digits below 60 |
| TimedCard.FormatTimeRoundTrip | src/components/habits/TimedHabitCard.tsx:26-30 | reading the text back as m*60 + ss gives the seconds, with m = seconds div 60 |
| TimedCard.FormatTimeExamples | src/components/habits/TimedHabitCard.tsx:26-30 | illustration only (the general rule is FormatTimeRoundTrip): sample values such as 300 -> "5:00" |
| TimedCard.Duration | src/components/habits/TimedHabitCard.tsx:34 | the definition's duration, else 300 seconds |
| TimedCard.SecondsLeft | src/components/habits/TimedHabitCard.tsx:45-58 | max(0, duration - elapsed): at most the duration, 0 iff the time is up, and adding the elapsed time gives the duration |
| TimedCard.TimedHabitCard.constructor | src/components/habits/TimedHabitCard.tsx:34-40 | idle: not running, full duration left, no start time |
| TimedCard.TimedHabitCard.Toggle | src/components/habits/TimedHabitCard.tsx:56 | flips completed and counts one toggle |
| TimedCard.TimedHabitCard.Tick | src/components/habits/TimedHabitCard.tsx:44-65 | recomputes the seconds left; at 0 it stops, clears the start time and toggles once |
| TimedCard.TimedHabitCard.HandleStart | src/components/habits/TimedHabitCard.tsx:94-124 | refused when completed or running; otherwise starts at now with the full duration |
| TimedCard.TimedHabitCard.HandleTap | src/components/habits/TimedHabitCard.tsx:126-134 | completed: only toggles back, every timer field and the notification id unchanged; idle: starts with the full duration and stores the scheduled notification id, toggles unchanged; running: nothing changes |
| TimedCard.TimedHabitCard.ResetIfIdle | src/components/habits/TimedHabitCard.tsx:88-92 | when not running and not completed, the full duration is shown again; otherwise the remainder is kept; completion, toggles, the timer and the notification id never change |
| TimedCard.TimedHabitCard.RunInterval | src/components/habits/TimedHabitCard.tsx:44-65 | without a start time nothing changes; once a tick finds no seconds left the habit is toggled exactly once and the timer is stopped, cleared and its notification dropped; until then it keeps running, only the remainder changing to that of the last tick |

## Left out

- Wall clock, timezones and locale: `getTodayDateString`, `new Date()`, `Date.now()`, `formatDateHeader`, `subDays` and `startOfDay`. Today and now are parameters; dates are day ordinals, so `differenceInDays` over a daylight-saving change is plain subtraction.
- Functions that are called but not defined in the source files modelled: `calculatePairStreak`, `getLast7DayCompletions`, `calculateWeeklyTrend`, `evaluateBadges`, `getHabitDate`, `getHabitDateString` and `getFeedEventId`. These are not part of this model; the habit date of "now" is a parameter.
- Floating point: completion rates and progress are `Ratio` pairs, and the progress ring geometry of the timed card is not modelled.
- Firestore, Firebase auth, onSnapshot subscriptions, the auth store and push delivery (`sendPushNotificationsAsync`) are I/O. The functions return the message lists they would send. A thrown error in a cloud function is modelled as sending nothing.
- `Object.keys` / `Object.entries` order is a `keys` parameter. Where a lemma needs distinct keys, it requires them, as every object's keys are.
- Debounced writes and their timers in useHabits: a write is modelled as the record it produces.
- `loadedCount` and the subscriptions of useFeed; feed interactions, reactions and comments (`toggleReaction`, `postComment`).
- Firestore.LogStore.GetHabitLogs: the date-range query is modelled by the set of stored documents, not by Firestore's index or its `orderBy`.
- Firestore.EntryOrBlank: a field update on a habit missing from the stored record starts from a blank entry, as a Firestore dotted-path update creates the map.
- ChatMessageNotify.OnChatMessage: a sender without a display name gives the title "", standing for the undefined title the source sends.
- Reminders.Scheduler.ScheduleHabitReminders: requires a wake time accepted by isValidTime. The only writer of `wakeUpTime`, src/services/auth.ts:33, stores "07:00" or "09:00", and src/hooks/useNotifications.ts:48 passes it on unchanged. Other texts that `split`/`Number` still parse, such as "6:00", are not modelled.
- `registerForPushNotifications`, `setupNotificationHandler`, `updateHabitBadge` and `subscribeToMessages` are device or subscription I/O.
- ChatBubble's `formatTime` uses `toLocaleTimeString` and is locale output.
- TimedHabitCard's AppState listener, unmount cleanup, interval scheduling and haptics: `RunInterval` stands for a run of interval ticks at given times.
- The scheduled functions `waterCheck` and `morningReminders`, badge tables and all rendering.
- TimedCard.TimedHabitCard.HandleStart: the local notification id is a parameter, as scheduling it is device I/O.
- Streaks.CompletionFlags, Streaks.CalculateStreak, Streaks.CalculateCompletionRate and Streaks.CalculateDayCompletionCount require every log to hold all seven habits (`WellFormedLogs`). A log missing a habit makes src/utils/streaks.ts:15, :36 and :41 throw a TypeError, which is not modelled. Logs are always created from `createEmptyDayHabits`, which holds all seven.
- Feed.LabelOf: the day number of the "Today" label is the difference of day ordinals plus one. The source floors a millisecond difference of local midnights, which after a daylight-saving spring-forward is one day short. Timezones are not modelled.
- Feed.TodayLabelIsDayNumber: proves the label agrees with getDayNumber, which holds in the source only when no spring-forward lies between the start date and today.
- TruncateFits: when unit limit-3 would split a surrogate pair, `slice` keeps a lone high surrogate, and the model's head stops one unit earlier. A Dafny string holds only whole characters.
- BodyFits: the same lone-surrogate case at unit 97 of a chat message.
- OnChatMessage: the same lone-surrogate case at unit 97 of a chat message.
- ChatReactionMessage: the same lone-surrogate case at unit 57 of the quoted text.
- OnChatReaction: the same lone-surrogate case at unit 57 of the quoted text.
- MessagesQuoteTheText: the same lone-surrogate case at unit 57 of the quoted text.

## Findings

| source | as written | input that shows it | evidently intended | confidence | as-written member | corrected member |
|---|---|---|---|---|---|---|
| functions/src/eveningNudge.ts:11-66 | `TOTAL_HABITS` is 6, while seven habits are configured, so `remaining` is 6 minus the completed count | a user with six of the seven habits done (meditate left) gets no nudge | remaining = 7 - completed (the length of HABIT_ORDER), so one habit left still gets "You have 1 habit left today" | not executed | EveningNudge.AsWrittenMissesTheLastHabit | EveningNudge.NudgeIffHabitLeft |
