/**
 * The value arithmetic of the progressive habit card
 * (src/components/habits/ProgressiveHabitCard.tsx): water steps by 8 oz
 * towards the profile's target, reading by one page towards ten pages.
 */
module ProgressiveCard {
  import opened Common
  import opened Habits
  import opened HabitActions

  /** `increment`: 8 oz for water, one page for reading. */
  function Step(habitId: HabitId): (s: int)
    ensures s > 0
    ensures habitId == Water ==> s == WATER_INCREMENT_OZ
    ensures habitId != Water ==> s == 1
  {
    if habitId == Water then WATER_INCREMENT_OZ else 1
  }

  /** `target`: the profile's water target (80 without a profile), or the reading target. */
  function Target(habitId: HabitId, profile: Option<Profile>): (t: int)
    ensures habitId == Water && profile.Some? ==> t == profile.value.waterTargetOz
    ensures habitId == Water && profile.None? ==> t == 80
    ensures habitId != Water ==> t == READING_TARGET_PAGES
  {
    if habitId == Water then (if profile.Some? then profile.value.waterTargetOz else 80)
    else READING_TARGET_PAGES
  }

  /** `currentValue`: the ounces of a water record, the pages of a reading record. */
  function CurrentValue(habitId: HabitId, data: HabitData): (v: int)
    requires habitId == Water ==> data.currentOz.Some?
    requires habitId != Water ==> data.pagesRead.Some?
    ensures habitId == Water ==> Some(v) == data.currentOz
    ensures habitId != Water ==> Some(v) == data.pagesRead
  {
    if habitId == Water then data.currentOz.value else data.pagesRead.value
  }

  /** `handleIncrement`: always proposes one step more. */
  function HandleIncrement(habitId: HabitId, current: int): (v: int)
    ensures v > current && v - current == Step(habitId)
  {
    current + Step(habitId)
  }

  /** `handleDecrement`: nothing at zero or below, otherwise one step less, which may go below zero. */
  function HandleDecrement(habitId: HabitId, current: int): (v: Option<int>)
    ensures v.None? <==> current <= 0
    ensures v.Some? ==> v.value < current && current - v.value == Step(habitId)
  {
    if current <= 0 then None else Some(current - Step(habitId))
  }

  /** From a value of zero or more, an increment followed by a decrement proposes the value again. */
  lemma IncrementThenDecrement(habitId: HabitId, current: int)
    requires current >= 0
    ensures HandleDecrement(habitId, HandleIncrement(habitId, current)) == Some(current)
  {
  }

  /** Five ounces minus a step is proposed as -3, and `updateWater` stores 0. */
  lemma WaterDecrementIsClamped(userId: string, profile: Profile, now: Timestamp)
    ensures HandleDecrement(Water, 5) == Some(-3)
    ensures UpdateWater(Some(userId), Some(profile), -3, now).value.patch.currentOz == Some(0)
  {
  }

  datatype Progress = Progress(num: int, den: int)

  /** `progress`: current over target, 0 when the target is not positive. */
  function CardProgress(current: int, target: int): (p: Progress)
    ensures p.den > 0
    ensures target <= 0 ==> p.num == 0
    ensures target > 0 ==> p.num * target == current * p.den
    ensures target > 0 && 0 <= current <= target ==> 0 <= p.num <= p.den
  {
    if target > 0 then Progress(current, target) else Progress(0, 1)
  }
}
