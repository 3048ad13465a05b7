/**
 * The timed habit card (src/components/habits/TimedHabitCard.tsx): a
 * countdown shown as "m:ss" that, once it reaches zero, toggles the habit
 * once, clears its timer and cancels the completion notification it
 * scheduled.
 *
 * The clock (`Date.now()`) is a parameter of the operations that read it,
 * the interval firing is a list of tick times, and the notification id
 * the platform returns is a parameter of `HandleStart`. `onToggle` belongs
 * to the parent; here it flips `completed` and counts the flips.
 */
module TimedCard {
  import opened Common
  import opened Validation

  const DEFAULT_DURATION: nat := 300

  /** `formatTime`: whole minutes, a colon, then the seconds as two digits. */
  function FormatTime(seconds: nat): (text: string)
    ensures |text| >= 4 && text[|text| - 3] == ':'
    ensures IsDigit(text[|text| - 2]) && IsDigit(text[|text| - 1])
    ensures DigitValue(text[|text| - 2]) * 10 + DigitValue(text[|text| - 1]) < 60
  {
    NatText(seconds / 60) + ":" + TwoDigits(seconds % 60)
  }

  /** Reads an "m:ss" text back as seconds. */
  function ClockSeconds(text: string): int
    requires |text| >= 3
  {
    DecimalValue(text[..|text| - 3]) * 60 + DigitValue(text[|text| - 2]) * 10 + DigitValue(text[|text| - 1])
  }

  /** The minutes and seconds shown add back up to the time. */
  lemma FormatTimeRoundTrip(seconds: nat)
    ensures ClockSeconds(FormatTime(seconds)) == seconds
    ensures FormatTime(seconds)[..|FormatTime(seconds)| - 3] == NatText(seconds / 60)
  {
    var text := FormatTime(seconds);
    var minutes := NatText(seconds / 60);
    assert text[..|text| - 3] == minutes;
    NatTextRoundTrip(seconds / 60);
  }

  lemma FormatTimeExamples()
    ensures FormatTime(300) == "5:00" && FormatTime(65) == "1:05" && FormatTime(0) == "0:00"
  {
    assert NatText(5) == "5" && NatText(1) == "1" && NatText(0) == "0";
  }

  /** `definition.durationSeconds ?? 300`. */
  function Duration(durationSeconds: Option<nat>): (d: nat)
    ensures durationSeconds.None? ==> d == DEFAULT_DURATION
    ensures durationSeconds.Some? ==> d == durationSeconds.value
  {
    if durationSeconds.Some? then durationSeconds.value else DEFAULT_DURATION
  }

  /** `Math.max(0, duration - elapsed)` with `elapsed` the whole seconds since the start. */
  function SecondsLeft(duration: nat, startedAt: int, now: int): (left: nat)
    ensures now >= startedAt ==> left <= duration
    ensures left == 0 <==> (now - startedAt) / 1000 >= duration
    ensures left > 0 ==> left + (now - startedAt) / 1000 == duration
  {
    var elapsed := (now - startedAt) / 1000;
    if duration - elapsed > 0 then duration - elapsed else 0
  }

  /** Whether one of the first `n` ticks finds no time left. */
  predicate TimesUp(duration: nat, startedAt: int, times: seq<int>, n: nat)
    requires n <= |times|
  {
    exists k :: 0 <= k < n && SecondsLeft(duration, startedAt, times[k]) == 0
  }

  class TimedHabitCard {
    const duration: nat
    var completed: bool
    /** How many times the card has called `onToggle`. */
    var toggles: nat
    var running: bool
    var remaining: int
    var startedAt: Option<int>
    var ticking: bool
    var notificationId: Option<string>

    /** The timer runs exactly when it has a start time and an interval. */
    predicate Valid()
      reads this
    {
      (running <==> startedAt.Some?) && (ticking <==> running)
    }

    constructor (durationSeconds: Option<nat>, completed: bool)
      ensures Valid()
      ensures duration == Duration(durationSeconds) && remaining == duration
      ensures this.completed == completed && toggles == 0
      ensures !running && startedAt.None? && !ticking && notificationId.None?
    {
      duration := Duration(durationSeconds);
      this.completed := completed;
      toggles := 0;
      running := false;
      remaining := Duration(durationSeconds);
      startedAt := None;
      ticking := false;
      notificationId := None;
    }

    /** `onToggle`. */
    method Toggle()
      modifies this
      ensures completed == !old(completed) && toggles == old(toggles) + 1
      ensures running == old(running) && remaining == old(remaining) && startedAt == old(startedAt)
      ensures ticking == old(ticking) && notificationId == old(notificationId)
    {
      completed := !completed;
      toggles := toggles + 1;
    }

    /**
     * `tick`: nothing without a start time; otherwise the seconds left, and
     * at zero the timer stops, the habit is toggled and the notification is
     * cancelled.
     */
    method Tick(now: int)
      requires Valid()
      modifies this
      ensures Valid()
      ensures old(startedAt).None? ==>
        completed == old(completed) && toggles == old(toggles) && remaining == old(remaining)
        && !running && notificationId == old(notificationId)
      ensures old(startedAt).Some? ==>
        var left := SecondsLeft(duration, old(startedAt).value, now);
        && remaining == left
        && (now >= old(startedAt).value ==> 0 <= remaining <= duration)
        && (left > 0 ==> running && startedAt == old(startedAt) && completed == old(completed) && toggles == old(toggles)
                         && notificationId == old(notificationId))
        && (left == 0 ==> !running && startedAt.None? && completed == !old(completed) && toggles == old(toggles) + 1
                          && notificationId.None?)
    {
      if startedAt.None? {
        return;
      }
      var left := SecondsLeft(duration, startedAt.value, now);
      remaining := left;
      if left <= 0 {
        ticking := false;
        startedAt := None;
        running := false;
        Toggle();
        notificationId := None;
      }
    }

    /** `handleStart`: refused when completed or running; otherwise the timer starts from the full duration. */
    method HandleStart(now: int, scheduledId: Option<string>)
      requires Valid()
      modifies this
      ensures Valid()
      ensures old(completed) || old(running) ==>
        running == old(running) && startedAt == old(startedAt) && remaining == old(remaining)
        && notificationId == old(notificationId)
      ensures !old(completed) && !old(running) ==>
        running && startedAt == Some(now) && remaining == duration && notificationId == scheduledId
      ensures completed == old(completed) && toggles == old(toggles)
    {
      if completed || running {
        return;
      }
      startedAt := Some(now);
      running := true;
      remaining := duration;
      ticking := true;
      notificationId := scheduledId;
    }

    /** `handleTap`: undo when completed, start when idle, nothing while running. */
    method HandleTap(now: int, scheduledId: Option<string>)
      requires Valid()
      modifies this
      ensures Valid()
      ensures old(completed) ==>
        !completed && toggles == old(toggles) + 1 && running == old(running) && startedAt == old(startedAt)
        && remaining == old(remaining) && notificationId == old(notificationId)
      ensures !old(completed) && !old(running) ==>
        running && startedAt == Some(now) && remaining == duration && notificationId == scheduledId
        && !completed && toggles == old(toggles)
      ensures !old(completed) && old(running) ==>
        completed == old(completed) && toggles == old(toggles) && running == old(running) && startedAt == old(startedAt)
        && remaining == old(remaining) && notificationId == old(notificationId)
    {
      if completed {
        Toggle();
      } else if !running {
        HandleStart(now, scheduledId);
      }
    }

    /** The effect that refills an idle, uncompleted timer. */
    method ResetIfIdle()
      requires Valid()
      modifies this
      ensures Valid()
      ensures !old(completed) && !old(running) ==> remaining == duration
      ensures old(completed) || old(running) ==> remaining == old(remaining)
      ensures completed == old(completed) && toggles == old(toggles) && running == old(running) && startedAt == old(startedAt)
      ensures notificationId == old(notificationId)
    {
      if !completed && !running {
        remaining := duration;
      }
    }

    /**
     * The interval firing at successive times. Without a start time nothing
     * changes. Once some tick finds no time left, the habit has been
     * toggled exactly once and the timer is stopped and cleared. Until then
     * the timer keeps running and only the remainder shown changes, to that
     * of the last tick.
     */
    method RunInterval(times: seq<int>)
      requires Valid()
      modifies this
      ensures Valid()
      ensures old(startedAt).None? ==>
        completed == old(completed) && toggles == old(toggles) && remaining == old(remaining)
        && !running && notificationId == old(notificationId)
      ensures old(startedAt).Some? && TimesUp(duration, old(startedAt).value, times, |times|) ==>
        !running && startedAt.None? && remaining == 0 && notificationId.None?
        && completed == !old(completed) && toggles == old(toggles) + 1
      ensures old(startedAt).Some? && !TimesUp(duration, old(startedAt).value, times, |times|) ==>
        running && startedAt == old(startedAt) && notificationId == old(notificationId)
        && completed == old(completed) && toggles == old(toggles)
        && remaining == (if times == [] then old(remaining) else SecondsLeft(duration, old(startedAt).value, times[|times| - 1]))
    {
      for i := 0 to |times|
        invariant Valid()
        invariant old(startedAt).None? ==>
          completed == old(completed) && toggles == old(toggles) && remaining == old(remaining)
          && !running && notificationId == old(notificationId)
        invariant old(startedAt).Some? && TimesUp(duration, old(startedAt).value, times, i) ==>
          !running && startedAt.None? && remaining == 0 && notificationId.None?
          && completed == !old(completed) && toggles == old(toggles) + 1
        invariant old(startedAt).Some? && !TimesUp(duration, old(startedAt).value, times, i) ==>
          running && startedAt == old(startedAt) && notificationId == old(notificationId)
          && completed == old(completed) && toggles == old(toggles)
          && remaining == (if i == 0 then old(remaining) else SecondsLeft(duration, old(startedAt).value, times[i - 1]))
      {
        Tick(times[i]);
      }
    }
  }
}
