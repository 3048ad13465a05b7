/**
 * Local reminders (src/services/notifications.ts): daily notifications
 * scheduled under an identifier, replacing any earlier one with the same
 * identifier, and the two habit reminders placed 2 and 20 minutes after the
 * wake-up time.
 *
 * The device's notification schedule is a list of pending entries; the
 * scheduler may hold several under one identifier, which is why every
 * operation here cancels the identifier before scheduling it.
 */
module Reminders {
  import opened Validation

  const MINUTES_PER_DAY: int := 24 * 60

  const WAKE_ID: string := "wake-up-reminder"
  const SUNLIGHT_ID: string := "sunlight-reminder"
  const WAKE_OFFSET: nat := 2
  const SUNLIGHT_OFFSET: nat := 20

  /**
   * `wakeMin + offset`, carried into the next hour (mod 24) once it
   * reaches 60, as the let-variables of `scheduleHabitReminders` are.
   * The wake time comes from `Number` of decimal digits, so it is never
   * negative.
   */
  method OffsetTime(wakeHour: nat, wakeMin: nat, offset: nat) returns (hour: nat, minute: nat)
    ensures (hour * 60 + minute) % MINUTES_PER_DAY == (wakeHour * 60 + wakeMin + offset) % MINUTES_PER_DAY
    ensures wakeHour < 24 && wakeMin < 60 && offset < 60 ==>
      hour < 24 && minute < 60 && hour * 60 + minute == (wakeHour * 60 + wakeMin + offset) % MINUTES_PER_DAY
  {
    minute := wakeMin + offset;
    hour := wakeHour;
    if minute >= 60 {
      minute := minute - 60;
      hour := (hour + 1) % 24;
      CarryIsADayModulo(wakeHour, wakeMin + offset - 60);
    }
  }

  /** Moving one hour forward mod 24 keeps the minute of the day mod 1440. */
  lemma CarryIsADayModulo(wakeHour: nat, minute: nat)
    ensures (((wakeHour + 1) % 24) * 60 + minute) % MINUTES_PER_DAY == ((wakeHour + 1) * 60 + minute) % MINUTES_PER_DAY
    ensures wakeHour < 24 && minute < 60 ==>
      ((wakeHour + 1) % 24) * 60 + minute == ((wakeHour + 1) * 60 + minute) % MINUTES_PER_DAY
  {
    var q := (wakeHour + 1) / 24;
    var r := (wakeHour + 1) % 24;
    assert (wakeHour + 1) * 60 + minute == (r * 60 + minute) + q * MINUTES_PER_DAY;
    ModuloAddMultiple(r * 60 + minute, q);
  }

  lemma ModuloAddMultiple(x: nat, q: nat)
    ensures (x + q * MINUTES_PER_DAY) % MINUTES_PER_DAY == x % MINUTES_PER_DAY
  {
    var n := x + q * MINUTES_PER_DAY;
    var d := x / MINUTES_PER_DAY;
    assert n == (d + q) * MINUTES_PER_DAY + x % MINUTES_PER_DAY;
  }

  /** A pending daily notification. */
  datatype Pending = Pending(identifier: string, title: string, body: string, hour: int, minute: int)

  /** The schedule with every entry under `identifier` cancelled. */
  function Without(pending: seq<Pending>, identifier: string): (r: seq<Pending>)
    ensures forall p :: p in r <==> p in pending && p.identifier != identifier
    ensures |r| <= |pending|
  {
    if pending == [] then []
    else
      var last := pending[|pending| - 1];
      assert forall p :: p in pending <==> p in pending[..|pending| - 1] || p == last;
      Without(pending[..|pending| - 1], identifier) + (if last.identifier == identifier then [] else [last])
  }

  /** The entries under one identifier, in schedule order. */
  function EntriesOf(pending: seq<Pending>, identifier: string): seq<Pending> {
    if pending == [] then []
    else
      var last := pending[|pending| - 1];
      EntriesOf(pending[..|pending| - 1], identifier) + (if last.identifier == identifier then [last] else [])
  }

  /** Cancelling empties one identifier and leaves every other identifier's entries as they were. */
  lemma {:induction false} WithoutKeepsOthers(pending: seq<Pending>, identifier: string, other: string)
    ensures EntriesOf(Without(pending, identifier), identifier) == []
    ensures other != identifier ==> EntriesOf(Without(pending, identifier), other) == EntriesOf(pending, other)
  {
    if pending != [] {
      var init := pending[..|pending| - 1];
      var last := pending[|pending| - 1];
      WithoutKeepsOthers(init, identifier, other);
      var w := Without(init, identifier);
      EntriesOfAppend(w, if last.identifier == identifier then [] else [last], identifier);
      EntriesOfAppend(w, if last.identifier == identifier then [] else [last], other);
    }
  }

  lemma {:induction false} EntriesOfAppend(a: seq<Pending>, b: seq<Pending>, identifier: string)
    ensures EntriesOf(a + b, identifier) == EntriesOf(a, identifier) + EntriesOf(b, identifier)
    decreases |b|
  {
    if b == [] {
      assert a + b == a;
    } else {
      var init := b[..|b| - 1];
      EntriesOfAppend(a, init, identifier);
      assert (a + b)[..|a + b| - 1] == a + init;
    }
  }

  /** Cancel-then-schedule leaves the new entry alone under its identifier and the others untouched. */
  lemma Reschedule(pending: seq<Pending>, entry: Pending, other: string)
    ensures EntriesOf(Without(pending, entry.identifier) + [entry], entry.identifier) == [entry]
    ensures other != entry.identifier ==>
      EntriesOf(Without(pending, entry.identifier) + [entry], other) == EntriesOf(pending, other)
  {
    WithoutKeepsOthers(pending, entry.identifier, other);
    EntriesOfAppend(Without(pending, entry.identifier), [entry], entry.identifier);
    EntriesOfAppend(Without(pending, entry.identifier), [entry], other);
    assert [entry][..0] == [];
  }

  /** At most one entry per identifier. */
  predicate UniqueIdentifiers(pending: seq<Pending>) {
    forall i, j :: 0 <= i < j < |pending| ==> pending[i].identifier != pending[j].identifier
  }

  /** Cancel-then-schedule keeps identifiers unique. */
  lemma RescheduleKeepsUnique(pending: seq<Pending>, entry: Pending)
    requires UniqueIdentifiers(pending)
    ensures UniqueIdentifiers(Without(pending, entry.identifier) + [entry])
  {
    var w := Without(pending, entry.identifier);
    WithoutKeepsUnique(pending, entry.identifier);
    assert forall i :: 0 <= i < |w| ==> w[i] in w;
  }

  lemma {:induction false} WithoutKeepsUnique(pending: seq<Pending>, identifier: string)
    requires UniqueIdentifiers(pending)
    ensures UniqueIdentifiers(Without(pending, identifier))
  {
    if pending != [] {
      var init := pending[..|pending| - 1];
      var last := pending[|pending| - 1];
      WithoutKeepsUnique(init, identifier);
      var w := Without(init, identifier);
      forall p | p in w
        ensures p.identifier != last.identifier
      {
        var i :| 0 <= i < |init| && init[i] == p;
      }
      assert forall i :: 0 <= i < |w| ==> w[i] in w;
    }
  }

  /** The device's schedule of local notifications. */
  class Scheduler {
    var pending: seq<Pending>

    constructor ()
      ensures pending == []
    {
      pending := [];
    }

    /** `cancelScheduledNotificationAsync(identifier)`; cancelling nothing is not an error. */
    method Cancel(identifier: string)
      modifies this
      ensures pending == Without(old(pending), identifier)
    {
      pending := Without(pending, identifier);
    }

    /** `scheduleNotificationAsync`: a daily trigger at the given time. */
    method Schedule(identifier: string, title: string, body: string, hour: int, minute: int)
      modifies this
      ensures pending == old(pending) + [Pending(identifier, title, body, hour, minute)]
    {
      pending := pending + [Pending(identifier, title, body, hour, minute)];
    }

    /** `scheduleLocalReminder`: cancel the identifier, then schedule it. */
    method ScheduleLocalReminder(title: string, body: string, hour: int, minute: int, identifier: string)
      modifies this
      ensures pending == Without(old(pending), identifier) + [Pending(identifier, title, body, hour, minute)]
      ensures UniqueIdentifiers(old(pending)) ==> UniqueIdentifiers(pending)
      ensures EntriesOf(pending, identifier) == [Pending(identifier, title, body, hour, minute)]
      ensures forall other :: other != identifier ==> EntriesOf(pending, other) == EntriesOf(old(pending), other)
    {
      var before := pending;
      Cancel(identifier);
      Schedule(identifier, title, body, hour, minute);
      var entry := Pending(identifier, title, body, hour, minute);
      if UniqueIdentifiers(before) {
        RescheduleKeepsUnique(before, entry);
      }
      forall other
        ensures other != identifier ==> EntriesOf(pending, other) == EntriesOf(before, other)
      {
        Reschedule(before, entry, other);
      }
      Reschedule(before, entry, identifier);
    }

    /** `cancelReminderById`. */
    method CancelReminderById(identifier: string)
      modifies this
      ensures pending == Without(old(pending), identifier)
      ensures EntriesOf(pending, identifier) == []
    {
      Cancel(identifier);
      WithoutKeepsOthers(old(pending), identifier, identifier);
    }

    /**
     * `scheduleHabitReminders`: both habit reminders cancelled, then the
     * wake-up reminder 2 minutes and the sunlight reminder 20 minutes after
     * the wake-up time, each wrapped to a time of day.
     */
    method ScheduleHabitReminders(wakeUpTime: string)
      requires IsValidTime(wakeUpTime)
      modifies this
      ensures |pending| >= 2
      ensures pending[..|pending| - 2] == Without(Without(old(pending), WAKE_ID), SUNLIGHT_ID)
      ensures var wake := pending[|pending| - 2];
              var (h, m) := ParseTime(wakeUpTime);
              && wake.identifier == WAKE_ID && wake.title == "Rise and shine!"
              && wake.body == "Tap to confirm you're up, and grab a glass of water."
              && 0 <= wake.hour < 24 && 0 <= wake.minute < 60
              && wake.hour * 60 + wake.minute == (h * 60 + m + WAKE_OFFSET) % MINUTES_PER_DAY
      ensures var sun := pending[|pending| - 1];
              var (h, m) := ParseTime(wakeUpTime);
              && sun.identifier == SUNLIGHT_ID && sun.title == "10 minutes left for sunlight"
              && sun.body == "Get outside for 5 minutes of morning sun."
              && 0 <= sun.hour < 24 && 0 <= sun.minute < 60
              && sun.hour * 60 + sun.minute == (h * 60 + m + SUNLIGHT_OFFSET) % MINUTES_PER_DAY
    {
      Cancel(WAKE_ID);
      Cancel(SUNLIGHT_ID);
      var kept := pending;
      var (wakeHour, wakeMin) := ParseTime(wakeUpTime);
      var wakeReminderHour, wakeReminderMin := OffsetTime(wakeHour, wakeMin, WAKE_OFFSET);
      Schedule(WAKE_ID, "Rise and shine!", "Tap to confirm you're up, and grab a glass of water.", wakeReminderHour, wakeReminderMin);
      var sunlightHour, sunlightMin := OffsetTime(wakeHour, wakeMin, SUNLIGHT_OFFSET);
      Schedule(SUNLIGHT_ID, "10 minutes left for sunlight", "Get outside for 5 minutes of morning sun.", sunlightHour, sunlightMin);
      assert pending[..|pending| - 2] == kept;
    }
  }

  /** A wake-up time late in the evening puts the sunlight reminder just after midnight. */
  method LateWakeUpWrapsToMidnight() returns (hour: nat, minute: nat)
    ensures hour == 0 && minute == 10
  {
    hour, minute := OffsetTime(23, 50, SUNLIGHT_OFFSET);
  }
}
