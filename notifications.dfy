/**
 * Reminders. Whenever the event list changes, every pending timer is cleared and a timer
 * is set, keyed by event id, for each event with its reminder on and a time, whose
 * reminder instant (the event's day at HH:MM, minus the reminder minutes) is less than a
 * day ahead. The clock reading `now` is a parameter and a timer is represented by its delay.
 */
module Notifications {
  import opened Wrappers
  import opened Text
  import opened Dates
  import opened Events

  /** JavaScript's `a % b` for b > 0: the remainder takes the sign of `a`. */
  function JsRem(a: int, b: int): (r: int)
    requires b > 0
    ensures a >= 0 ==> r == a % b
    ensures -b < r < b
  {
    if a >= 0 then a % b else -((-a) % b)
  }

  /** `time.split(':').map(Number)`: the hour and minute fields, `None` standing for NaN.
      For a time without ':' the array has one element and `minutes` is `undefined`, which
      `setHours` turns into NaN; it is `None` here as well. */
  function ClockFields(time: string): (Option<int>, Option<int>) {
    var parts := Split(time, ':');
    (NumberOf(parts[0]), if |parts| >= 2 then NumberOf(parts[1]) else None)
  }

  /** `formatEventTime`: a 12-hour clock; a NaN hour reads as 12 AM and a NaN minute
      as "NaN". A time without ':' leaves `minutes` undefined, and `minutes.toString()`
      throws: `None`. */
  function FormatEventTime(time: string): (r: Option<string>)
    ensures r.None? <==> ':' !in time
    ensures r.Some? ==> var hours := ClockFields(time).0;
      |r.value| >= 2 && r.value[|r.value| - 2..] == if hours.Some? && hours.value >= 12 then "PM" else "AM"
  {
    if |Split(time, ':')| < 2 then None
    else
      var (hours, minutes) := ClockFields(time);
      var period := if hours.Some? && hours.value >= 12 then "PM" else "AM";
      var displayHours := if hours.None? || JsRem(hours.value, 12) == 0 then 12 else JsRem(hours.value, 12);
      var minuteText := if minutes.None? then "NaN" else PadStart(IntToString(minutes.value), 2, '0');
      Some(IntToString(displayHours) + ":" + minuteText + " " + period)
  }

  /** The hour on a 12-hour clock face. */
  function TwelveHour(h: nat): (r: nat)
    ensures 1 <= r <= 12
    ensures r % 12 == h % 12
  {
    if h % 12 == 0 then 12 else h % 12
  }

  /** A time stored as "HH:MM" reads as the 12-hour clock: hours 0 and 12 show as 12, PM
      exactly from noon, minutes in two digits. */
  lemma FormatOfClockTime(h: nat, m: nat)
    requires h < 24 && m < 60
    ensures FormatEventTime(Pad2(h) + ":" + Pad2(m))
      == Some(IntToString(TwelveHour(h)) + ":" + Pad2(m) + " " + (if h >= 12 then "PM" else "AM"))
  {
    ClockFieldsOf(h, m);
  }

  lemma ClockFieldsOf(h: nat, m: nat)
    requires h < 100 && m < 100
    ensures ClockFields(Pad2(h) + ":" + Pad2(m)) == (Some(h), Some(m))
  {
    Pad2OfSmall(h);
    Pad2OfSmall(m);
    DigitsSplit(Pad2(h), Pad2(m));
    NumberOfDigits(Pad2(h));
    NumberOfDigits(Pad2(m));
  }

  lemma DigitsSplit(p: string, q: string)
    requires AllDigits(p) && AllDigits(q)
    ensures Split(p + ":" + q, ':') == [p, q]
  {
    assert ':' !in p by {
      assert forall i :: 0 <= i < |p| ==> IsDigit(p[i]);
    }
    assert ':' !in q by {
      assert forall i :: 0 <= i < |q| ==> IsDigit(q[i]);
    }
    assert p + ":" + q == p + [':'] + q;
    SplitTwo(p, ':', q);
  }

  // ---------------------------------------------------------------- scheduling

  /** `event.reminderMinutes || 15`: absent and 0 both mean 15. */
  function ReminderMinutes(e: Event): (r: int)
    ensures r != 0
    ensures e.reminderMinutes.Some? && e.reminderMinutes.value != 0 ==> r == e.reminderMinutes.value
  {
    if e.reminderMinutes.None? || e.reminderMinutes.value == 0 then 15 else e.reminderMinutes.value
  }

  /** The delay from `now` to the event's reminder, or `None` when the event is skipped
      (reminder off or no time) or its time does not read as numbers (an invalid date,
      whose delay compares false with everything). */
  function ReminderDelay(e: Event, now: int): (r: Option<int>)
    ensures e.reminderEnabled != Some(true) || HasNoTime(e) ==> r.None?
  {
    if e.reminderEnabled != Some(true) || HasNoTime(e) then None
    else
      var (hours, minutes) := ClockFields(e.time.value);
      if hours.None? || minutes.None? then None
      else
        var eventTime := Timestamp(StartOfDay(e.date)) + hours.value * HourMs + minutes.value * MinuteMs;
        Some(eventTime - ReminderMinutes(e) * MinuteMs - now)
  }

  /** Whether a timer is set for the event: the delay is positive and under 24 hours. */
  predicate Schedules(e: Event, now: int) {
    var d := ReminderDelay(e, now);
    d.Some? && 0 < d.value < DayMs
  }

  /** For a time "HH:MM", the reminder falls `reminderMinutes` (15 when unset or 0) before
      HH:MM on the event's day. */
  lemma DelayOfClockTime(e: Event, h: nat, m: nat, now: int)
    requires h < 24 && m < 60
    requires e.reminderEnabled == Some(true) && e.time == Some(Pad2(h) + ":" + Pad2(m))
    ensures ReminderDelay(e, now)
      == Some(Timestamp(StartOfDay(e.date)) + h * HourMs + m * MinuteMs - ReminderMinutes(e) * MinuteMs - now)
  {
    ClockFieldsOf(h, m);
    DelayOfFields(e, e.time.value, h, m, now);
  }

  lemma DelayOfFields(e: Event, t: string, h: int, m: int, now: int)
    requires e.reminderEnabled == Some(true) && e.time == Some(t) && t != ""
    requires ClockFields(t) == (Some(h), Some(m))
    ensures ReminderDelay(e, now)
      == Some(Timestamp(StartOfDay(e.date)) + h * HourMs + m * MinuteMs - ReminderMinutes(e) * MinuteMs - now)
  {
  }

  /** The timers left by setting, one event after the other, the timer `timer` asks for
      (none for `None`). A later event with the same id replaces the map entry; the earlier
      timer is not cancelled, and only the map is modelled. */
  function SetTimers(events: seq<Event>, timer: Event -> Option<int>): map<string, int> {
    if events == [] then map[]
    else
      var timers := SetTimers(events[..|events| - 1], timer);
      var e := events[|events| - 1];
      match timer(e)
      case None => timers
      case Some(d) => timers[e.id := d]
  }

  /** An id has a timer exactly when some event with that id asks for one. */
  lemma {:induction false} SetTimersKeys(events: seq<Event>, timer: Event -> Option<int>, k: string)
    ensures k in SetTimers(events, timer) <==> exists i :: 0 <= i < |events| && events[i].id == k && timer(events[i]).Some?
  {
    if events != [] {
      var n := |events| - 1;
      var init := events[..n];
      SetTimersKeys(init, timer, k);
      assert forall i :: 0 <= i < n ==> init[i] == events[i];
    }
  }

  /** Every timer is one that some event asked for. */
  lemma {:induction false} SetTimersValues(events: seq<Event>, timer: Event -> Option<int>, k: string)
    requires k in SetTimers(events, timer)
    ensures exists i :: 0 <= i < |events| && timer(events[i]) == Some(SetTimers(events, timer)[k])
  {
    var n := |events| - 1;
    var init := events[..n];
    if timer(events[n]).Some? && events[n].id == k {
      assert timer(events[n]) == Some(SetTimers(events, timer)[k]);
    } else {
      SetTimersValues(init, timer, k);
      var i :| 0 <= i < n && timer(init[i]) == Some(SetTimers(init, timer)[k]);
      assert init[i] == events[i];
    }
  }

  /** The timer of an id is the one asked for by the last event with the id that asks. */
  lemma {:induction false} SetTimersLast(events: seq<Event>, timer: Event -> Option<int>, i: nat)
    requires i < |events| && timer(events[i]).Some?
    requires forall j :: i < j < |events| && events[j].id == events[i].id ==> timer(events[j]).None?
    ensures events[i].id in SetTimers(events, timer)
    ensures SetTimers(events, timer)[events[i].id] == timer(events[i]).value
  {
    var init := events[..|events| - 1];
    if i < |events| - 1 {
      assert init[i] == events[i];
      SetTimersLast(init, timer, i);
    }
  }

  /** The timer for an event: its reminder delay when that is positive and under a day. */
  function TimerOf(e: Event, now: int): (r: Option<int>)
    ensures r.Some? <==> Schedules(e, now)
    ensures r.Some? ==> r == ReminderDelay(e, now) && 0 < r.value < DayMs
  {
    var d := ReminderDelay(e, now);
    if d.Some? && 0 < d.value < DayMs then d else None
  }

  /** The map of timers after scheduling `events` one after the other: a later event with
      the same id replaces the map entry (the earlier timer is not cancelled). */
  function ScheduleAll(events: seq<Event>, now: int): (timers: map<string, int>)
    ensures forall k :: k in timers ==> 0 < timers[k] < DayMs
  {
    var timers := SetTimers(events, e => TimerOf(e, now));
    assert forall k :: k in timers ==> 0 < timers[k] < DayMs by {
      forall k | k in timers
        ensures 0 < timers[k] < DayMs
      {
        SetTimersValues(events, e => TimerOf(e, now), k);
      }
    }
    timers
  }

  /** An id has a timer exactly when some event with that id qualifies. */
  lemma ScheduleAllKeys(events: seq<Event>, now: int, k: string)
    ensures k in ScheduleAll(events, now) <==> exists i :: 0 <= i < |events| && events[i].id == k && Schedules(events[i], now)
  {
    SetTimersKeys(events, e => TimerOf(e, now), k);
  }

  /** The timer of an id is that of the last qualifying event with the id. */
  lemma ScheduleAllLast(events: seq<Event>, now: int, i: nat)
    requires i < |events| && Schedules(events[i], now)
    requires forall j :: i < j < |events| && events[j].id == events[i].id ==> !Schedules(events[j], now)
    ensures events[i].id in ScheduleAll(events, now)
    ensures ScheduleAll(events, now)[events[i].id] == ReminderDelay(events[i], now).value
  {
    SetTimersLast(events, e => TimerOf(e, now), i);
  }

  /** Scheduling one more event of the list: its timer is set when it qualifies. */
  lemma ScheduleAllPrefix(events: seq<Event>, i: nat, now: int)
    requires i < |events|
    ensures ScheduleAll(events[..i + 1], now) ==
      if Schedules(events[i], now) then ScheduleAll(events[..i], now)[events[i].id := ReminderDelay(events[i], now).value]
      else ScheduleAll(events[..i], now)
  {
    assert events[..i + 1][..i] == events[..i];
  }

  /** An event with its reminder off, or without a time, never gets a timer of its own. */
  lemma SkippedEvents(e: Event, now: int)
    requires e.reminderEnabled != Some(true) || HasNoTime(e)
    ensures !Schedules(e, now)
  {
  }

  /** The scheduler's timer map. */
  class Scheduler {
    var scheduled: map<string, int>

    constructor ()
      ensures scheduled == map[]
    {
      scheduled := map[];
    }

    /** `scheduleNotifications`: clear every timer, then walk the events in order. The
        result depends only on the events and the clock, not on the timers before. */
    method ScheduleNotifications(events: seq<Event>, now: int)
      modifies this
      ensures scheduled == ScheduleAll(events, now)
    {
      scheduled := map[];
      var i := 0;
      while i < |events|
        invariant 0 <= i <= |events|
        invariant scheduled == ScheduleAll(events[..i], now)
      {
        var e := events[i];
        ScheduleAllPrefix(events, i, now);
        if e.reminderEnabled != Some(true) || HasNoTime(e) {
          SkippedEvents(e, now);
          i := i + 1;
          continue;
        }
        var delay := ReminderDelay(e, now);
        if delay.Some? && 0 < delay.value < DayMs {
          scheduled := scheduled[e.id := delay.value];
        }
        i := i + 1;
      }
      assert events[..i] == events;
    }

    /** `scheduledCount`. */
    method ScheduledCount() returns (n: nat)
      ensures n == |scheduled|
    {
      n := |scheduled|;
    }
  }

  const JoinHint := "🔗 Click to join meeting"
  const OpenHint := "Tap to open calendar"

  /** The meeting hint on the body's second line. */
  function Hint(e: Event): string {
    if e.meetingLink.Some? && e.meetingLink.value != "" then JoinHint else OpenHint
  }

  /** The notification body: the start time, or "soon" without one, then on a second line
      the meeting hint. `None` when formatting the time throws, so that no notification is
      shown. */
  function NotificationBody(e: Event): (body: Option<string>)
    ensures body.None? <==> !HasNoTime(e) && ':' !in e.time.value
    ensures body.Some? && !HasNoTime(e) ==> StartsWith(body.value, "Starting at " + FormatEventTime(e.time.value).value + "\n")
    ensures body.Some? && HasNoTime(e) ==> StartsWith(body.value, "Starting at soon\n")
    ensures body.Some? && e.meetingLink.Some? && e.meetingLink.value != "" ==> EndsWith(body.value, "\n" + JoinHint)
    ensures body.Some? && (e.meetingLink.None? || e.meetingLink.value == "") ==> EndsWith(body.value, "\n" + OpenHint)
  {
    var timeDisplay := if !HasNoTime(e) then FormatEventTime(e.time.value) else Some("soon");
    if timeDisplay.None? then None
    else
      var first, second := "Starting at " + timeDisplay.value, Hint(e);
      TwoLines(first, second);
      Some(first + "\n" + second)
  }

  /** Two lines joined by a line break start with the first and end with the second. */
  lemma TwoLines(first: string, second: string)
    ensures StartsWith(first + "\n" + second, first + "\n")
    ensures EndsWith(first + "\n" + second, "\n" + second)
  {
    var s := first + "\n" + second;
    assert s[..|first| + 1] == first + "\n";
    assert s[|s| - |"\n" + second|..] == "\n" + second;
  }
}
