/**
 * Calendar events and the in-memory event list of the `useCalendarEvents` hook: the
 * occurrence rule `isEventOnDate`, the day filter `getEventsForDate`, and the list updates
 * `addEvent` (append), `updateEvent` (spread-merge by id) and `removeEvent` (filter by id).
 */
module Events {
  import opened Wrappers
  import opened Text
  import opened Dates

  /** `RecurrenceType`: 'none' | 'daily' | 'weekly' | 'monthly'. */
  datatype Recurrence = NoRepeat | Daily | Weekly | Monthly

  /** `EventColor`. */
  datatype EventColor = Primary | Secondary | Accent | Destructive | Red | Orange | Amber
                      | Green | Blue | Indigo | Purple | Pink | Teal

  /** A `CalendarEvent`. An optional field that is absent and one that holds `undefined`
      read the same everywhere, so both are `None`. The reminder fields are not declared
      in the event type but are written by the edit form and read by the reminder
      scheduler. */
  datatype Event = Event(
    id: string,
    title: string,
    date: Moment,
    time: Option<string>,
    color: EventColor,
    recurrence: Recurrence,
    endDate: Option<Moment>,
    meetingLink: Option<string>,
    reminderEnabled: Option<bool>,
    reminderMinutes: Option<int>)

  /** `Omit<CalendarEvent, 'id'>`: what `addEvent` receives. */
  datatype Draft = Draft(
    title: string,
    date: Moment,
    time: Option<string>,
    color: EventColor,
    recurrence: Recurrence,
    endDate: Option<Moment>,
    meetingLink: Option<string>,
    reminderEnabled: Option<bool>,
    reminderMinutes: Option<int>)

  /** `{ ...draft, id }`. */
  function WithId(d: Draft, id: string): Event {
    Event(id, d.title, d.date, d.time, d.color, d.recurrence, d.endDate, d.meetingLink,
          d.reminderEnabled, d.reminderMinutes)
  }

  /** The event without its id. */
  function DraftOf(e: Event): Draft {
    Draft(e.title, e.date, e.time, e.color, e.recurrence, e.endDate, e.meetingLink,
          e.reminderEnabled, e.reminderMinutes)
  }

  /** Giving a draft an id and taking it away again are inverse. */
  lemma WithIdRoundTrip(d: Draft, e: Event, id: string)
    ensures DraftOf(WithId(d, id)) == d && WithId(d, id).id == id
    ensures WithId(DraftOf(e), e.id) == e
  {
  }

  /** `!event.time`: no time, or the empty string. */
  predicate HasNoTime(e: Event) {
    e.time.None? || e.time.value == ""
  }

  // ---------------------------------------------------------------- occurrence rule

  /** `isEventOnDate`: both instants are truncated to the start of their day and compared
      as timestamps. */
  predicate IsEventOnDate(e: Event, date: Moment) {
    var eventDate := StartOfDay(e.date);
    var checkDate := StartOfDay(date);
    if IsSameDay(eventDate, checkDate) then true
    else if Timestamp(checkDate) < Timestamp(eventDate) then false
    else if e.endDate.Some? && Timestamp(checkDate) > Timestamp(StartOfDay(e.endDate.value)) then false
    else
      match e.recurrence
      case Daily => true
      case Weekly => Weekday(eventDate.date) == Weekday(checkDate.date)
      case Monthly => eventDate.date.day == checkDate.date.day
      case NoRepeat => false
  }

  /** Whether a recurrence anchored at `start` repeats on day d (ignoring the window). */
  predicate RepeatsOn(r: Recurrence, start: Day, d: Day) {
    match r
    case NoRepeat => false
    case Daily => true
    case Weekly => Weekday(start) == Weekday(d)
    case Monthly => start.day == d.day
  }

  /** After the start day, and on or before the end day when there is one. */
  predicate InRepeatWindow(e: Event, d: Day) {
    DayNumber(e.date.date) < DayNumber(d)
    && (e.endDate.None? || DayNumber(d) <= DayNumber(e.endDate.value.date))
  }

  /** Timestamps of midnights compare like day numbers. */
  lemma MidnightOrder(a: Day, b: Day)
    ensures Timestamp(Midnight(a)) < Timestamp(Midnight(b)) <==> DayNumber(a) < DayNumber(b)
    ensures Timestamp(Midnight(a)) > Timestamp(Midnight(b)) <==> DayNumber(a) > DayNumber(b)
  {
  }

  /** The occurrence rule in calendar terms: an event occurs on its start day, and on the
      days of its repeat window on which its recurrence repeats. */
  lemma OccurrenceRule(e: Event, date: Moment)
    ensures IsEventOnDate(e, date) <==>
      date.date == e.date.date || (InRepeatWindow(e, date.date) && RepeatsOn(e.recurrence, e.date.date, date.date))
  {
    MidnightOrder(date.date, e.date.date);
    if e.endDate.Some? {
      MidnightOrder(date.date, e.endDate.value.date);
    }
    if DayNumber(date.date) == DayNumber(e.date.date) {
      DayNumberInjective(date.date, e.date.date);
    }
  }

  /** An event always occurs on its own start day, whatever its recurrence or end date. */
  lemma OccursOnStartDay(e: Event, date: Moment)
    requires date.date == e.date.date
    ensures IsEventOnDate(e, date)
  {
  }

  /** No event occurs on a day before its start day. */
  lemma NeverBeforeStart(e: Event, date: Moment)
    requires DayNumber(date.date) < DayNumber(e.date.date)
    ensures !IsEventOnDate(e, date)
  {
    OccurrenceRule(e, date);
  }

  /** No occurrence falls after the end day (other than the start day itself). */
  lemma NeverAfterEnd(e: Event, date: Moment)
    requires e.endDate.Some? && DayNumber(date.date) > DayNumber(e.endDate.value.date)
    requires date.date != e.date.date
    ensures !IsEventOnDate(e, date)
  {
    OccurrenceRule(e, date);
  }

  /** The end day itself is still an occurrence of a daily event. */
  lemma EndDayIncluded(e: Event, date: Moment)
    requires e.recurrence == Daily && e.endDate.Some? && date.date == e.endDate.value.date
    requires DayNumber(e.date.date) <= DayNumber(date.date)
    ensures IsEventOnDate(e, date)
  {
    OccurrenceRule(e, date);
  }

  /** A non-repeating event occurs exactly on its start day. */
  lemma NoRepeatOnlyOnStartDay(e: Event, date: Moment)
    requires e.recurrence == NoRepeat
    ensures IsEventOnDate(e, date) <==> date.date == e.date.date
  {
    OccurrenceRule(e, date);
  }

  /** Inside the repeat window: daily matches every day, weekly matches the start's
      weekday, monthly matches the start's day of the month. */
  lemma InsideWindow(e: Event, date: Moment)
    requires InRepeatWindow(e, date.date)
    ensures e.recurrence == Daily ==> IsEventOnDate(e, date)
    ensures e.recurrence == Weekly ==> (IsEventOnDate(e, date) <==> Weekday(date.date) == Weekday(e.date.date))
    ensures e.recurrence == Monthly ==> (IsEventOnDate(e, date) <==> date.date.day == e.date.date.day)
  {
    OccurrenceRule(e, date);
  }

  /** A monthly event anchored on the 31st skips every shorter month: there is no clamping. */
  lemma MonthlySkipsShortMonths(e: Event, date: Moment)
    requires e.recurrence == Monthly && e.date.date.day == 31
    requires DaysInMonth(date.date.year, date.date.month) < 31
    ensures !IsEventOnDate(e, date)
  {
    OccurrenceRule(e, date);
  }

  function At(y: int, m: int, d: int): Moment
    requires ValidDate(Date(y, m, d))
  {
    Midnight(Date(y, m, d))
  }

  /** A weekly event from Monday 2024-03-04 until 2024-04-01 occurs on the Mondays of
      that window, the end day included, and on no other day. */
  lemma WeeklyUntilExample(e: Event)
    requires e.date == At(2024, 3, 4) && e.recurrence == Weekly && e.endDate == Some(At(2024, 4, 1))
    ensures IsEventOnDate(e, At(2024, 3, 11)) && IsEventOnDate(e, At(2024, 3, 18))
    ensures IsEventOnDate(e, At(2024, 3, 25)) && IsEventOnDate(e, At(2024, 4, 1))
    ensures !IsEventOnDate(e, At(2024, 3, 5)) && !IsEventOnDate(e, At(2024, 4, 8))
    ensures !IsEventOnDate(e, At(2024, 2, 26))
  {
    var march, april := Date(2024, 3, 4), Date(2024, 4, 1);
    MonthStep(2024, 3);
    MonthStep(2024, 2);
    assert DayNumber(april) == DayNumber(march) + 28;
    WeeklyDay(e, At(2024, 3, 11), 7);
    WeeklyDay(e, At(2024, 3, 18), 14);
    WeeklyDay(e, At(2024, 3, 25), 21);
    WeeklyDay(e, At(2024, 4, 1), 28);
    WeeklyDay(e, At(2024, 3, 5), 1);
    WeeklyDay(e, At(2024, 4, 8), 35);
    WeeklyDay(e, At(2024, 2, 26), -7);
  }

  /** A weekly event whose end day is four weeks after its start, on the day k days after
      its start: it occurs exactly on the five Mondays-apart days 0, 7, ..., 28. */
  lemma WeeklyDay(e: Event, m: Moment, k: int)
    requires e.recurrence == Weekly && e.endDate.Some?
    requires DayNumber(e.endDate.value.date) == DayNumber(e.date.date) + 28
    requires DayNumber(m.date) == DayNumber(e.date.date) + k
    ensures IsEventOnDate(e, m) <==> 0 <= k <= 28 && k % 7 == 0
  {
    var start := e.date.date;
    OccurrenceRule(e, m);
    WeekdayShift(start, m.date, k);
    SameWeekdayAfter(Weekday(start), k);
    assert RepeatsOn(Weekly, start, m.date) <==> k % 7 == 0;
    assert InRepeatWindow(e, m.date) <==> 0 < k <= 28;
    if k == 0 {
      DayNumberInjective(m.date, start);
    } else {
      assert m.date != start;
    }
  }

  /** Moving k days keeps the weekday exactly when k is a whole number of weeks. */
  lemma SameWeekdayAfter(w: int, k: int)
    requires 0 <= w < 7
    ensures (w + k) % 7 == w <==> k % 7 == 0
  {
    var q, r := k / 7, k % 7;
    assert w + k == 7 * q + (w + r);
    ModSevenShift(w + r, 7 * q);
    assert (7 * q) % 7 == 0;
    if r == 0 {
      assert (w + k) % 7 == w % 7;
    } else {
      assert (w + r) % 7 != w;
    }
  }

  // ---------------------------------------------------------------- queries and updates

  /** `getEventsForDate`: the events that occur on the day of `date`. */
  function EventsForDate(events: seq<Event>, date: Moment): (r: seq<Event>)
    ensures |r| <= |events|
    ensures forall x :: x in r <==> x in events && IsEventOnDate(x, date)
  {
    if events == [] then []
    else (if IsEventOnDate(events[0], date) then [events[0]] else []) + EventsForDate(events[1..], date)
  }

  /** The day filter keeps relative order: filtering a concatenation filters each part. */
  lemma {:induction false} EventsForDateAppend(a: seq<Event>, b: seq<Event>, date: Moment)
    ensures EventsForDate(a + b, date) == EventsForDate(a, date) + EventsForDate(b, date)
  {
    if a != [] {
      assert (a + b)[1..] == a[1..] + b;
      EventsForDateAppend(a[1..], b, date);
    } else {
      assert a + b == b;
    }
  }

  /** `Partial<Omit<CalendarEvent, 'id'>>`. For a required field, `None` means the key is
      absent. For an optional field, `None` means absent, `Some(None)` means present with
      value `undefined`, and `Some(Some(v))` means present with value v. */
  datatype Patch = Patch(
    title: Option<string>,
    date: Option<Moment>,
    time: Option<Option<string>>,
    color: Option<EventColor>,
    recurrence: Option<Recurrence>,
    endDate: Option<Option<Moment>>,
    meetingLink: Option<Option<string>>,
    reminderEnabled: Option<Option<bool>>,
    reminderMinutes: Option<Option<int>>)

  const EmptyPatch := Patch(None, None, None, None, None, None, None, None, None)

  /** `{ ...event, ...updates }`: every key present in the patch wins. */
  function Merge(e: Event, p: Patch): (r: Event)
    ensures r.id == e.id
  {
    Event(e.id,
          p.title.GetOr(e.title),
          p.date.GetOr(e.date),
          p.time.GetOr(e.time),
          p.color.GetOr(e.color),
          p.recurrence.GetOr(e.recurrence),
          p.endDate.GetOr(e.endDate),
          p.meetingLink.GetOr(e.meetingLink),
          p.reminderEnabled.GetOr(e.reminderEnabled),
          p.reminderMinutes.GetOr(e.reminderMinutes))
  }

  /** Merging nothing changes nothing; merging the same patch twice is merging it once. */
  lemma MergeLaws(e: Event, p: Patch)
    ensures Merge(e, EmptyPatch) == e
    ensures Merge(Merge(e, p), p) == Merge(e, p)
  {
  }

  /** The list after `updateEvent(id, p)`: the patch merged into every event with that id. */
  function UpdateAll(events: seq<Event>, id: string, p: Patch): (r: seq<Event>)
    ensures |r| == |events|
    ensures forall i :: 0 <= i < |r| ==> r[i].id == events[i].id
  {
    if events == [] then []
    else [if events[0].id == id then Merge(events[0], p) else events[0]] + UpdateAll(events[1..], id, p)
  }

  /** What `updateEvent` does at each position. */
  lemma {:induction false} UpdateAllAt(events: seq<Event>, id: string, p: Patch, i: nat)
    requires i < |events|
    ensures UpdateAll(events, id, p)[i] == if events[i].id == id then Merge(events[i], p) else events[i]
  {
    if i > 0 {
      UpdateAllAt(events[1..], id, p, i - 1);
    }
  }

  /** Updating an id that no event has leaves the list as it is. */
  lemma {:induction false} UpdateAbsentId(events: seq<Event>, id: string, p: Patch)
    requires forall x :: x in events ==> x.id != id
    ensures UpdateAll(events, id, p) == events
  {
    if events != [] {
      UpdateAbsentId(events[1..], id, p);
    }
  }

  /** The list after `removeEvent(id)`. */
  function RemoveAll(events: seq<Event>, id: string): (r: seq<Event>)
    ensures |r| <= |events|
    ensures forall x :: x in r <==> x in events && x.id != id
  {
    if events == [] then []
    else (if events[0].id != id then [events[0]] else []) + RemoveAll(events[1..], id)
  }

  /** Removal keeps the survivors in order: removing from a concatenation removes from
      each part. */
  lemma {:induction false} RemoveAllAppend(a: seq<Event>, b: seq<Event>, id: string)
    ensures RemoveAll(a + b, id) == RemoveAll(a, id) + RemoveAll(b, id)
  {
    if a != [] {
      assert (a + b)[1..] == a[1..] + b;
      RemoveAllAppend(a[1..], b, id);
    } else {
      assert a + b == b;
    }
  }

  /** Removing an id that no event has leaves the list as it is. */
  lemma {:induction false} RemoveAbsentId(events: seq<Event>, id: string)
    requires forall x :: x in events ==> x.id != id
    ensures RemoveAll(events, id) == events
  {
    if events != [] {
      RemoveAbsentId(events[1..], id);
    }
  }

  /** The midnight k days after today's day: `new Date(y, m, d + k)`. */
  function DayAfter(today: Moment, k: int): (r: Moment)
    ensures r.ms == 0 && DayNumber(r.date) == DayNumber(today.date) + k
  {
    Midnight(AddDays(today.date, k))
  }

  /** The k-th of the eight events the hook starts with, placed around `today`. */
  function SampleEvent(today: Moment, k: int, id: string): (e: Event)
    requires 0 <= k < 8
    ensures e.id == id
  {
    if k == 0 then
      Event(id, "Team Meeting", today, Some("10:00"), Primary, Weekly,
            Some(AddWeeks(today, 4)), Some("https://zoom.us/j/123456789"), None, None)
    else if k == 1 then
      Event(id, "Lunch with Sarah", today, Some("12:30"), Secondary, NoRepeat, None, None, None, None)
    else if k == 2 then
      Event(id, "Project Review", DayAfter(today, 1), Some("14:00"), Accent, NoRepeat,
            None, Some("https://meet.google.com/abc-defg-hij"), None, None)
    else if k == 3 then
      Event(id, "Client Call", DayAfter(today, 2), Some("09:30"), Destructive, NoRepeat,
            None, Some("https://teams.microsoft.com/meet/123"), None, None)
    else if k == 4 then
      Event(id, "Gym Session", DayAfter(today, 1), Some("07:00"), Primary, Daily,
            Some(AddWeeks(today, 2)), None, None, None)
    else if k == 5 then
      Event(id, "Birthday Party", DayAfter(today, 5), Some("18:00"), Secondary, NoRepeat,
            None, None, None, None)
    else if k == 6 then
      Event(id, "Doctor Appointment", DayAfter(today, 3), Some("11:00"), Destructive, NoRepeat,
            None, None, None, None)
    else
      Event(id, "Weekly Standup", DayAfter(today, -1), Some("09:00"), Accent, Weekly,
            None, Some("https://zoom.us/j/987654321"), None, None)
  }

  /** The eight events the hook starts with. */
  function SampleEvents(today: Moment, ids: seq<string>): (r: seq<Event>)
    requires |ids| == 8
    ensures |r| == 8 && forall i :: 0 <= i < 8 ==> r[i].id == ids[i]
  {
    seq(8, i requires 0 <= i < 8 => SampleEvent(today, i, ids[i]))
  }

  /** The hook's `events` state. The random `generateId` is replaced by ids the caller
      supplies. */
  class EventStore {
    var events: seq<Event>

    /** The initial state: the sample events around `today`. */
    constructor (today: Moment, ids: seq<string>)
      requires |ids| == 8
      ensures events == SampleEvents(today, ids)
    {
      events := SampleEvents(today, ids);
    }

    /** `addEvent`: append the draft under a fresh id. */
    method AddEvent(d: Draft, freshId: string)
      modifies this
      ensures events == old(events) + [WithId(d, freshId)]
      ensures events[|events| - 1].id == freshId && |events| == |old(events)| + 1
    {
      events := events + [WithId(d, freshId)];
    }

    /** `updateEvent`: merge the patch into every event with the id. */
    method UpdateEvent(id: string, p: Patch)
      modifies this
      ensures events == UpdateAll(old(events), id, p)
    {
      events := UpdateAll(events, id, p);
    }

    /** `removeEvent`: keep the events whose id differs. */
    method RemoveEvent(id: string)
      modifies this
      ensures events == RemoveAll(old(events), id)
      ensures forall x :: x in events ==> x.id != id
    {
      events := RemoveAll(events, id);
    }
  }
}
