/**
 * The week view: seven day columns from the start to the end of the current week, an
 * all-day row, and one row per hour from 6 to 21. Its day filter compares raw
 * timestamps instead of truncating to the start of the day as the hook does.
 */
module WeekGrid {
  import opened Wrappers
  import opened Text
  import opened Dates
  import opened Events
  import opened Cells

  /** `HOURS`: 6 AM to 9 PM. */
  const Hours: seq<int> := seq(16, i => i + 6)

  lemma HoursRange()
    ensures |Hours| == 16
    ensures forall h :: h in Hours <==> 6 <= h <= 21
  {
    assert forall i :: 0 <= i < 16 ==> Hours[i] == i + 6;
    forall h | 6 <= h <= 21
      ensures h in Hours
    {
      assert Hours[h - 6] == h;
    }
  }

  /** The seven days from `startOfWeek(currentDate)` to `endOfWeek(currentDate)`. */
  function WeekDays(current: Moment): (days: seq<Day>)
    ensures |days| == 7 && Weekday(days[0]) == 0
    ensures forall i :: 0 <= i < 7 ==> DayNumber(days[i]) == DayNumber(current.date) - Weekday(current.date) + i
  {
    var start, end := StartOfWeek(current.date), EndOfWeek(current.date);
    WeekOfDays(start, end, current.date);
    EachDay(start, end)
  }

  lemma WeekOfDays(start: Day, end: Day, d: Day)
    requires DayNumber(start) == DayNumber(d) - Weekday(d) && Weekday(start) == 0
    requires DayNumber(end) == DayNumber(start) + 6
    ensures var days := EachDay(start, end);
      |days| == 7 && Weekday(days[0]) == 0
      && forall i :: 0 <= i < 7 ==> DayNumber(days[i]) == DayNumber(d) - Weekday(d) + i
  {
    DayNumberInjective(EachDay(start, end)[0], start);
  }

  /** The week shown contains the current date, in the column of its weekday. */
  lemma WeekContainsCurrent(current: Moment)
    ensures WeekDays(current)[Weekday(current.date)] == current.date
  {
    var days, w := WeekDays(current), Weekday(current.date);
    DayNumberInjective(days[w], current.date);
  }

  /** The shared day test of `getEventsForDayAndHour` and `getAllDayEvents`: the same day,
      or a repeating event whose start is not after `day` and whose end is not before it,
      compared as raw instants. */
  predicate MatchesDay(e: Event, day: Moment) {
    if IsSameDay(e.date, day) then true
    else if e.recurrence == NoRepeat then false
    else if Timestamp(day) < Timestamp(e.date) then false
    else if e.endDate.Some? && Timestamp(day) > Timestamp(e.endDate.value) then false
    else
      match e.recurrence
      case Daily => true
      case Weekly => Weekday(e.date.date) == Weekday(day.date)
      case Monthly => e.date.date.day == day.date.day
      case NoRepeat => false
  }

  /** `parseInt(event.time.split(':')[0], 10)`; `None` is NaN. */
  function EventHour(time: string): Option<int> {
    ParseInt(Split(time, ':')[0])
  }

  /** The hour slot an event goes to: 9 when it has no time. */
  predicate InHourSlot(e: Event, hour: int) {
    if HasNoTime(e) then hour == 9 else EventHour(e.time.value) == Some(hour)
  }

  /** `getEventsForDayAndHour`. */
  function EventsForDayAndHour(events: seq<Event>, day: Moment, hour: int): (r: seq<Event>)
    ensures |r| <= |events|
    ensures forall x :: x in r <==> x in events && MatchesDay(x, day) && InHourSlot(x, hour)
  {
    if events == [] then []
    else
      var keep := MatchesDay(events[0], day) && InHourSlot(events[0], hour);
      (if keep then [events[0]] else []) + EventsForDayAndHour(events[1..], day, hour)
  }

  /** `getAllDayEvents`. */
  function AllDayEvents(events: seq<Event>, day: Moment): (r: seq<Event>)
    ensures |r| <= |events|
    ensures forall x :: x in r <==> x in events && MatchesDay(x, day) && HasNoTime(x)
  {
    if events == [] then []
    else
      var keep := MatchesDay(events[0], day) && HasNoTime(events[0]);
      (if keep then [events[0]] else []) + AllDayEvents(events[1..], day)
  }

  /** A midnight compared with an instant. */
  lemma MidnightAgainst(d: Day, i: Moment)
    ensures Timestamp(Midnight(d)) < Timestamp(i) <==> DayNumber(d) < DayNumber(i.date) || (d == i.date && i.ms > 0)
    ensures Timestamp(Midnight(d)) > Timestamp(i) <==> DayNumber(d) > DayNumber(i.date)
  {
    if DayNumber(d) == DayNumber(i.date) {
      DayNumberInjective(d, i.date);
    }
  }

  /** On the midnights the grid uses as days, its day test agrees with `isEventOnDate`. */
  lemma AgreesWithHookAtMidnight(e: Event, d: Day)
    ensures MatchesDay(e, Midnight(d)) <==> IsEventOnDate(e, Midnight(d))
  {
    OccurrenceRule(e, Midnight(d));
    MidnightAgainst(d, e.date);
    if e.endDate.Some? {
      MidnightAgainst(d, e.endDate.value);
    }
  }

  /** Handed an instant later in the day than the end date's time, the grid's raw
      comparison drops the end day that `isEventOnDate` keeps. */
  lemma DivergesOffMidnight()
    ensures var e := Event("e", "Daily", At(2024, 3, 4), None, Primary, Daily,
                           Some(At(2024, 3, 10)), None, None, None);
            var noon := Instant(Date(2024, 3, 10), 12 * HourMs);
            IsEventOnDate(e, noon) && !MatchesDay(e, noon)
  {
    var e := Event("e", "Daily", At(2024, 3, 4), None, Primary, Daily,
                   Some(At(2024, 3, 10)), None, None, None);
    var noon := Instant(Date(2024, 3, 10), 12 * HourMs);
    assert DayNumber(Date(2024, 3, 4)) < DayNumber(Date(2024, 3, 10)) by {
      MonthStep(2024, 3);
    }
    OccurrenceRule(e, noon);
  }

  /** A time written "HH:..." places the event in hour HH and in no other slot. */
  lemma SlotOfTime(e: Event, h: nat, rest: string, hour: int)
    requires h < 100 && e.time == Some(Pad2(h) + ":" + rest)
    ensures InHourSlot(e, hour) <==> hour == h
  {
    HourOfTime(h, rest);
  }

  lemma HourOfTime(h: nat, rest: string)
    requires h < 100
    ensures EventHour(Pad2(h) + ":" + rest) == Some(h)
  {
    Pad2OfSmall(h);
    HourOfDigits(Pad2(h), rest);
  }

  lemma HourOfDigits(p: string, rest: string)
    requires p != [] && AllDigits(p)
    ensures EventHour(p + ":" + rest) == Some(DigitsValue(p))
  {
    assert ':' !in p by {
      assert forall i :: 0 <= i < |p| ==> IsDigit(p[i]);
    }
    assert p + ":" + rest == p + [':'] + rest;
    SplitFirst(p, ':', rest);
    ParseIntOfDigits(p, []);
    assert p + [] == p;
  }

  /** A timed event whose hour is outside 6..21 (or not a number) is in no hour row. */
  lemma OutsideHoursNowhere(events: seq<Event>, e: Event, day: Moment)
    requires !HasNoTime(e)
    requires EventHour(e.time.value).None? || !(6 <= EventHour(e.time.value).value <= 21)
    ensures forall hour :: hour in Hours ==> e !in EventsForDayAndHour(events, day, hour)
  {
    HoursRange();
  }

  /** An untimed event of the day is in the 9 AM row and in the all-day row; the all-day
      row holds no timed event. */
  lemma UntimedPlacement(events: seq<Event>, e: Event, day: Moment)
    requires e in events && MatchesDay(e, day) && HasNoTime(e)
    ensures e in EventsForDayAndHour(events, day, 9) && e in AllDayEvents(events, day)
    ensures forall x :: x in AllDayEvents(events, day) ==> HasNoTime(x)
  {
  }

  /** `allday-${day.toISOString()}`. */
  function AllDayCellId(d: Day): string {
    "allday-" + IsoString(Midnight(d))
  }

  /** `${day.toISOString()}-${hour}`. */
  function HourCellId(d: Day, hour: int): string {
    IsoString(Midnight(d)) + "-" + IntToString(hour)
  }

  /** An all-day cell: at most one event drawn, "+(n-1)" when it holds n > 1. */
  function AllDayCell(events: seq<Event>, d: Day): (c: Cell<Event>)
    ensures c.id == AllDayCellId(d) && |c.shown| <= 1
    ensures c.more.Some? <==> |AllDayEvents(events, Midnight(d))| > 1
  {
    MakeCell(AllDayCellId(d), AllDayEvents(events, Midnight(d)), 1)
  }

  /** An hour cell: at most one event drawn, "+(n-1)" when it holds n > 1. */
  function HourCell(events: seq<Event>, d: Day, hour: int): (c: Cell<Event>)
    ensures c.id == HourCellId(d, hour) && |c.shown| <= 1
    ensures c.more.Some? <==> |EventsForDayAndHour(events, Midnight(d), hour)| > 1
  {
    MakeCell(HourCellId(d, hour), EventsForDayAndHour(events, Midnight(d), hour), 1)
  }
}
