/**
 * The month view: whole weeks from the start of the week holding the 1st of the month to
 * the end of the week holding its last day, one cell per day, showing only the events
 * that start on that day.
 */
module MonthGrid {
  import opened Wrappers
  import opened Dates
  import opened Events
  import opened Cells

  /** `startOfMonth`, as a day. */
  function FirstOfMonth(d: Day): (r: Day)
    ensures r.year == d.year && r.month == d.month && r.day == 1
  {
    Date(d.year, d.month, 1)
  }

  /** `endOfMonth`, as a day. */
  function LastOfMonth(d: Day): (r: Day)
    ensures r.year == d.year && r.month == d.month && r.day == DaysInMonth(d.year, d.month)
  {
    Date(d.year, d.month, DaysInMonth(d.year, d.month))
  }

  /** The days of `eachDayOfInterval({ start: startOfWeek(monthStart), end: endOfWeek(monthEnd) })`. */
  function GridDays(current: Moment): seq<Day> {
    EachDay(StartOfWeek(FirstOfMonth(current.date)), EndOfWeek(LastOfMonth(current.date)))
  }

  /** Within a month, day numbers advance with the day of the month. */
  lemma DayNumberInMonth(d: Day)
    ensures DayNumber(d) == DayNumber(FirstOfMonth(d)) + d.day - 1
  {
  }

  /** The week arithmetic of a month grid: from the Sunday on or before the 1st to the
      Saturday on or after the last day. */
  lemma WeeksSpanned(wf: int, dim: int, wl: int)
    requires 0 <= wf < 7 && 28 <= dim <= 31 && wl == (wf + dim - 1) % 7
    ensures var n := wf + dim - wl + 6; n % 7 == 0 && 28 <= n <= 42
  {
    var x := wf + dim - 1;
    assert x == 7 * (x / 7) + x % 7;
    assert 27 <= x <= 36;
    assert 3 <= x / 7 <= 5;
  }

  /** The grid is whole weeks starting on a Sunday: four, five or six of them. */
  lemma GridShape(current: Moment)
    ensures var days := GridDays(current);
      |days| % 7 == 0 && 28 <= |days| <= 42 && Weekday(days[0]) == 0
  {
    var first, last := FirstOfMonth(current.date), LastOfMonth(current.date);
    DayNumberInMonth(last);
    var start := StartOfWeek(first);
    GridLength(first, last, start, EndOfWeek(last), DaysInMonth(current.date.year, current.date.month));
  }

  lemma GridLength(first: Day, last: Day, start: Day, end: Day, dim: int)
    requires 28 <= dim <= 31 && DayNumber(last) == DayNumber(first) + dim - 1
    requires DayNumber(start) == DayNumber(first) - Weekday(first)
    requires DayNumber(end) == DayNumber(last) - Weekday(last) + 6
    ensures var days := EachDay(start, end);
      |days| % 7 == 0 && 28 <= |days| <= 42 && days[0] == start
  {
    WeekdayShift(first, last, dim - 1);
    WeeksSpanned(Weekday(first), dim, Weekday(last));
    DayNumberInjective(EachDay(start, end)[0], start);
  }

  /** Every day of the current month has a cell, in day order after the leading days of
      the previous month. */
  lemma GridCoversMonth(current: Moment, d: Day)
    requires d.year == current.date.year && d.month == current.date.month
    ensures var days := GridDays(current);
      var i := DayNumber(d) - DayNumber(StartOfWeek(FirstOfMonth(current.date)));
      0 <= i < |days| && days[i] == d
  {
    var first, last := FirstOfMonth(current.date), LastOfMonth(current.date);
    DayNumberInMonth(d);
    DayNumberInMonth(last);
    EachDayCovers(StartOfWeek(first), EndOfWeek(last), d);
  }

  /** `isSameMonth`. */
  predicate IsSameMonth(a: Day, b: Day) {
    a.year == b.year && a.month == b.month
  }

  /** A cell is marked as the current month exactly when its day lies between the 1st and
      the last day of the month. */
  lemma CurrentMonthFlag(current: Moment, d: Day)
    ensures IsSameMonth(d, current.date) <==>
      DayNumber(FirstOfMonth(current.date)) <= DayNumber(d) <= DayNumber(LastOfMonth(current.date))
  {
    var first, last := FirstOfMonth(current.date), LastOfMonth(current.date);
    DayNumberOrder(d, first);
    DayNumberOrder(last, d);
  }

  /** `getEventsForDay`: the events whose start is the same day; recurrence is not expanded. */
  function EventsForDay(events: seq<Event>, day: Moment): (r: seq<Event>)
    ensures |r| <= |events|
    ensures forall x :: x in r <==> x in events && x.date.date == day.date
  {
    if events == [] then []
    else (if events[0].date.date == day.date then [events[0]] else []) + EventsForDay(events[1..], day)
  }

  /** Every event the month grid shows on a day, the hook also lists for that day. */
  lemma MonthEventsAreHookEvents(events: seq<Event>, day: Moment)
    ensures forall x :: x in EventsForDay(events, day) ==> x in EventsForDate(events, day)
  {
    forall x | x in EventsForDay(events, day)
      ensures IsEventOnDate(x, day)
    {
      OccursOnStartDay(x, day);
    }
  }

  /** Without repeating events, the month grid and the hook list the same events in the
      same order. */
  lemma {:induction false} AgreesWithHookWithoutRepeats(events: seq<Event>, day: Moment)
    requires forall x :: x in events ==> x.recurrence == NoRepeat
    ensures EventsForDay(events, day) == EventsForDate(events, day)
  {
    if events != [] {
      NoRepeatOnlyOnStartDay(events[0], day);
      AgreesWithHookWithoutRepeats(events[1..], day);
    }
  }

  /** A repeating event is shown only on its start day, even on the days it repeats. */
  lemma RepeatsNotShown(events: seq<Event>, e: Event, day: Moment)
    requires e.recurrence == Daily && DayNumber(e.date.date) < DayNumber(day.date)
    requires e.endDate.None?
    ensures IsEventOnDate(e, day) && e !in EventsForDay(events, day)
  {
    OccurrenceRule(e, day);
  }

  /** `window.innerWidth < 640 ? 1 : 2`. */
  function Cap(innerWidth: int): nat {
    if innerWidth < 640 then 1 else 2
  }

  /** `month-${day.toISOString()}`. */
  function MonthCellId(d: Day): string {
    "month-" + IsoString(Midnight(d))
  }

  /** A month cell: at most `cap` events drawn, "+(n-cap)" exactly when it holds more. */
  function MonthCell(events: seq<Event>, d: Day, innerWidth: int): (c: Cell<Event>)
    ensures c.id == MonthCellId(d)
    ensures |c.shown| <= Cap(innerWidth)
    ensures c.more.Some? <==> |EventsForDay(events, Midnight(d))| > Cap(innerWidth)
  {
    MakeCell(MonthCellId(d), EventsForDay(events, Midnight(d)), Cap(innerWidth))
  }
}
