/**
 * The calendar header's title: "MMMM yyyy" in month view, and in week view the span of
 * the Sunday-to-Saturday week around the current date, "MMM d - d, yyyy" when the week
 * stays in one month and "MMM d - MMM d, yyyy" when it does not.
 */
module CalendarHeader {
  import opened Text
  import opened Dates
  import opened CalendarPage

  const MonthNames: seq<string> := ["January", "February", "March", "April", "May", "June", "July",
                                    "August", "September", "October", "November", "December"]

  /** The `MMMM` token. */
  function MonthName(m: int): string
    requires 1 <= m <= 12
  {
    MonthNames[m - 1]
  }

  /** The `MMM` token: the first three letters of the month's name. */
  function ShortMonth(m: int): string
    requires 1 <= m <= 12
  {
    MonthName(m)[..3]
  }

  /** The `yyyy` token: the year of the era (1 BC is year 1), at least four digits. */
  function YearText(y: int): (r: string)
    ensures |r| >= 4 && AllDigits(r)
    ensures y > 0 ==> DigitsValue(r) == y
  {
    var era := if y > 0 then y else 1 - y;
    ZeroPadValue(NatToString(era), 4);
    DigitsValueOfNatToString(era);
    PadStart(NatToString(era), 4, '0')
  }

  /** The `d` token: the day of the month, unpadded. */
  function DayText(d: Day): string {
    NatToString(d.day)
  }

  /** `getTitle`. */
  function Title(view: View, current: Moment): string {
    if view == MonthView then
      MonthName(current.date.month) + " " + YearText(current.date.year)
    else
      WeekTitle(StartOfWeek(current.date), EndOfWeek(current.date))
  }

  /** The week-view title of the week from ws to we. */
  function WeekTitle(ws: Day, we: Day): string {
    if ws.month == we.month then
      ShortMonth(ws.month) + " " + DayText(ws) + " - " + DayText(we) + ", " + YearText(we.year)
    else
      ShortMonth(ws.month) + " " + DayText(ws) + " - " + ShortMonth(we.month) + " " + DayText(we) + ", " + YearText(we.year)
  }

  // ---------------------------------------------------------------- weeks

  /** The day six days after a: later in the same month, or early in the next month (of the
      next year after December). */
  lemma SixDaysLater(a: Day, b: Day)
    requires DayNumber(b) == DayNumber(a) + 6
    ensures var dim := DaysInMonth(a.year, a.month);
      if a.day + 6 <= dim then b == Date(a.year, a.month, a.day + 6)
      else if a.month < 12 then b == Date(a.year, a.month + 1, a.day + 6 - dim)
      else b == Date(a.year + 1, 1, a.day + 6 - dim)
  {
    var dim := DaysInMonth(a.year, a.month);
    if a.day + 6 <= dim {
      var c: Day := Date(a.year, a.month, a.day + 6);
      DayNumberInjective(b, c);
    } else if a.month < 12 {
      var c: Day := Date(a.year, a.month + 1, a.day + 6 - dim);
      MonthStep(a.year, a.month);
      DayNumberInjective(b, c);
    } else {
      var c: Day := Date(a.year + 1, 1, a.day + 6 - dim);
      YearStep(a.year);
      DayNumberInjective(b, c);
    }
  }

  /** A week's Saturday is in the Sunday's month, in the next month of the same year, or
      in January of the next year; so the month check decides whether the week crosses a
      month boundary, and the year shown is always the Saturday's. */
  lemma WeekSpan(d: Day)
    ensures var ws, we := StartOfWeek(d), EndOfWeek(d);
      (ws.month == we.month && ws.year == we.year && we.day == ws.day + 6) ||
      (ws.month < 12 && we.month == ws.month + 1 && we.year == ws.year && we.day < 7) ||
      (ws.month == 12 && we.month == 1 && we.year == ws.year + 1 && we.day < 7)
  {
    SixDaysLater(StartOfWeek(d), EndOfWeek(d));
  }

  /** The week title of a week that runs into a new year names both months and the new
      year. */
  lemma NewYearWeekTitle(current: Moment)
    requires StartOfWeek(current.date).month == 12 && EndOfWeek(current.date).month == 1
    ensures Title(WeekView, current) ==
      "Dec " + DayText(StartOfWeek(current.date)) + " - Jan " + DayText(EndOfWeek(current.date)) + ", "
        + YearText(StartOfWeek(current.date).year + 1)
  {
    var ws, we := StartOfWeek(current.date), EndOfWeek(current.date);
    WeekSpan(current.date);
    DecemberToJanuaryTitle(ws, we);
  }

  lemma DecemberToJanuaryTitle(ws: Day, we: Day)
    requires ws.month == 12 && we.month == 1
    ensures WeekTitle(ws, we) == "Dec " + DayText(ws) + " - Jan " + DayText(we) + ", " + YearText(we.year)
  {
    assert ShortMonth(12) == "Dec" && ShortMonth(1) == "Jan";
    assert "Dec" + " " + DayText(ws) + " - " + "Jan" + " " + DayText(we) == "Dec " + DayText(ws) + " - Jan " + DayText(we);
  }

  lemma NewYearsEveWeekday(d: Day)
    requires d == Date(2024, 12, 31)
    ensures DayNumber(d) == 20088 && Weekday(d) == 2
  {
    assert DaysBeforeYear(2024) == 19723;
  }

  lemma LastSundayOf2024(c: Day)
    requires c == Date(2024, 12, 29)
    ensures DayNumber(c) == 20086
  {
    assert DaysBeforeYear(2024) == 19723;
  }

  /** The week of New Year's Eve 2024 runs from Sunday December 29 to Saturday January 4. */
  lemma NewYearsEveWeek(d: Day)
    requires d == Date(2024, 12, 31)
    ensures StartOfWeek(d) == Date(2024, 12, 29)
    ensures EndOfWeek(d) == Date(2025, 1, 4)
  {
    NewYearsEveWeekday(d);
    var sunday: Day := Date(2024, 12, 29);
    LastSundayOf2024(sunday);
    var ws, we := StartOfWeek(d), EndOfWeek(d);
    DayNumberInjective(ws, sunday);
    SixDaysLater(ws, we);
  }

  lemma TitleLiteral(ws: Day, we: Day, y: int)
    requires ws.day == 29 && we.day == 4 && y == 2025
    ensures "Dec " + DayText(ws) + " - Jan " + DayText(we) + ", " + YearText(y) == "Dec 29 - Jan 4, 2025"
  {
    assert DayText(ws) == "29" && DayText(we) == "4" && YearText(y) == "2025";
  }

  /** ... so its title is "Dec 29 - Jan 4, 2025". */
  lemma NewYearWeekExample(current: Moment)
    requires current.date == Date(2024, 12, 31)
    ensures Title(WeekView, current) == "Dec 29 - Jan 4, 2025"
  {
    NewYearsEveWeek(current.date);
    NewYearWeekTitle(current);
    var ws, we := StartOfWeek(current.date), EndOfWeek(current.date);
    TitleLiteral(ws, we, ws.year + 1);
  }

  // ---------------------------------------------------------------- month titles

  lemma MonthNamesDistinct()
    ensures forall i, j :: 0 <= i < 12 && 0 <= j < 12 && i != j ==> MonthNames[i] != MonthNames[j]
    ensures forall i :: 0 <= i < 12 ==> ' ' !in MonthNames[i]
  {
  }

  lemma TitleParts(n1: string, y1: string, n2: string, y2: string)
    requires n1 + " " + y1 == n2 + " " + y2
    requires ' ' !in n1 && ' ' !in n2 && AllDigits(y1) && AllDigits(y2)
    ensures n1 == n2 && y1 == y2
  {
    SplitTwo(n1, ' ', y1);
    SplitTwo(n2, ' ', y2);
  }

  /** Two dates with years of the common era share a month-view title only when they are
      in the same month of the same year. */
  lemma MonthTitleInjective(a: Moment, b: Moment)
    requires a.date.year > 0 && b.date.year > 0
    requires Title(MonthView, a) == Title(MonthView, b)
    ensures a.date.month == b.date.month && a.date.year == b.date.year
  {
    MonthNamesDistinct();
    TitleParts(MonthName(a.date.month), YearText(a.date.year), MonthName(b.date.month), YearText(b.date.year));
  }
}
