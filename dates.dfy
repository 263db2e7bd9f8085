/**
 * Calendar days and instants in one time zone, the part of JavaScript's `Date` and of
 * date-fns (`startOfDay`, `isSameDay`, `getDay`, `getDate`, `startOfWeek`, `endOfWeek`,
 * `eachDayOfInterval`, `addMonths`, `addWeeks`, `toISOString`, `parseISO`) that the
 * calendar uses. A day is a proleptic Gregorian (year, month, day); its day number counts
 * days from 1970-01-01, and an instant is a day plus a millisecond of that day.
 */
module Dates {
  import opened Wrappers
  import opened Text

  // ---------------------------------------------------------------- days

  datatype Date = Date(year: int, month: int, day: int)

  predicate IsLeapYear(y: int) {
    y % 4 == 0 && (y % 100 != 0 || y % 400 == 0)
  }

  function DaysInMonth(y: int, m: int): (n: int)
    requires 1 <= m <= 12
    ensures 28 <= n <= 31
  {
    if m == 2 then (if IsLeapYear(y) then 29 else 28)
    else if m == 4 || m == 6 || m == 9 || m == 11 then 30
    else 31
  }

  predicate ValidDate(d: Date) {
    1 <= d.month <= 12 && 1 <= d.day <= DaysInMonth(d.year, d.month)
  }

  /** A calendar day: a date that exists in the Gregorian calendar. */
  type Day = d: Date | ValidDate(d) witness Date(1970, 1, 1)

  function DaysInYear(y: int): int {
    if IsLeapYear(y) then 366 else 365
  }

  /** Leap years among 1..n (for n < 0, minus the leap years among n+1..0). */
  function LeapsThrough(n: int): int {
    n / 4 - n / 100 + n / 400
  }

  /** Going from n - 1 to n, the quotient by k grows exactly when k divides n. */
  lemma QuotientStep(n: int, k: int)
    requires k == 4 || k == 100 || k == 400
    ensures n / k - (n - 1) / k == if n % k == 0 then 1 else 0
  {
    var q, r := n / k, n % k;
    if r == 0 {
      assert n - 1 == k * (q - 1) + (k - 1);
    } else {
      assert n - 1 == k * q + (r - 1);
    }
  }

  lemma LeapsStep(n: int)
    ensures LeapsThrough(n) - LeapsThrough(n - 1) == if IsLeapYear(n) then 1 else 0
  {
    QuotientStep(n, 4);
    QuotientStep(n, 100);
    QuotientStep(n, 400);
    if n % 100 == 0 {
      assert n == 4 * (25 * (n / 100));
    }
    if n % 400 == 0 {
      assert n == 100 * (4 * (n / 400));
    }
  }

  /** Days from 1970-01-01 to January 1st of year y. */
  function DaysBeforeYear(y: int): int {
    365 * (y - 1970) + LeapsThrough(y - 1) - LeapsThrough(1969)
  }

  lemma YearStep(y: int)
    ensures DaysBeforeYear(y + 1) == DaysBeforeYear(y) + DaysInYear(y)
  {
    LeapsStep(y);
  }

  lemma {:induction false} DaysBeforeYearGrows(y1: int, y2: int)
    requires y1 < y2
    ensures DaysBeforeYear(y1 + 1) <= DaysBeforeYear(y2)
    decreases y2 - y1
  {
    if y1 + 1 < y2 {
      DaysBeforeYearGrows(y1 + 1, y2);
      YearStep(y1 + 1);
    }
  }

  /** Days in the months of year y before month m. */
  function DaysBeforeMonth(y: int, m: int): (n: int)
    requires 1 <= m <= 12
    ensures 0 <= n <= 335
  {
    var leap := if IsLeapYear(y) then 1 else 0;
    if m == 1 then 0 else if m == 2 then 31 else if m == 3 then 59 + leap
    else if m == 4 then 90 + leap else if m == 5 then 120 + leap
    else if m == 6 then 151 + leap else if m == 7 then 181 + leap
    else if m == 8 then 212 + leap else if m == 9 then 243 + leap
    else if m == 10 then 273 + leap else if m == 11 then 304 + leap
    else 334 + leap
  }

  lemma MonthStep(y: int, m: int)
    requires 1 <= m <= 12
    ensures DaysBeforeMonth(y, m) + DaysInMonth(y, m) == if m < 12 then DaysBeforeMonth(y, m + 1) else DaysInYear(y)
  {
  }

  lemma MonthsGrow(y: int, m1: int, m2: int)
    requires 1 <= m1 < m2 <= 12
    ensures DaysBeforeMonth(y, m1) + DaysInMonth(y, m1) <= DaysBeforeMonth(y, m2)
  {
  }

  /** Days from 1970-01-01 to d: the timeline position of a day. */
  function DayNumber(d: Day): int {
    DaysBeforeYear(d.year) + DaysBeforeMonth(d.year, d.month) + d.day - 1
  }

  lemma DayNumberWithinYear(d: Day)
    ensures DaysBeforeYear(d.year) <= DayNumber(d) < DaysBeforeYear(d.year + 1)
  {
    MonthStep(d.year, d.month);
    if d.month < 12 {
      MonthsGrow(d.year, d.month, 12);
    }
    YearStep(d.year);
  }

  /** Different days have different day numbers. */
  lemma DayNumberInjective(a: Day, b: Day)
    requires DayNumber(a) == DayNumber(b)
    ensures a == b
  {
    DayNumberWithinYear(a);
    DayNumberWithinYear(b);
    if a.year < b.year {
      DaysBeforeYearGrows(a.year, b.year);
    } else if b.year < a.year {
      DaysBeforeYearGrows(b.year, a.year);
    } else if a.month < b.month {
      MonthsGrow(a.year, a.month, b.month);
    } else if b.month < a.month {
      MonthsGrow(a.year, b.month, a.month);
    }
  }

  /** Lexicographic order on days and order of day numbers agree. */
  lemma DayNumberOrder(a: Day, b: Day)
    ensures DayNumber(a) < DayNumber(b) <==>
      (a.year < b.year || (a.year == b.year && (a.month < b.month || (a.month == b.month && a.day < b.day))))
  {
    DayNumberWithinYear(a);
    DayNumberWithinYear(b);
    if a.year < b.year {
      DaysBeforeYearGrows(a.year, b.year);
    } else if b.year < a.year {
      DaysBeforeYearGrows(b.year, a.year);
    } else if a.month < b.month {
      MonthsGrow(a.year, a.month, b.month);
    } else if b.month < a.month {
      MonthsGrow(a.year, b.month, a.month);
    }
  }

  /** The next day. */
  function Succ(d: Day): (r: Day)
    ensures DayNumber(r) == DayNumber(d) + 1
  {
    MonthStep(d.year, d.month);
    YearStep(d.year);
    if d.day < DaysInMonth(d.year, d.month) then Date(d.year, d.month, d.day + 1)
    else if d.month < 12 then Date(d.year, d.month + 1, 1)
    else Date(d.year + 1, 1, 1)
  }

  /** The previous day. */
  function Pred(d: Day): (r: Day)
    ensures DayNumber(r) == DayNumber(d) - 1
  {
    YearStep(d.year - 1);
    if d.day > 1 then Date(d.year, d.month, d.day - 1)
    else if d.month > 1 then
      MonthStep(d.year, d.month - 1);
      Date(d.year, d.month - 1, DaysInMonth(d.year, d.month - 1))
    else Date(d.year - 1, 12, 31)
  }

  /** The day k days after d (before it when k < 0). */
  function AddDays(d: Day, k: int): (r: Day)
    ensures DayNumber(r) == DayNumber(d) + k
    decreases if k < 0 then -k else k
  {
    if k == 0 then d else if k > 0 then AddDays(Succ(d), k - 1) else AddDays(Pred(d), k + 1)
  }

  /** `getDay`: 0 for Sunday through 6 for Saturday (1970-01-01 was a Thursday). */
  function Weekday(d: Day): (w: int)
    ensures 0 <= w < 7
  {
    (DayNumber(d) + 4) % 7
  }

  lemma ModSevenShift(x: int, k: int)
    ensures (x + k) % 7 == (x % 7 + k) % 7
  {
    var q := x / 7;
    assert x + k == 7 * q + (x % 7 + k);
  }

  lemma WeekdayShift(d: Day, r: Day, k: int)
    requires DayNumber(r) == DayNumber(d) + k
    ensures Weekday(r) == (Weekday(d) + k) % 7
  {
    var x := DayNumber(d) + 4;
    ModSevenShift(x, k);
  }

  /** The weekday k days after a day whose weekday is known. */
  lemma WeekdayAfter(d: Day, r: Day, w: int, k: int)
    requires Weekday(d) == w && DayNumber(r) == DayNumber(d) + k
    ensures Weekday(r) == (w + k) % 7
  {
    WeekdayShift(d, r, k);
  }

  /** `startOfWeek` with weeks starting on Sunday. */
  function StartOfWeek(d: Day): (r: Day)
    ensures Weekday(r) == 0
    ensures DayNumber(r) == DayNumber(d) - Weekday(d)
  {
    var r := AddDays(d, -Weekday(d));
    WeekdayShift(d, r, -Weekday(d));
    r
  }

  /** The day of `endOfWeek`: the Saturday of d's week. */
  function EndOfWeek(d: Day): (r: Day)
    ensures Weekday(r) == 6
    ensures DayNumber(r) == DayNumber(StartOfWeek(d)) + 6
  {
    var s := StartOfWeek(d);
    var r := AddDays(s, 6);
    SaturdayAfterSunday(s, r);
    r
  }

  /** Six days after a Sunday is a Saturday. */
  lemma SaturdayAfterSunday(s: Day, r: Day)
    requires Weekday(s) == 0 && DayNumber(r) == DayNumber(s) + 6
    ensures Weekday(r) == 6
  {
    WeekdayAfter(s, r, 0, 6);
  }

  /** The n consecutive days starting with d, as `eachDayOfInterval` lists them. */
  function DaysFrom(d: Day, n: nat): (r: seq<Day>)
    ensures |r| == n
    ensures forall i :: 0 <= i < n ==> DayNumber(r[i]) == DayNumber(d) + i
    decreases n
  {
    if n == 0 then [] else [d] + DaysFrom(Succ(d), n - 1)
  }

  /** `eachDayOfInterval({ start, end })` over whole days. */
  function EachDay(start: Day, end: Day): (r: seq<Day>)
    ensures |r| == if DayNumber(end) < DayNumber(start) then 0 else DayNumber(end) - DayNumber(start) + 1
  {
    var n := DayNumber(end) - DayNumber(start) + 1;
    DaysFrom(start, if n < 0 then 0 else n)
  }

  /** Every day between start and end, inclusive, is listed, in order. */
  lemma EachDayCovers(start: Day, end: Day, x: Day)
    requires DayNumber(start) <= DayNumber(x) <= DayNumber(end)
    ensures var days := EachDay(start, end); var i := DayNumber(x) - DayNumber(start);
      0 <= i < |days| && days[i] == x
  {
    var i := DayNumber(x) - DayNumber(start);
    DayNumberInjective(EachDay(start, end)[i], x);
  }

  // ---------------------------------------------------------------- instants

  const HourMs := 3600000
  const MinuteMs := 60000
  const DayMs := 86400000

  /** A point in time: a day and the millisecond within it (a JavaScript `Date`). */
  datatype Instant = Instant(date: Day, ms: int)

  predicate ValidInstant(i: Instant) {
    0 <= i.ms < DayMs
  }

  type Moment = i: Instant | ValidInstant(i) witness Instant(Date(1970, 1, 1), 0)

  /** `getTime()`: milliseconds since 1970-01-01T00:00. */
  function Timestamp(i: Instant): int {
    DayNumber(i.date) * DayMs + i.ms
  }

  /** `startOfDay`. */
  function StartOfDay(i: Moment): Moment {
    Instant(i.date, 0)
  }

  function Midnight(d: Day): Moment {
    Instant(d, 0)
  }

  /** `isSameDay`. */
  predicate IsSameDay(a: Moment, b: Moment) {
    a.date == b.date
  }

  /** Timestamps order instants by day first, then by time of day. */
  lemma TimestampOrder(a: Moment, b: Moment)
    ensures Timestamp(a) < Timestamp(b) <==>
      DayNumber(a.date) < DayNumber(b.date) || (DayNumber(a.date) == DayNumber(b.date) && a.ms < b.ms)
  {
  }

  /** `addWeeks(i, k)`: seven days per week, same time of day. */
  function AddWeeks(i: Moment, k: int): (r: Moment)
    ensures Timestamp(r) == Timestamp(i) + 7 * k * DayMs
  {
    Instant(AddDays(i.date, 7 * k), i.ms)
  }

  /** `addMonths(i, k)`: the same day of the month k months later, clamped to the last day
      of a shorter month, same time of day. */
  function AddMonths(i: Moment, k: int): (r: Moment)
    ensures r.date.year * 12 + r.date.month == i.date.year * 12 + i.date.month + k
    ensures r.date.day == if i.date.day <= DaysInMonth(r.date.year, r.date.month) then i.date.day
                          else DaysInMonth(r.date.year, r.date.month)
    ensures r.ms == i.ms
  {
    var total := i.date.year * 12 + (i.date.month - 1) + k;
    var y := total / 12;
    var m := total % 12 + 1;
    var dim := DaysInMonth(y, m);
    Instant(Date(y, m, if i.date.day <= dim then i.date.day else dim), i.ms)
  }

  // ---------------------------------------------------------------- ISO 8601 text

  /** The year as `toISOString` writes it: four digits, or a sign and six digits outside
      0..9999. */
  function IsoYear(y: int): string {
    if 0 <= y <= 9999 then PadStart(NatToString(y), 4, '0')
    else (if y < 0 then "-" else "+") + PadStart(NatToString(if y < 0 then -y else y), 6, '0')
  }

  /** What `toISOString` writes after the year: -MM-DDTHH:mm:ss.sssZ. */
  function IsoTail(i: Moment): string {
    var h := i.ms / HourMs;
    var mi := i.ms % HourMs / MinuteMs;
    var s := i.ms % MinuteMs / 1000;
    var f := i.ms % 1000;
    "-" + Pad2(i.date.month) + "-" + Pad2(i.date.day)
      + "T" + Pad2(h) + ":" + Pad2(mi) + ":" + Pad2(s) + "." + PadStart(NatToString(f), 3, '0') + "Z"
  }

  /** `toISOString()`: YYYY-MM-DDTHH:mm:ss.sssZ. */
  function IsoString(i: Moment): string {
    IsoYear(i.date.year) + IsoTail(i)
  }

  /** A run of decimal digits, checked. */
  function DigitsOf(s: string): Option<nat> {
    if s != [] && AllDigits(s) then Some(DigitsValue(s)) else None
  }

  /** The year field: four digits, or a sign and six digits. */
  function ParseIsoYear(t: string): Option<int> {
    if |t| == 4 then DigitsOf(t)
    else if |t| == 7 && (t[0] == '+' || t[0] == '-') then
      match DigitsOf(t[1..])
      case None => None
      case Some(v) => Some(if t[0] == '-' then -(v as int) else v)
    else None
  }

  /** The numeric fields after the year. */
  datatype IsoFields = IsoFields(month: nat, day: nat, hour: nat, minute: nat, second: nat, milli: nat)

  /** The 20 characters after the year: separators in place and digits in every field. */
  function ParseIsoTail(t: string): (r: Option<IsoFields>)
    requires |t| == 20
    ensures r.Some? ==> r.value.milli < 1000
  {
    if !(t[0] == '-' && t[3] == '-' && t[6] == 'T' && t[9] == ':' && t[12] == ':'
         && t[15] == '.' && t[19] == 'Z') then None
    else
      var mo, da, hh, mi, se, fr :=
        DigitsOf(t[1..3]), DigitsOf(t[4..6]), DigitsOf(t[7..9]),
        DigitsOf(t[10..12]), DigitsOf(t[13..15]), DigitsOf(t[16..19]);
      if mo.None? || da.None? || hh.None? || mi.None? || se.None? || fr.None? then None
      else
        assert fr.value < 1000 by {
          assert |t[16..19]| == 3;
          Power10Values();
          DigitsValueBound(t[16..19]);
        }
        Some(IsoFields(mo.value, da.value, hh.value, mi.value, se.value, fr.value))
  }

  /** The instant the fields name; hour 24 is accepted as the end of the day when minutes,
      seconds and milliseconds are zero. */
  function IsoMoment(year: int, f: IsoFields): Option<Moment>
    requires f.milli < 1000
  {
    var date := Date(year, f.month, f.day);
    if !ValidDate(date) then None
    else if f.hour == 24 && f.minute == 0 && f.second == 0 && f.milli == 0 then
      Some(Instant(Succ(date), 0))
    else if f.hour < 24 && f.minute < 60 && f.second < 60 then
      Some(Instant(date, f.hour * HourMs + f.minute * MinuteMs + f.second * 1000 + f.milli))
    else None
  }

  /** `parseISO` on the complete form that `toISOString` writes (a four-digit year, or a sign
      and six digits); `None` is an Invalid Date. */
  function ParseIso(s: string): Option<Moment>
  {
    var yl := if s != [] && (s[0] == '+' || s[0] == '-') then 7 else 4;
    if |s| != yl + 20 then None
    else
      match (ParseIsoYear(s[..yl]), ParseIsoTail(s[yl..]))
      case (Some(year), Some(f)) => IsoMoment(year, f)
      case _ => None
  }

  /** Parsing a year text followed by a tail parses each on its own. */
  lemma ParseIsoOfParts(yt: string, tail: string, year: int, f: IsoFields)
    requires |yt| == 4 || |yt| == 7
    requires (yt[0] == '+' || yt[0] == '-') <==> |yt| == 7
    requires |tail| == 20
    requires ParseIsoYear(yt) == Some(year) && ParseIsoTail(tail) == Some(f)
    ensures ParseIso(yt + tail) == IsoMoment(year, f)
  {
    var s := yt + tail;
    assert s[0] == yt[0];
    assert s[..|yt|] == yt && s[|yt|..] == tail;
  }

  /** The year field reads back as the year, for years of at most six digits. */
  lemma IsoYearRoundTrip(y: int)
    requires -999999 <= y <= 999999
    ensures var t := IsoYear(y);
      |t| == (if 0 <= y <= 9999 then 4 else 7) && (t[0] == '+' || t[0] == '-' <==> |t| == 7)
      && ParseIsoYear(t) == Some(y)
  {
    Power10Values();
    var t := IsoYear(y);
    if 0 <= y <= 9999 {
      PaddedNumber(y, 4);
    } else {
      var m := if y < 0 then -y else y;
      PaddedNumber(m, 6);
      assert t[1..] == PadStart(NatToString(m), 6, '0');
    }
  }

  lemma MsSplit(ms: int)
    requires 0 <= ms < DayMs
    ensures ms / HourMs < 24 && ms % HourMs / MinuteMs < 60 && ms % MinuteMs / 1000 < 60
    ensures ms / HourMs * HourMs + ms % HourMs / MinuteMs * MinuteMs + ms % MinuteMs / 1000 * 1000
      + ms % 1000 == ms
  {
    var h, r := ms / HourMs, ms % HourMs;
    var mi, r2 := r / MinuteMs, r % MinuteMs;
    assert ms == h * HourMs + r;
    assert r == mi * MinuteMs + r2;
    assert ms % MinuteMs == r2;
    assert r2 % 1000 == ms % 1000;
  }

  /** Where each field of an assembled tail sits. */
  lemma TailShape(a: string, b: string, c: string, d: string, e: string, g: string)
    requires |a| == 2 && |b| == 2 && |c| == 2 && |d| == 2 && |e| == 2 && |g| == 3
    ensures var t := "-" + a + "-" + b + "T" + c + ":" + d + ":" + e + "." + g + "Z";
      |t| == 20 && t[0] == '-' && t[3] == '-' && t[6] == 'T' && t[9] == ':' && t[12] == ':'
      && t[15] == '.' && t[19] == 'Z' && t[1..3] == a && t[4..6] == b && t[7..9] == c
      && t[10..12] == d && t[13..15] == e && t[16..19] == g
  {
    var t := "-" + a + "-" + b + "T" + c + ":" + d + ":" + e + "." + g + "Z";
    assert t[1..3] == [a[0], a[1]] == a;
    assert t[4..6] == [b[0], b[1]] == b;
    assert t[7..9] == [c[0], c[1]] == c;
    assert t[10..12] == [d[0], d[1]] == d;
    assert t[13..15] == [e[0], e[1]] == e;
    assert t[16..19] == [g[0], g[1], g[2]] == g;
  }

  /** A tail whose fields are digit runs reads back as those fields. */
  lemma ParseIsoTailOfDigits(t: string)
    requires |t| == 20 && t[0] == '-' && t[3] == '-' && t[6] == 'T' && t[9] == ':' && t[12] == ':'
      && t[15] == '.' && t[19] == 'Z'
    requires AllDigits(t[1..3]) && AllDigits(t[4..6]) && AllDigits(t[7..9]) && AllDigits(t[10..12])
      && AllDigits(t[13..15]) && AllDigits(t[16..19])
    ensures ParseIsoTail(t) == Some(IsoFields(DigitsValue(t[1..3]), DigitsValue(t[4..6]),
      DigitsValue(t[7..9]), DigitsValue(t[10..12]), DigitsValue(t[13..15]), DigitsValue(t[16..19])))
  {
  }

  /** The tail reads back as the fields it was written from. */
  lemma IsoTailRoundTrip(i: Moment)
    ensures |IsoTail(i)| == 20
    ensures ParseIsoTail(IsoTail(i)) == Some(FieldsOf(i))
  {
    var h := i.ms / HourMs;
    var mi := i.ms % HourMs / MinuteMs;
    var se := i.ms % MinuteMs / 1000;
    var f := i.ms % 1000;
    MsSplit(i.ms);
    Pad2OfSmall(i.date.month);
    Pad2OfSmall(i.date.day);
    Pad2OfSmall(h);
    Pad2OfSmall(mi);
    Pad2OfSmall(se);
    Power10Values();
    PaddedNumber(f, 3);
    var a, b, c, d, e, g := Pad2(i.date.month), Pad2(i.date.day), Pad2(h), Pad2(mi), Pad2(se),
      PadStart(NatToString(f), 3, '0');
    TailShape(a, b, c, d, e, g);
    ParseIsoTailOfDigits(IsoTail(i));
  }

  /** The fields of an instant name that instant. */
  function FieldsOf(i: Moment): (f: IsoFields)
    ensures f.milli < 1000
  {
    IsoFields(i.date.month, i.date.day, i.ms / HourMs, i.ms % HourMs / MinuteMs,
      i.ms % MinuteMs / 1000, i.ms % 1000)
  }

  lemma IsoMomentOfFields(i: Moment)
    ensures IsoMoment(i.date.year, FieldsOf(i)) == Some(i)
  {
    MsSplit(i.ms);
    assert Date(i.date.year, i.date.month, i.date.day) == i.date;
  }

  /** `parseISO(d.toISOString())` gives back d, for every year that `toISOString` writes
      with at most six digits. */
  lemma IsoRoundTrip(i: Moment)
    requires -999999 <= i.date.year <= 999999
    ensures ParseIso(IsoString(i)) == Some(i)
  {
    IsoYearRoundTrip(i.date.year);
    IsoTailRoundTrip(i);
    ParseIsoOfParts(IsoYear(i.date.year), IsoTail(i), i.date.year, FieldsOf(i));
    IsoMomentOfFields(i);
  }

  /** An ISO text starts with a digit or a sign, never with a letter. */
  lemma IsoFirstChar(i: Moment)
    ensures var s := IsoString(i); |s| > 0 && (IsDigit(s[0]) || s[0] == '+' || s[0] == '-')
  {
    var y := i.date.year;
    var s := IsoString(i);
    var t := IsoYear(y);
    assert s[0] == t[0];
    if 0 <= y <= 9999 {
      var digits := NatToString(y);
      if |digits| < 4 {
        assert t[0] == '0';
      } else {
        assert t == digits;
      }
    }
  }
}
