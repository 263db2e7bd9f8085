/**
 * Vietnamese holidays and lunar-day labels. A day is looked up first in the table of fixed
 * solar holidays keyed by its zero-padded "MM-DD", then in the list of lunar holidays
 * (Tết spanning several days). The solar-to-lunar conversion is a foreign library; here its
 * result, the lunar day, month and year, is an input.
 */
module Lunar {
  import opened Wrappers
  import opened Text
  import opened Dates

  datatype HolidayType = Public | Observance | LunarHoliday

  /** A `Holiday`: `daysOff` is absent for observances and for the later days of Tết. */
  datatype Holiday = Holiday(name: string, nameEn: Option<string>, kind: HolidayType, daysOff: Option<int>)

  /** `FIXED_HOLIDAYS`, keyed by "MM-DD". */
  const FixedHolidays: map<string, Holiday> := map[
    "01-01" := Holiday("Tết Dương lịch", Some("New Year's Day"), Public, Some(1)),
    "02-14" := Holiday("Lễ Tình nhân", Some("Valentine's Day"), Observance, None),
    "03-08" := Holiday("Quốc tế Phụ nữ", Some("Int'l Women's Day"), Observance, None),
    "04-30" := Holiday("Giải phóng miền Nam", Some("Reunification Day"), Public, Some(1)),
    "05-01" := Holiday("Quốc tế Lao động", Some("Labour Day"), Public, Some(1)),
    "06-01" := Holiday("Quốc tế Thiếu nhi", Some("Children's Day"), Observance, None),
    "06-28" := Holiday("Ngày Gia đình VN", Some("VN Family Day"), Observance, None),
    "07-27" := Holiday("Thương binh Liệt sĩ", Some("War Invalids Day"), Observance, None),
    "09-02" := Holiday("Quốc khánh", Some("National Day"), Public, Some(2)),
    "10-20" := Holiday("Ngày Phụ nữ VN", Some("VN Women's Day"), Observance, None),
    "11-20" := Holiday("Ngày Nhà giáo VN", Some("VN Teachers' Day"), Observance, None),
    "12-22" := Holiday("Ngày QĐND VN", Some("VN Army Day"), Observance, None),
    "12-25" := Holiday("Giáng sinh", Some("Christmas"), Observance, None)
  ]

  /** A `LunarHolidayDef`: `range` is the number of days a multi-day holiday lasts. */
  datatype LunarHolidayDef = LunarHolidayDef(month: int, day: int, name: string, nameEn: string,
                                             daysOff: Option<int>, range: Option<int>)

  /** `LUNAR_HOLIDAYS`, in the order they are tried. */
  const LunarHolidays: seq<LunarHolidayDef> := [
    LunarHolidayDef(1, 1, "Tết Nguyên đán", "Lunar New Year", Some(5), Some(5)),
    LunarHolidayDef(3, 10, "Giỗ Tổ Hùng Vương", "Hung Kings Day", Some(1), None),
    LunarHolidayDef(4, 15, "Lễ Phật Đản", "Buddha Birthday", Some(0), None),
    LunarHolidayDef(7, 15, "Lễ Vu Lan", "Ghost Festival", Some(0), None),
    LunarHolidayDef(8, 15, "Tết Trung Thu", "Mid-Autumn", Some(0), None),
    LunarHolidayDef(12, 23, "Ông Táo về trời", "Kitchen God Day", Some(0), None)
  ]

  /** The lunar date the conversion library gives for a solar day. */
  datatype LunarDate = LunarDate(day: int, month: int, year: int)

  // ---------------------------------------------------------------- holidays

  /** "MM-DD" of a solar day. */
  function MonthDayKey(d: Day): string {
    Pad2(d.month) + "-" + Pad2(d.day)
  }

  /** Two solar days share a key exactly when they share the month and the day. */
  lemma MonthDayKeyIff(a: Day, b: Day)
    ensures MonthDayKey(a) == MonthDayKey(b) <==> a.month == b.month && a.day == b.day
  {
    Pad2OfSmall(a.month);
    Pad2OfSmall(a.day);
    Pad2OfSmall(b.month);
    Pad2OfSmall(b.day);
    KeySplit(Pad2(a.month), Pad2(a.day), Pad2(b.month), Pad2(b.day));
  }

  lemma KeySplit(m1: string, d1: string, m2: string, d2: string)
    requires |m1| == 2 && |m2| == 2
    ensures m1 + "-" + d1 == m2 + "-" + d2 <==> m1 == m2 && d1 == d2
  {
    if m1 + "-" + d1 == m2 + "-" + d2 {
      assert m1 == (m1 + "-" + d1)[..2];
      assert m2 == (m2 + "-" + d2)[..2];
      assert d1 == (m1 + "-" + d1)[3..];
      assert d2 == (m2 + "-" + d2)[3..];
    }
  }

  /** The "main day" test of the loop. */
  predicate IsMainDay(lh: LunarHolidayDef, lunar: LunarDate) {
    lunar.month == lh.month && lunar.day == lh.day
  }

  /** The multi-day test of the loop: a later day of the same month within the range. */
  predicate IsLaterDay(lh: LunarHolidayDef, lunar: LunarDate) {
    lh.range.Some? && lh.range.value > 1
    && lunar.month == lh.month && 0 < lunar.day - lh.day < lh.range.value
  }

  /** `${lh.name} (Mùng ${lunar.day})`. */
  function LaterDayName(lh: LunarHolidayDef, lunar: LunarDate): string {
    lh.name + " (Mùng " + IntToString(lunar.day) + ")"
  }

  predicate Matches(lh: LunarHolidayDef, lunar: LunarDate) {
    IsMainDay(lh, lunar) || IsLaterDay(lh, lunar)
  }

  /** The holiday a matching entry yields: the main day carries the entry's days off, a
      later day carries none and names the day. */
  function HolidayFor(lh: LunarHolidayDef, lunar: LunarDate): (h: Holiday)
    ensures h.kind == LunarHoliday && h.nameEn == Some(lh.nameEn)
    ensures IsMainDay(lh, lunar) ==> h.name == lh.name && h.daysOff == lh.daysOff
    ensures !IsMainDay(lh, lunar) ==> h.name == LaterDayName(lh, lunar) && h.daysOff.None?
  {
    if IsMainDay(lh, lunar) then Holiday(lh.name, Some(lh.nameEn), LunarHoliday, lh.daysOff)
    else Holiday(LaterDayName(lh, lunar), Some(lh.nameEn), LunarHoliday, None)
  }

  /** The loop over the lunar holidays, returning at the first entry that matches. */
  function FindLunarHoliday(defs: seq<LunarHolidayDef>, lunar: LunarDate): (r: Option<Holiday>)
    ensures r.None? <==> forall i :: 0 <= i < |defs| ==> !Matches(defs[i], lunar)
    ensures r.Some? ==> r.value.kind == LunarHoliday
  {
    if defs == [] then None
    else
      var lh := defs[0];
      if IsMainDay(lh, lunar) then
        Some(Holiday(lh.name, Some(lh.nameEn), LunarHoliday, lh.daysOff))
      else if IsLaterDay(lh, lunar) then
        Some(Holiday(LaterDayName(lh, lunar), Some(lh.nameEn), LunarHoliday, None))
      else
        var rest := FindLunarHoliday(defs[1..], lunar);
        assert forall i :: 0 < i < |defs| ==> defs[i] == defs[1..][i - 1];
        rest
  }

  /** The loop yields the first matching entry's holiday. */
  lemma {:induction false} FirstMatchWins(defs: seq<LunarHolidayDef>, i: nat, lunar: LunarDate)
    requires i < |defs| && Matches(defs[i], lunar)
    requires forall j :: 0 <= j < i ==> !Matches(defs[j], lunar)
    ensures FindLunarHoliday(defs, lunar) == Some(HolidayFor(defs[i], lunar))
  {
    if i > 0 {
      assert !Matches(defs[0], lunar);
      assert defs[1..][i - 1] == defs[i];
      FirstMatchWins(defs[1..], i - 1, lunar);
    }
  }

  /** `getHoliday`: the fixed table first, then the lunar holidays, else none. */
  function GetHoliday(d: Day, lunar: LunarDate): Option<Holiday> {
    var key := MonthDayKey(d);
    if key in FixedHolidays then Some(FixedHolidays[key]) else FindLunarHoliday(LunarHolidays, lunar)
  }

  /** A day in the fixed table gets its entry, whatever its lunar date. */
  lemma FixedHolidayWins(d: Day, lunar: LunarDate)
    requires MonthDayKey(d) in FixedHolidays
    ensures GetHoliday(d, lunar) == Some(FixedHolidays[MonthDayKey(d)])
  {
  }

  /** Otherwise the result is the lunar lookup, and none when no lunar entry matches. */
  lemma LunarFallback(d: Day, lunar: LunarDate)
    requires MonthDayKey(d) !in FixedHolidays
    ensures GetHoliday(d, lunar) == FindLunarHoliday(LunarHolidays, lunar)
    ensures GetHoliday(d, lunar).None? <==> forall i :: 0 <= i < |LunarHolidays| ==> !Matches(LunarHolidays[i], lunar)
  {
  }

  /** A lunar table entry's own day gives that entry, as a lunar holiday with its days off. */
  lemma MainDayOfEntry(i: nat, y: int)
    requires i < |LunarHolidays|
    ensures var lh := LunarHolidays[i];
      FindLunarHoliday(LunarHolidays, LunarDate(lh.day, lh.month, y))
        == Some(Holiday(lh.name, Some(lh.nameEn), LunarHoliday, lh.daysOff))
  {
    var lh := LunarHolidays[i];
    var lunar := LunarDate(lh.day, lh.month, y);
    assert forall j :: 0 <= j < i ==> !Matches(LunarHolidays[j], lunar);
    FirstMatchWins(LunarHolidays, i, lunar);
  }

  /** Days 2 to 5 of the first lunar month are the later days of Tết, with no days off. */
  lemma TetLaterDays(dd: int, y: int)
    requires 2 <= dd <= 5
    ensures FindLunarHoliday(LunarHolidays, LunarDate(dd, 1, y))
      == Some(Holiday("Tết Nguyên đán (Mùng " + IntToString(dd) + ")", Some("Lunar New Year"), LunarHoliday, None))
  {
    var lunar := LunarDate(dd, 1, y);
    assert IsLaterDay(LunarHolidays[0], lunar) && !IsMainDay(LunarHolidays[0], lunar);
    FirstMatchWins(LunarHolidays, 0, lunar);
    assert "Tết Nguyên đán" + " (Mùng " == "Tết Nguyên đán (Mùng ";
  }

  /** Day 6 of the first lunar month is past Tết. */
  lemma TetEndsAfterFifth(y: int)
    ensures FindLunarHoliday(LunarHolidays, LunarDate(6, 1, y)).None?
  {
  }

  /** `isPublicHoliday`: a holiday with a positive number of days off. */
  predicate IsPublicHoliday(d: Day, lunar: LunarDate) {
    var h := GetHoliday(d, lunar);
    h.Some? && h.value.daysOff.Some? && h.value.daysOff.value > 0
  }

  /** The later days of Tết and the festivals with no days off are not public holidays. */
  lemma NotPublicHolidays(d: Day, y: int, dd: int)
    requires MonthDayKey(d) !in FixedHolidays
    ensures 2 <= dd <= 5 ==> !IsPublicHoliday(d, LunarDate(dd, 1, y))
    ensures !IsPublicHoliday(d, LunarDate(15, 4, y)) && !IsPublicHoliday(d, LunarDate(15, 7, y))
    ensures !IsPublicHoliday(d, LunarDate(15, 8, y)) && !IsPublicHoliday(d, LunarDate(23, 12, y))
    ensures IsPublicHoliday(d, LunarDate(1, 1, y)) && IsPublicHoliday(d, LunarDate(10, 3, y))
  {
    if 2 <= dd <= 5 {
      TetLaterDays(dd, y);
    }
    MainDayOfEntry(0, y);
    MainDayOfEntry(1, y);
    MainDayOfEntry(2, y);
    MainDayOfEntry(3, y);
    MainDayOfEntry(4, y);
    MainDayOfEntry(5, y);
  }

  /** `getHolidayColor`. */
  function HolidayColor(kind: HolidayType): (c: string)
    ensures kind == Public <==> c == "bg-red-500"
    ensures kind == LunarHoliday <==> c == "bg-amber-500"
    ensures kind == Observance <==> c == "bg-pink-400"
  {
    match kind
    case Public => "bg-red-500"
    case LunarHoliday => "bg-amber-500"
    case Observance => "bg-pink-400"
  }

  // ---------------------------------------------------------------- lunar labels

  /** `LUNAR_MONTH_NAMES`. */
  const LunarMonthNames: map<int, string> := map[
    1 := "Giêng", 2 := "Hai", 3 := "Ba", 4 := "Tư", 5 := "Năm", 6 := "Sáu",
    7 := "Bảy", 8 := "Tám", 9 := "Chín", 10 := "Mười", 11 := "M.Một", 12 := "Chạp"
  ]

  /** `LUNAR_MONTH_NAMES[month] || month`. */
  function MonthLabel(month: int): (r: string)
    ensures month in LunarMonthNames ==> r == LunarMonthNames[month]
    ensures month !in LunarMonthNames ==> r == IntToString(month)
  {
    if month in LunarMonthNames && LunarMonthNames[month] != "" then LunarMonthNames[month]
    else IntToString(month)
  }

  /** A `LunarInfo`. */
  datatype LunarInfo = LunarInfo(day: int, month: int, year: int, displayText: string,
                                 isSpecial: bool, isFirstDay: bool, isFullMoon: bool)

  /** `getLunarInfo`, given the converted lunar date. */
  function GetLunarInfo(lunar: LunarDate): (r: LunarInfo)
    ensures r.day == lunar.day && r.month == lunar.month && r.year == lunar.year
    ensures r.isFirstDay <==> lunar.day == 1
    ensures r.isFullMoon <==> lunar.day == 15
    ensures r.isSpecial <==> lunar.day == 1 || lunar.day == 15
    ensures lunar.day == 1 ==> r.displayText == "1/" + MonthLabel(lunar.month)
    ensures lunar.day == 15 ==> r.displayText == "Rằm"
    ensures lunar.day != 1 && lunar.day != 15 ==> r.displayText == IntToString(lunar.day)
  {
    var isFirstDay := lunar.day == 1;
    var isFullMoon := lunar.day == 15;
    var displayText :=
      if isFirstDay then "1/" + MonthLabel(lunar.month)
      else if isFullMoon then "Rằm"
      else IntToString(lunar.day);
    LunarInfo(lunar.day, lunar.month, lunar.year, displayText, isFirstDay || isFullMoon, isFirstDay, isFullMoon)
  }

  /** A plain day's label is its number and never looks like a special day's label. */
  lemma LabelsDistinguishSpecialDays(lunar: LunarDate)
    requires lunar.day != 1 && lunar.day != 15
    ensures var t := GetLunarInfo(lunar).displayText;
      t != "Rằm" && (|t| < 2 || t[..2] != "1/")
  {
    var t := GetLunarInfo(lunar).displayText;
    if lunar.day >= 0 {
      assert AllDigits(t);
      assert t[0] != 'R';
      if |t| >= 2 {
        assert t[1] != '/';
      }
    } else {
      assert t[0] == '-';
    }
  }

  /** A `DayInfo`: the day, its lunar label and its holiday. */
  datatype DayInfo = DayInfo(date: Day, lunar: LunarInfo, holiday: Option<Holiday>)

  /** `getDayInfo`. */
  function GetDayInfo(d: Day, lunar: LunarDate): DayInfo {
    DayInfo(d, GetLunarInfo(lunar), GetHoliday(d, lunar))
  }

  /** `getLunarDisplay`. */
  function LunarDisplay(lunar: LunarDate): (r: (string, bool))
    ensures r.1 <==> lunar.day == 1 || lunar.day == 15
    ensures r.0 == GetLunarInfo(lunar).displayText
  {
    var info := GetLunarInfo(lunar);
    (info.displayText, info.isSpecial)
  }
}
