/**
 * The calendar page: month/week navigation, the dragged-event indicator, and the drop
 * handler that reads a drop-target id (`month-<iso>`, `allday-<iso>` or `<iso>-<hour>`)
 * back into a date and time and applies it to the dragged event with `updateEvent`.
 */
module CalendarPage {
  import opened Wrappers
  import opened Text
  import opened Dates
  import opened Events
  import opened Cells
  import opened WeekGrid
  import opened MonthGrid

  // ---------------------------------------------------------------- drop ids

  /** The date-and-time patch for a drop on the target `dropId`, or `None` when the date
      text does not parse. */
  function DropPatch(dropId: string): Option<Patch> {
    if StartsWith(dropId, "month-") then MonthPatch(dropId)
    else if StartsWith(dropId, "allday-") then AllDayPatch(dropId)
    else HourPatch(dropId)
  }

  /** The `month-` branch: the date only. */
  function MonthPatch(dropId: string): Option<Patch> {
    match ParseIso(ReplaceFirst(dropId, "month-", ""))
    case None => None
    case Some(m) => Some(EmptyPatch.(date := Some(m)))
  }

  /** The `allday-` branch: the date, and no time. */
  function AllDayPatch(dropId: string): Option<Patch> {
    match ParseIso(ReplaceFirst(dropId, "allday-", ""))
    case None => None
    case Some(m) => Some(EmptyPatch.(date := Some(m), time := Some(None)))
  }

  /** The hour branch: the text before the last '-' is the date, the text after it the
      hour. */
  function HourPatch(dropId: string): Option<Patch> {
    var dash := LastIndexOf(dropId, '-');
    var hour := ParseInt(Substring(dropId, dash + 1, |dropId|));
    match ParseIso(Substring(dropId, 0, dash))
    case None => None
    case Some(m) => Some(EmptyPatch.(date := Some(m), time := Some(Some(HourText(hour) + ":00"))))
  }

  /** `hour.toString().padStart(2, '0')`, where a NaN hour prints as "NaN". */
  function HourText(hour: Option<int>): string {
    match hour
    case None => "NaN"
    case Some(h) => PadStart(IntToString(h), 2, '0')
  }

  /** Years that `toISOString` writes with at most six digits (all of JavaScript's range). */
  predicate IsoYearRange(d: Day) {
    -999999 <= d.year <= 999999
  }

  /** A drop on `month-<iso>` sets the date `iso` reads as, and nothing else. */
  lemma MonthLabelDrop(iso: string, m: Moment)
    requires ParseIso(iso) == Some(m)
    ensures DropPatch("month-" + iso) == Some(EmptyPatch.(date := Some(m)))
  {
    var id := "month-" + iso;
    assert StartsWith(id, "month-") by {
      assert id[..6] == "month-";
    }
    ReplaceFirstOfPrefix(id, "month-");
    assert id[6..] == iso;
  }

  /** A drop on `allday-<iso>` sets the date `iso` reads as and clears the time. */
  lemma AllDayLabelDrop(iso: string, m: Moment)
    requires ParseIso(iso) == Some(m)
    ensures DropPatch("allday-" + iso) == Some(EmptyPatch.(date := Some(m), time := Some(None)))
  {
    var id := "allday-" + iso;
    assert id[0] == 'a';
    FirstCharMismatch(id, "month-");
    assert StartsWith(id, "allday-") by {
      assert id[..7] == "allday-";
    }
    AllDayPatchOf(iso, m);
  }

  lemma AllDayPatchOf(iso: string, m: Moment)
    requires ParseIso(iso) == Some(m)
    ensures AllDayPatch("allday-" + iso) == Some(EmptyPatch.(date := Some(m), time := Some(None)))
  {
    var id := "allday-" + iso;
    assert StartsWith(id, "allday-") by {
      assert id[..7] == "allday-";
    }
    ReplaceFirstOfPrefix(id, "allday-");
    assert id[7..] == iso;
  }

  /** The last '-' of `<iso>-<hour>` is the one before the hour. */
  lemma HourIdSplit(iso: string, h: nat)
    ensures var id := iso + "-" + IntToString(h);
      LastIndexOf(id, '-') == |iso|
      && Substring(id, 0, |iso|) == iso && Substring(id, |iso| + 1, |id|) == NatToString(h)
  {
    var digits := NatToString(h);
    var id := iso + "-" + digits;
    assert id[|iso|] == '-';
    forall j | |iso| < j < |id|
      ensures id[j] != '-'
    {
      assert id[j] == digits[j - |iso| - 1];
      assert IsDigit(digits[j - |iso| - 1]);
    }
    assert id[..|iso|] == iso;
    assert id[|iso| + 1..] == digits;
  }

  /** A drop on `<iso>-<hour>` sets the date `iso` reads as and the time "HH:00", as long
      as `iso` starts with neither label. */
  lemma HourLabelDrop(iso: string, m: Moment, h: nat)
    requires ParseIso(iso) == Some(m)
    requires |iso| > 0 && iso[0] != 'm' && iso[0] != 'a'
    ensures DropPatch(iso + "-" + IntToString(h)) == Some(EmptyPatch.(date := Some(m), time := Some(Some(HourText(Some(h)) + ":00"))))
  {
    var id := iso + "-" + IntToString(h);
    assert id[0] == iso[0];
    FirstCharMismatch(id, "month-");
    FirstCharMismatch(id, "allday-");
    HourPatchOf(iso, m, h);
  }

  lemma HourPatchOf(iso: string, m: Moment, h: nat)
    requires ParseIso(iso) == Some(m)
    ensures HourPatch(iso + "-" + IntToString(h)) == Some(EmptyPatch.(date := Some(m), time := Some(Some(HourText(Some(h)) + ":00"))))
  {
    HourIdSplit(iso, h);
    ParseIntOfNatToString(h);
  }

  /** A drop on a month cell sets the date to the cell's day and nothing else. */
  lemma MonthDropRoundTrip(d: Day)
    requires IsoYearRange(d)
    ensures DropPatch(MonthCellId(d)) == Some(EmptyPatch.(date := Some(Midnight(d))))
  {
    IsoRoundTrip(Midnight(d));
    MonthLabelDrop(IsoString(Midnight(d)), Midnight(d));
  }

  /** A drop on an all-day cell sets the date to the cell's day and clears the time. */
  lemma AllDayDropRoundTrip(d: Day)
    requires IsoYearRange(d)
    ensures DropPatch(AllDayCellId(d)) == Some(EmptyPatch.(date := Some(Midnight(d)), time := Some(None)))
  {
    IsoRoundTrip(Midnight(d));
    AllDayLabelDrop(IsoString(Midnight(d)), Midnight(d));
  }

  /** A drop on the hour cell of day d and hour h sets the date to d and the time to
      "HH:00". */
  lemma HourDropRoundTrip(d: Day, h: nat)
    requires IsoYearRange(d)
    ensures DropPatch(HourCellId(d, h)) == Some(EmptyPatch.(date := Some(Midnight(d)), time := Some(Some(Pad2(h) + ":00"))))
  {
    IsoRoundTrip(Midnight(d));
    IsoFirstChar(Midnight(d));
    HourLabelDrop(IsoString(Midnight(d)), Midnight(d), h);
  }

  /** Dropping on a month cell changes the date only; every other field, the time
      included, keeps its value. */
  lemma MonthDropChangesOnlyDate(e: Event, d: Day)
    ensures Merge(e, EmptyPatch.(date := Some(Midnight(d)))) == e.(date := Midnight(d))
  {
  }

  /** A patch that sets the date to m and the time to "HH:00" puts every event with the
      patched id into the hour-HH row of m's day; every other event is untouched. */
  lemma {:induction false} TimedPatchLands(events: seq<Event>, id: string, p: Patch, m: Moment, h: nat)
    requires h < 100 && p.date == Some(m) && p.time == Some(Some(Pad2(h) + ":00"))
    ensures var after := UpdateAll(events, id, p);
      (forall i :: 0 <= i < |after| && after[i].id == id ==> after[i] in EventsForDayAndHour(after, m, h))
      && (forall i :: 0 <= i < |after| && after[i].id != id ==> after[i] == events[i])
  {
    var after := UpdateAll(events, id, p);
    forall i | 0 <= i < |after|
      ensures after[i].id == id ==> after[i] in EventsForDayAndHour(after, m, h)
      ensures after[i].id != id ==> after[i] == events[i]
    {
      UpdateAllAt(events, id, p, i);
      if after[i].id == id {
        InHourRow(after, after[i], m, h);
      }
    }
  }

  /** An event on m's day whose time is "HH:00" is in the hour-HH row of m's day. */
  lemma InHourRow(all: seq<Event>, e: Event, m: Moment, h: nat)
    requires e in all && e.date == m && e.time == Some(Pad2(h) + ":00") && h < 100
    ensures e in EventsForDayAndHour(all, m, h)
  {
    assert Pad2(h) + ":" + "00" == Pad2(h) + ":00";
    SlotOfTime(e, h, "00", h);
    assert IsSameDay(e.date, m);
  }

  /** A patch that sets the date to m puts every event with the patched id into m's cell of
      the month grid; every other event is untouched. */
  lemma {:induction false} DatedPatchLands(events: seq<Event>, id: string, p: Patch, m: Moment)
    requires p.date == Some(m)
    ensures var after := UpdateAll(events, id, p);
      (forall i :: 0 <= i < |after| && after[i].id == id ==> after[i] in EventsForDay(after, m))
      && (forall i :: 0 <= i < |after| && after[i].id != id ==> after[i] == events[i])
  {
    var after := UpdateAll(events, id, p);
    forall i | 0 <= i < |after|
      ensures after[i].id == id ==> after[i] in EventsForDay(after, m)
      ensures after[i].id != id ==> after[i] == events[i]
    {
      UpdateAllAt(events, id, p, i);
    }
  }

  /** Dropping on an hour cell of the week view moves every event with the dragged id into
      that cell, whatever its recurrence; every other event is untouched. */
  lemma HourDropLandsInCell(events: seq<Event>, id: string, d: Day, h: int)
    requires IsoYearRange(d) && 6 <= h <= 21
    ensures DropPatch(HourCellId(d, h)).Some?
    ensures var after := UpdateAll(events, id, DropPatch(HourCellId(d, h)).value);
      (forall i :: 0 <= i < |after| && after[i].id == id ==> after[i] in EventsForDayAndHour(after, Midnight(d), h))
      && (forall i :: 0 <= i < |after| && after[i].id != id ==> after[i] == events[i])
  {
    HourDropRoundTrip(d, h);
    TimedPatchLands(events, id, DropPatch(HourCellId(d, h)).value, Midnight(d), h);
  }

  /** Dropping on a month cell moves every event with the dragged id onto that day of the
      month grid; every other event is untouched. */
  lemma MonthDropLandsInCell(events: seq<Event>, id: string, d: Day)
    requires IsoYearRange(d)
    ensures DropPatch(MonthCellId(d)).Some?
    ensures var after := UpdateAll(events, id, DropPatch(MonthCellId(d)).value);
      (forall i :: 0 <= i < |after| && after[i].id == id ==> after[i] in EventsForDay(after, Midnight(d)))
      && (forall i :: 0 <= i < |after| && after[i].id != id ==> after[i] == events[i])
  {
    MonthDropRoundTrip(d);
    DatedPatchLands(events, id, DropPatch(MonthCellId(d)).value, Midnight(d));
  }

  /** Dropping on an all-day cell moves every event with the dragged id into that day's
      all-day row; every other event is untouched. */
  lemma AllDayDropLandsInCell(events: seq<Event>, id: string, d: Day)
    requires IsoYearRange(d)
    ensures DropPatch(AllDayCellId(d)).Some?
    ensures var after := UpdateAll(events, id, DropPatch(AllDayCellId(d)).value);
      (forall i :: 0 <= i < |after| && after[i].id == id ==> after[i] in AllDayEvents(after, Midnight(d)))
      && (forall i :: 0 <= i < |after| && after[i].id != id ==> after[i] == events[i])
  {
    AllDayDropRoundTrip(d);
    UntimedPatchLands(events, id, DropPatch(AllDayCellId(d)).value, Midnight(d));
  }

  /** A patch that sets the date to m and clears the time puts every event with the patched
      id into the all-day row of m's day; every other event is untouched. */
  lemma {:induction false} UntimedPatchLands(events: seq<Event>, id: string, p: Patch, m: Moment)
    requires p.date == Some(m) && p.time == Some(None)
    ensures var after := UpdateAll(events, id, p);
      (forall i :: 0 <= i < |after| && after[i].id == id ==> after[i] in AllDayEvents(after, m))
      && (forall i :: 0 <= i < |after| && after[i].id != id ==> after[i] == events[i])
  {
    var after := UpdateAll(events, id, p);
    forall i | 0 <= i < |after|
      ensures after[i].id == id ==> after[i] in AllDayEvents(after, m)
      ensures after[i].id != id ==> after[i] == events[i]
    {
      UpdateAllAt(events, id, p, i);
    }
  }

  // ---------------------------------------------------------------- navigation

  datatype View = MonthView | WeekView

  /** `handlePrevious`/`handleNext`: a month in the month view, a week in the week view. */
  function Step(view: View, current: Moment, k: int): (r: Moment)
    ensures view == WeekView ==> Timestamp(r) == Timestamp(current) + 7 * k * DayMs
    ensures view == MonthView ==> r.date.year * 12 + r.date.month == current.date.year * 12 + current.date.month + k
  {
    if view == MonthView then AddMonths(current, k) else AddWeeks(current, k)
  }

  /** In the week view, "previous" undoes "next". */
  lemma WeekStepsCancel(current: Moment)
    ensures Step(WeekView, Step(WeekView, current, 1), -1) == current
  {
    var there := Step(WeekView, current, 1);
    var back := Step(WeekView, there, -1);
    DayNumberInjective(back.date, current.date);
  }

  /** In the month view it need not: the 31st of January goes to the 29th of February
      2024 and comes back as the 29th of January. */
  lemma MonthStepsClamp()
    ensures Step(MonthView, Step(MonthView, At(2024, 1, 31), 1), -1) == At(2024, 1, 29)
  {
  }

  /** The page's state: the month or week shown, the selected day, the view, the event being
      dragged, and the event list. */
  class Page {
    var currentDate: Moment
    var selectedDate: Moment
    var view: View
    var activeEvent: Option<Event>
    const store: EventStore

    constructor (now: Moment, store: EventStore)
      ensures currentDate == now && selectedDate == now && view == MonthView
      ensures activeEvent == None && this.store == store
    {
      currentDate := now;
      selectedDate := now;
      view := MonthView;
      activeEvent := None;
      this.store := store;
    }

    /** The view toggle. */
    method SetView(v: View)
      modifies this
      ensures view == v && currentDate == old(currentDate) && selectedDate == old(selectedDate)
      ensures activeEvent == old(activeEvent)
    {
      view := v;
    }

    /** `handlePrevious`. */
    method HandlePrevious()
      modifies this
      ensures currentDate == Step(view, old(currentDate), -1) && view == old(view)
      ensures selectedDate == old(selectedDate) && activeEvent == old(activeEvent)
    {
      currentDate := Step(view, currentDate, -1);
    }

    /** `handleNext`. */
    method HandleNext()
      modifies this
      ensures currentDate == Step(view, old(currentDate), 1) && view == old(view)
      ensures selectedDate == old(selectedDate) && activeEvent == old(activeEvent)
    {
      currentDate := Step(view, currentDate, 1);
    }

    /** `handleToday`: both dates become the present instant. */
    method HandleToday(now: Moment)
      modifies this
      ensures currentDate == now && selectedDate == now
      ensures view == old(view) && activeEvent == old(activeEvent)
    {
      currentDate := now;
      selectedDate := now;
    }

    /** `handleDragStart`: remember the dragged event, if the drag carries one. */
    method HandleDragStart(dragged: Option<Event>)
      modifies this
      ensures activeEvent == dragged
      ensures currentDate == old(currentDate) && selectedDate == old(selectedDate) && view == old(view)
    {
      activeEvent := dragged;
    }

    /** `handleDragEnd`: clear the indicator; without a target or a dragged event change
        nothing; otherwise update the dragged event's id with the patch the target gives. */
    method HandleDragEnd(over: Option<string>, dragged: Option<Event>)
      modifies this, store
      ensures activeEvent == None
      ensures currentDate == old(currentDate) && selectedDate == old(selectedDate) && view == old(view)
      ensures over.None? || dragged.None? ==> store.events == old(store.events)
      ensures over.Some? && dragged.Some? ==>
        store.events == match DropPatch(over.value)
                        case None => old(store.events)
                        case Some(p) => UpdateAll(old(store.events), dragged.value.id, p)
    {
      activeEvent := None;
      if over.None? {
        return;
      }
      if dragged.None? {
        return;
      }
      var patch := DropPatch(over.value);
      if patch.Some? {
        store.UpdateEvent(dragged.value.id, patch.value);
      }
    }
  }
}
