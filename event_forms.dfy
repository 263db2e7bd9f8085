/**
 * The add and edit dialogs. Each keeps its fields as state; the edit dialog loads them from
 * the event it is opened on, the add dialog clears them whenever it closes. Submitting
 * builds a normalised payload: the title trimmed, an empty time or meeting link dropped,
 * and the end date kept only for a repeating event.
 */
module EventForms {
  import opened Wrappers
  import opened Text
  import opened Dates
  import opened Events

  /** `time || undefined`: the empty string is no time. */
  function OptionalText(s: string): (r: Option<string>)
    ensures r.None? <==> s == []
    ensures r.Some? ==> r.value == s
  {
    if s == [] then None else Some(s)
  }

  /** `meetingLink.trim() || undefined`. */
  function OptionalLink(s: string): (r: Option<string>)
    ensures r.None? <==> Trim(s) == []
    ensures r.Some? ==> r.value == Trim(s)
  {
    OptionalText(Trim(s))
  }

  /** `recurrence !== 'none' ? endDate : undefined`. */
  function KeptEndDate(recurrence: Recurrence, endDate: Option<Moment>): (r: Option<Moment>)
    ensures recurrence == NoRepeat ==> r.None?
    ensures recurrence != NoRepeat ==> r == endDate
  {
    if recurrence != NoRepeat then endDate else None
  }

  // ---------------------------------------------------------------- the edit dialog

  /** The edit dialog's fields. */
  datatype EditFields = EditFields(
    title: string,
    time: string,
    color: EventColor,
    recurrence: Recurrence,
    endDate: Option<Moment>,
    startDate: Moment,
    meetingLink: string,
    reminderEnabled: bool,
    reminderMinutes: int)

  /** What the edit dialog asks of the page. */
  datatype EditRequest = NoRequest | UpdateRequest(id: string, patch: Patch) | DeleteRequest(id: string)

  /** The fields after the loading effect has read `e`: absent text becomes "", an absent
      reminder flag `true` and absent reminder minutes 15. */
  function Loaded(e: Event): (f: EditFields)
    ensures f.title == e.title && f.startDate == e.date && f.endDate == e.endDate
    ensures f.color == e.color && f.recurrence == e.recurrence
    ensures f.time == e.time.GetOr("") && f.meetingLink == e.meetingLink.GetOr("")
    ensures f.reminderEnabled == e.reminderEnabled.GetOr(true)
    ensures f.reminderMinutes == e.reminderMinutes.GetOr(15)
  {
    EditFields(e.title, e.time.GetOr(""), e.color, e.recurrence, e.endDate, e.date,
               e.meetingLink.GetOr(""), e.reminderEnabled.GetOr(true), e.reminderMinutes.GetOr(15))
  }

  /** `handleSubmit` of the edit dialog: nothing without an event or with a blank title,
      otherwise an update of the event's id that sets every field. */
  function EditSubmission(event: Option<Event>, f: EditFields): (r: EditRequest)
    ensures r.UpdateRequest? <==> event.Some? && Trim(f.title) != []
    ensures !r.DeleteRequest?
    ensures r.UpdateRequest? ==>
      r.id == event.value.id
      && r.patch.title == Some(Trim(f.title)) && r.patch.date == Some(f.startDate)
      && r.patch.time == Some(OptionalText(f.time)) && r.patch.color == Some(f.color)
      && r.patch.recurrence == Some(f.recurrence)
      && r.patch.endDate == Some(KeptEndDate(f.recurrence, f.endDate))
      && r.patch.meetingLink == Some(OptionalLink(f.meetingLink))
      && r.patch.reminderEnabled == Some(Some(f.reminderEnabled))
      && r.patch.reminderMinutes == Some(Some(f.reminderMinutes))
  {
    if event.None? || Trim(f.title) == [] then NoRequest
    else
      UpdateRequest(event.value.id,
        Patch(Some(Trim(f.title)), Some(f.startDate), Some(OptionalText(f.time)), Some(f.color),
              Some(f.recurrence), Some(KeptEndDate(f.recurrence, f.endDate)),
              Some(OptionalLink(f.meetingLink)), Some(Some(f.reminderEnabled)),
              Some(Some(f.reminderMinutes))))
  }

  /** `handleDelete`: the event's id, or nothing without an event. */
  function DeleteSubmission(event: Option<Event>): (r: EditRequest)
    ensures r.DeleteRequest? <==> event.Some?
    ensures r.DeleteRequest? ==> r.id == event.value.id
    ensures !r.UpdateRequest?
  {
    if event.None? then NoRequest else DeleteRequest(event.value.id)
  }

  /** Saving an event without touching the dialog rewrites it in normal form: the title
      trimmed, an empty time or blank link dropped, the end date dropped when it does not
      repeat, and the reminder defaults written out. Nothing else changes. */
  lemma SaveUnchanged(e: Event)
    requires Trim(e.title) != []
    ensures var r := EditSubmission(Some(e), Loaded(e));
      r.UpdateRequest? && r.id == e.id
      && Merge(e, r.patch) == e.(title := Trim(e.title),
                                 time := if e.time == Some([]) then None else e.time,
                                 endDate := KeptEndDate(e.recurrence, e.endDate),
                                 meetingLink := OptionalLink(e.meetingLink.GetOr("")),
                                 reminderEnabled := Some(e.reminderEnabled.GetOr(true)),
                                 reminderMinutes := Some(e.reminderMinutes.GetOr(15)))
  {
  }

  /** The edit dialog as a stateful component. */
  class EditForm {
    var title: string
    var time: string
    var color: EventColor
    var recurrence: Recurrence
    var endDate: Option<Moment>
    var startDate: Moment
    var meetingLink: string
    var reminderEnabled: bool
    var reminderMinutes: int

    function Fields(): EditFields
      reads this
    {
      EditFields(title, time, color, recurrence, endDate, startDate, meetingLink,
                 reminderEnabled, reminderMinutes)
    }

    /** The initial state; the start date is the instant the dialog is created. */
    constructor (now: Moment)
      ensures Fields() == EditFields("", "", Primary, NoRepeat, None, now, "", true, 15)
    {
      title, time, color, recurrence := "", "", Primary, NoRepeat;
      endDate, startDate, meetingLink := None, now, "";
      reminderEnabled, reminderMinutes := true, 15;
    }

    /** The loading effect: copy the event's fields in, or leave the state when there is no
        event. */
    method Load(event: Option<Event>)
      modifies this
      ensures event.Some? ==> Fields() == Loaded(event.value)
      ensures event.None? ==> Fields() == old(Fields())
    {
      if event.Some? {
        var e := event.value;
        title := e.title;
        time := e.time.GetOr("");
        color := e.color;
        recurrence := e.recurrence;
        endDate := e.endDate;
        startDate := e.date;
        meetingLink := e.meetingLink.GetOr("");
        reminderEnabled := e.reminderEnabled.GetOr(true);
        reminderMinutes := e.reminderMinutes.GetOr(15);
      }
    }

    /** `handleSubmit`: the request, and whether the dialog closes (exactly when an update is
        sent). */
    method HandleSubmit(event: Option<Event>) returns (r: EditRequest, close: bool)
      ensures r == EditSubmission(event, Fields())
      ensures close <==> r.UpdateRequest?
    {
      r := EditSubmission(event, Fields());
      close := r.UpdateRequest?;
    }

    /** `handleDelete`: the request, and whether the dialog closes. */
    method HandleDelete(event: Option<Event>) returns (r: EditRequest, close: bool)
      ensures r == DeleteSubmission(event)
      ensures close <==> event.Some?
    {
      r := DeleteSubmission(event);
      close := r.DeleteRequest?;
    }
  }

  // ---------------------------------------------------------------- the add dialog

  /** The add dialog's fields. */
  datatype AddFields = AddFields(
    title: string,
    time: string,
    color: EventColor,
    recurrence: Recurrence,
    endDate: Option<Moment>,
    meetingLink: string)

  /** The state the dialog returns to whenever it is closed. */
  const BlankAddFields := AddFields("", "", Primary, NoRepeat, None, "")

  /** `handleSubmit` of the add dialog: nothing with a blank title, otherwise a new event on
      the selected date. The dialog sends no reminder fields. */
  function AddSubmission(selectedDate: Moment, f: AddFields): (r: Option<Draft>)
    ensures r.Some? <==> Trim(f.title) != []
    ensures r.Some? ==>
      r.value.title == Trim(f.title) && r.value.date == selectedDate
      && r.value.time == OptionalText(f.time) && r.value.color == f.color
      && r.value.recurrence == f.recurrence
      && r.value.endDate == KeptEndDate(f.recurrence, f.endDate)
      && r.value.meetingLink == OptionalLink(f.meetingLink)
      && r.value.reminderEnabled.None? && r.value.reminderMinutes.None?
  {
    if Trim(f.title) == [] then None
    else
      Some(Draft(Trim(f.title), selectedDate, OptionalText(f.time), f.color, f.recurrence,
                 KeptEndDate(f.recurrence, f.endDate), OptionalLink(f.meetingLink), None, None))
  }

  /** A cleared dialog submits nothing. */
  lemma BlankSubmitsNothing(selectedDate: Moment)
    ensures AddSubmission(selectedDate, BlankAddFields).None?
  {
  }

  /** An added event shows up on the day it was added for, whatever its recurrence. */
  lemma AddedEventOnSelectedDay(selectedDate: Moment, f: AddFields, id: string, day: Moment)
    requires Trim(f.title) != [] && IsSameDay(day, selectedDate)
    ensures var d := AddSubmission(selectedDate, f).value;
      IsEventOnDate(WithId(d, id), day)
  {
    var d := AddSubmission(selectedDate, f).value;
    OccursOnStartDay(WithId(d, id), day);
  }

  /** The add dialog as a stateful component. */
  class AddForm {
    var title: string
    var time: string
    var color: EventColor
    var recurrence: Recurrence
    var endDate: Option<Moment>
    var meetingLink: string

    function Fields(): AddFields
      reads this
    {
      AddFields(title, time, color, recurrence, endDate, meetingLink)
    }

    constructor ()
      ensures Fields() == BlankAddFields
    {
      title, time, color, recurrence, endDate, meetingLink := "", "", Primary, NoRepeat, None, "";
    }

    /** The reset effect, run whenever `open` changes: closing clears every field, opening
        keeps them. */
    method OpenChanged(open: bool)
      modifies this
      ensures !open ==> Fields() == BlankAddFields
      ensures open ==> Fields() == old(Fields())
    {
      if !open {
        title := "";
        time := "";
        color := Primary;
        recurrence := NoRepeat;
        endDate := None;
        meetingLink := "";
      }
    }

    /** `handleSubmit`: the new event, if any; the dialog closes exactly when one is sent,
        and closing runs the reset effect. */
    method HandleSubmit(selectedDate: Moment) returns (r: Option<Draft>)
      modifies this
      ensures r == AddSubmission(selectedDate, old(Fields()))
      ensures r.Some? ==> Fields() == BlankAddFields
      ensures r.None? ==> Fields() == old(Fields())
    {
      r := AddSubmission(selectedDate, Fields());
      if r.Some? {
        OpenChanged(false);
      }
    }
  }

  // ---------------------------------------------------------------- end-date picker

  /** The picker's `disabled={(date) => date < startDate}` as written: the picker offers
      days at midnight and compares them with the start instant itself. */
  predicate EndDayDisabledAsWritten(day: Day, start: Moment) {
    Timestamp(Midnight(day)) < Timestamp(start)
  }

  /** When the start carries a time of day, the start day itself is refused. */
  lemma StartDayRefusedAsWritten()
    ensures var start := Instant(Date(2024, 3, 4), 10 * HourMs);
      EndDayDisabledAsWritten(Date(2024, 3, 4), start)
  {
  }

  /** The add dialog's picker applies the same test against the page's selected date, which
      starts as `new Date()` and is reset to it by "Today": so when the day has begun, a
      repeating event added for today cannot be given today as its end day, although the
      intended bound allows it. */
  lemma SelectedTodayRefusedAsWritten(now: Moment)
    requires now.ms > 0
    ensures EndDayDisabledAsWritten(now.date, now)
    ensures !EndDayDisabled(now.date, now)
  {
    EndDayBound(now.date, now);
  }

  /** The evidently intended lower bound: a day is refused exactly when it is before the
      start day. */
  predicate EndDayDisabled(day: Day, start: Moment) {
    DayNumber(day) < DayNumber(start.date)
  }

  lemma EndDayBound(day: Day, start: Moment)
    ensures !EndDayDisabled(day, start) <==> DayNumber(start.date) <= DayNumber(day)
    ensures !EndDayDisabled(start.date, start)
    ensures EndDayDisabledAsWritten(day, start) <==> EndDayDisabled(day, start) || (day == start.date && start.ms > 0)
  {
    if DayNumber(day) == DayNumber(start.date) {
      DayNumberInjective(day, start.date);
    }
  }
}
