/**
 * The side panel listing the selected day's events: a heading with the weekday and the
 * long date, then either the empty-day placeholder or one row per event, in the order
 * given, with its time, its repeat rule ("Weekly until Mar 25") and a meeting button
 * whose icon depends on the meeting service named in the link.
 */
module EventList {
  import opened Wrappers
  import opened Text
  import opened Dates
  import opened Events
  import opened CalendarHeader

  // ---------------------------------------------------------------- meeting links

  const ZoomIcon := "📹"
  const MeetIcon := "📞"
  const TeamsIcon := "💬"
  const LinkIcon := "🔗"

  /** `getMeetingIcon`: the first service named in the link decides, Zoom before Google
      Meet before Teams. */
  function MeetingIcon(url: string): (icon: string)
    ensures icon in {ZoomIcon, MeetIcon, TeamsIcon, LinkIcon}
  {
    if Includes(url, "zoom") then ZoomIcon
    else if Includes(url, "meet.google") then MeetIcon
    else if Includes(url, "teams") then TeamsIcon
    else LinkIcon
  }

  /** Each icon is given for exactly the links its rule describes. */
  lemma MeetingIconIff(url: string)
    ensures MeetingIcon(url) == ZoomIcon <==> Includes(url, "zoom")
    ensures MeetingIcon(url) == MeetIcon <==> !Includes(url, "zoom") && Includes(url, "meet.google")
    ensures MeetingIcon(url) == TeamsIcon <==>
      !Includes(url, "zoom") && !Includes(url, "meet.google") && Includes(url, "teams")
    ensures MeetingIcon(url) == LinkIcon <==>
      !Includes(url, "zoom") && !Includes(url, "meet.google") && !Includes(url, "teams")
  {
    assert ZoomIcon != MeetIcon && ZoomIcon != TeamsIcon && ZoomIcon != LinkIcon;
    assert MeetIcon != TeamsIcon && MeetIcon != LinkIcon && TeamsIcon != LinkIcon;
  }

  lemma IncludesPart(p: string, w: string, q: string)
    ensures Includes(p + w + q, w)
  {
    var s := p + w + q;
    assert s[|p|..|p| + |w|] == w;
    assert OccursAt(s, w, |p|);
    IncludesIff(s, w);
  }

  /** A link that names Zoom anywhere gets the video icon, whatever else it names. */
  lemma ZoomLinkWins(p: string, q: string)
    ensures MeetingIcon(p + "zoom" + q) == ZoomIcon
  {
    IncludesPart(p, "zoom", q);
  }

  /** A Google Meet link that does not name Zoom gets the phone icon. */
  lemma MeetLinkIcon(p: string, q: string)
    requires !Includes(p + "meet.google" + q, "zoom")
    ensures MeetingIcon(p + "meet.google" + q) == MeetIcon
  {
    IncludesPart(p, "meet.google", q);
  }

  // ---------------------------------------------------------------- rows

  /** `recurrenceLabels`. */
  function RecurrenceLabel(r: Recurrence): string {
    match r
    case NoRepeat => "Does not repeat"
    case Daily => "Daily"
    case Weekly => "Weekly"
    case Monthly => "Monthly"
  }

  /** The labels tell the four rules apart. */
  lemma RecurrenceLabelInjective(a: Recurrence, b: Recurrence)
    requires RecurrenceLabel(a) == RecurrenceLabel(b)
    ensures a == b
  {
  }

  /** What one row shows besides its colour bar: title, the time when there is one, the
      repeat rule when the event repeats, and the meeting icon when there is a link. */
  datatype Row = Row(id: string, title: string, time: Option<string>, repeat: Option<string>,
                     meeting: Option<string>)

  /** `format(endDate, 'MMM d')`. */
  function ShortDate(d: Day): string {
    ShortMonth(d.month) + " " + DayText(d)
  }

  /** The repeat text: the rule's label, followed by " until MMM d" when there is an end
      date. */
  function RepeatText(e: Event): (text: string)
    ensures StartsWith(text, RecurrenceLabel(e.recurrence))
    ensures e.endDate.None? ==> text == RecurrenceLabel(e.recurrence)
    ensures e.endDate.Some? ==> text[|RecurrenceLabel(e.recurrence)|..] == " until " + ShortDate(e.endDate.value.date)
  {
    var name := RecurrenceLabel(e.recurrence);
    if e.endDate.Some? then name + " until " + ShortDate(e.endDate.value.date) else name
  }

  /** One event's row. */
  function RowOf(e: Event): Row {
    Row(e.id, e.title,
        if e.time.Some? && e.time.value != "" then e.time else None,
        if e.recurrence != NoRepeat then Some(RepeatText(e)) else None,
        if e.meetingLink.Some? && e.meetingLink.value != "" then Some(MeetingIcon(e.meetingLink.value)) else None)
  }

  /** A row shows a time exactly when the event has a non-empty time, a repeat rule
      exactly when it repeats, and a meeting button exactly when it has a non-empty link. */
  lemma RowShows(e: Event)
    ensures RowOf(e).id == e.id && RowOf(e).title == e.title
    ensures RowOf(e).time.Some? <==> !HasNoTime(e)
    ensures RowOf(e).time.Some? ==> RowOf(e).time == e.time
    ensures RowOf(e).repeat.Some? <==> e.recurrence != NoRepeat
    ensures RowOf(e).meeting.Some? <==> e.meetingLink.Some? && e.meetingLink.value != ""
  {
  }

  datatype ListView = Placeholder | Rows(rows: seq<Row>)

  /** The panel's body: the placeholder for a day without events, else one row per event
      in the order given. */
  function Body(events: seq<Event>): (v: ListView)
    ensures v.Placeholder? <==> events == []
    ensures v.Rows? ==> |v.rows| == |events| && forall i :: 0 <= i < |events| ==> v.rows[i].id == events[i].id
  {
    if events == [] then Placeholder else Rows(seq(|events|, i requires 0 <= i < |events| => RowOf(events[i])))
  }

  /** The rows a body shows; none for the placeholder. */
  function RowsOf(v: ListView): seq<Row> {
    if v.Placeholder? then [] else v.rows
  }

  /** The panel for a day, fed with the day's events as the page does: the placeholder
      exactly when no event occurs on that day, and otherwise a row for each event that
      occurs on it and for no other event. */
  lemma BodyOfDay(all: seq<Event>, d: Moment)
    ensures Body(EventsForDate(all, d)).Placeholder? <==> forall e :: e in all ==> !IsEventOnDate(e, d)
    ensures forall e :: e in all && IsEventOnDate(e, d) ==> RowOf(e) in RowsOf(Body(EventsForDate(all, d)))
    ensures forall r :: r in RowsOf(Body(EventsForDate(all, d))) ==>
      exists e :: e in all && IsEventOnDate(e, d) && r == RowOf(e)
  {
    var day := EventsForDate(all, d);
    if day != [] {
      assert day[0] in all && IsEventOnDate(day[0], d);
    }
    forall r | r in RowsOf(Body(day))
      ensures exists e :: e in all && IsEventOnDate(e, d) && r == RowOf(e)
    {
      var i :| 0 <= i < |day| && Body(day).rows[i] == r;
      assert day[i] in day;
    }
    forall e | e in all && IsEventOnDate(e, d)
      ensures RowOf(e) in RowsOf(Body(day))
    {
      var i :| 0 <= i < |day| && day[i] == e;
      assert Body(day).rows[i] == RowOf(e);
    }
  }

  /** Rows keep the order of the event list: one more event in the list adds its row at the
      end when it occurs on the day, and changes nothing otherwise. */
  lemma BodyAppend(all: seq<Event>, e: Event, d: Moment)
    ensures RowsOf(Body(EventsForDate(all + [e], d)))
      == RowsOf(Body(EventsForDate(all, d))) + (if IsEventOnDate(e, d) then [RowOf(e)] else [])
  {
    EventsForDateAppend(all, [e], d);
    var a, one := EventsForDate(all, d), EventsForDate([e], d);
    RowsOfAppend(a, one);
    if IsEventOnDate(e, d) {
      assert one == [e];
      assert RowsOf(Body(one)) == [RowOf(e)];
    } else {
      assert one == [];
    }
  }

  /** The rows of a concatenation are the rows of its parts. */
  lemma RowsOfAppend(a: seq<Event>, b: seq<Event>)
    ensures RowsOf(Body(a + b)) == RowsOf(Body(a)) + RowsOf(Body(b))
  {
    var l, r, ab := RowsOf(Body(a)), RowsOf(Body(b)), RowsOf(Body(a + b));
    assert |l| == |a| && |r| == |b|;
    forall i | 0 <= i < |ab|
      ensures ab[i] == (l + r)[i]
    {
      if i < |a| {
        assert (a + b)[i] == a[i];
      } else {
        assert (a + b)[i] == b[i - |a|];
      }
    }
  }

  /** The delete button of row i removes the event shown in row i, and clicking the row
      edits that event. */
  lemma RowTargets(events: seq<Event>, i: nat)
    requires i < |events|
    ensures Body(events).Rows? && Body(events).rows[i].id == events[i].id
  {
    RowShows(events[i]);
  }

  // ---------------------------------------------------------------- heading

  const WeekdayNames: seq<string> := ["Sunday", "Monday", "Tuesday", "Wednesday", "Thursday", "Friday", "Saturday"]

  /** The heading: `format(date, 'EEEE')` over `format(date, 'MMMM d, yyyy')`. */
  function Heading(date: Moment): (string, string) {
    (WeekdayNames[Weekday(date.date)],
     MonthName(date.date.month) + " " + DayText(date.date) + ", " + YearText(date.date.year))
  }
}
