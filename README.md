# warm-calendar in Dafny

A model of warm-calendar, a personal calendar with Vietnamese lunar dates. The
model covers its React frontend and its Spring backend.

- **Events hook.** The frontend keeps the events in a hook: add, patch-merge update, remove.
  - It decides which events occur on a day: the start day, then daily, weekly (same weekday) or
    monthly (same day of the month) repeats up to an optional end day.
- **Views.**
  - Two grids show the events:
    - a month grid of whole weeks;
    - a week grid with an all-day row and hour rows from 6 to 21.
  - A header titles the month or the week, and a side list shows the selected day's events.
  - Events are dragged between cells. Each cell's drop-target id is read back into a date and
    time and applied to the dragged event.
- **Dialogs.** An add dialog and an edit dialog build normalised submissions.
- **Small features.**
  - Vietnamese holidays and lunar-day labels.
  - Reminders scheduled less than a day ahead.
  - Settings with a two-language lookup.
  - An avatar that falls back to initials.
- **API client.** A REST client sends requests, turns replies into values or errors, and turns
  authentication replies into a signed-in user.
- **Backend.**
  - An event service converts between entity and DTO, creates, updates, deletes, and lists a
    user's events by date.
  - An account service has two versions:
    - the corrected one under `fixes/` hashes passwords through an encoder;
    - the original one compares plain text.
  - A Google sign-in callback finds or creates the user for a Google account.

There is one time zone. A day is a valid Gregorian `Date` and a JavaScript `Date` is a
`Moment`: a day plus a millisecond within it. Day numbers count from 1970-01-01, and the
weekday follows from them. Strings are `seq<char>`.

The modules are:

| module | what it holds |
|---|---|
| `Wrappers` | Option and Result |
| `Text` | the JavaScript string operations the code relies on |
| `Dates` | the date-fns operations, plus `toISOString`/`parseISO` |
| `Events` | the event list and its hook |
| `Cells` | the capped cells with a "+n" badge |
| `WeekGrid`, `MonthGrid` | the two grids |
| `CalendarPage` | navigation and the drop handler |
| `CalendarHeader`, `EventList` | the header title and the side list |
| `EventForms` | the add and edit dialogs |
| `Lunar` | holidays and lunar labels |
| `Notifications` | reminders |
| `Settings` | user settings and translations |
| `Avatar` | the user avatar |
| `Api` | the REST client |
| `EventService` | the backend event service |
| `Auth` | the backend accounts |

`RecurringEventDialog.tsx` declares a dialog with three callbacks: close, move this one and move
all. No component renders it, so it never opens. The drag-end handler of `Calendar.tsx` applies
every drop to the whole series through `updateEvent`, which patches every event with the dragged
id. No detach of a single occurrence is modelled.

## Model

| member | source | states |
|---|---|---|
| Text.PadStart | frontend/src/pages/Calendar.tsx:102 | `padStart`: the result is as long as the width (or the input), ends with the input and is filled with the pad character in front |
| Text.LastIndexOf | frontend/src/pages/Calendar.tsx:98 | the index of the last occurrence of the character, or -1; no later position holds it |
| Text.ParseIntOfNatToString | frontend/src/pages/Calendar.tsx:100 | `parseInt` reads back every non-negative number the code prints |
| Text.Split | frontend/src/components/calendar/WeekGrid.tsx:61 | `split(c)`: the first part is the prefix up to the first separator; there are two or more parts exactly when the separator occurs |
| Text.IncludesIff | frontend/src/components/calendar/EventList.tsx:7-12 | `includes` holds exactly when the pattern occurs at some position |
| Text.ToUpper | frontend/src/components/ui/avatar.tsx:28 | upper-casing keeps the length, turns each letter a..z into its capital, leaves every other character alone, and leaves no a..z behind |
| Text.ToUpperIdempotent | frontend/src/components/ui/avatar.tsx:28 | upper-casing an upper-cased text changes nothing |
| Text.Take | frontend/src/components/ui/avatar.tsx:28 | `slice(0, n)` is the prefix of length min(n, length) |
| Dates.Weekday | frontend/src/hooks/useCalendarEvents.ts:127 | `getDay` is 0 (Sunday) to 6 |
| Dates.DayNumberInjective | frontend/src/hooks/useCalendarEvents.ts:115 | different days have different positions on the timeline |
| Dates.DayNumberOrder | frontend/src/hooks/useCalendarEvents.ts:118 | comparing midnights orders days lexicographically by year, month and day |
| Dates.TimestampOrder | frontend/src/hooks/useCalendarEvents.ts:118-121 | instants compare by day first, then by time of day |
| Dates.StartOfWeek | frontend/src/components/calendar/WeekGrid.tsx:35 | `startOfWeek` is a Sunday, the day minus its weekday |
| Dates.EndOfWeek | frontend/src/components/calendar/WeekGrid.tsx:36 | `endOfWeek` is a Saturday, six days after the week's Sunday |
| Dates.EachDay | frontend/src/components/calendar/WeekGrid.tsx:37 | `eachDayOfInterval` lists end - start + 1 days, none when end is before start |
| Dates.EachDayCovers | frontend/src/components/calendar/WeekGrid.tsx:37 | every day between start and end is listed, at its offset from start |
| Dates.AddWeeks | frontend/src/pages/Calendar.tsx:42-50 | `addWeeks(i, k)` moves the timestamp by exactly 7k days |
| Dates.AddMonths | frontend/src/pages/Calendar.tsx:40-48 | `addMonths(i, k)` moves k months, keeps the time, and clamps the day to the month's length |
| Dates.IsoRoundTrip | frontend/src/pages/Calendar.tsx:88-89 | `parseISO(d.toISOString())` gives back d for every year JavaScript can hold |
| Events.WithIdRoundTrip | frontend/src/hooks/useCalendarEvents.ts:88-93 | giving a draft an id and dropping it again are inverse |
| Events.OccurrenceRule | frontend/src/hooks/useCalendarEvents.ts:110-133 | `isEventOnDate` in calendar terms: the start day always occurs; otherwise the day must be after the start, not after the end day, and match the rule |
| Events.OccursOnStartDay | frontend/src/hooks/useCalendarEvents.ts:114-115 | an event always occurs on its start day |
| Events.NeverBeforeStart | frontend/src/hooks/useCalendarEvents.ts:117-118 | no event occurs before its start day |
| Events.NeverAfterEnd | frontend/src/hooks/useCalendarEvents.ts:120-121 | no event occurs after its end day, apart from its start day |
| Events.EndDayIncluded | frontend/src/hooks/useCalendarEvents.ts:120-125 | a daily event still occurs on its end day (for weekly and monthly repeats the end day occurs only when the rule matches, as Events.InsideWindow states) |
| Events.NoRepeatOnlyOnStartDay | frontend/src/hooks/useCalendarEvents.ts:130-131 | a non-repeating event occurs exactly on its start day |
| Events.InsideWindow | frontend/src/hooks/useCalendarEvents.ts:123-132 | in the window: daily always, weekly iff same weekday, monthly iff same day of month |
| Events.MonthlySkipsShortMonths | frontend/src/hooks/useCalendarEvents.ts:128-129 | a monthly event from the 31st does not occur in shorter months |
| Events.WeeklyUntilExample | frontend/src/hooks/useCalendarEvents.ts:110-133 | a weekly event from 2024-03-04 until 2024-04-01 occurs on those Mondays, the end day included, and on no other listed day |
| Events.WeeklyDay | frontend/src/hooks/useCalendarEvents.ts:110-133 | a weekly event whose end is four weeks after its start occurs on the day k days after its start exactly when k is 0, 7, 14, 21 or 28 |
| Events.EventsForDate | frontend/src/hooks/useCalendarEvents.ts:135-140 | `getEventsForDate` keeps exactly the events that occur on the day |
| Events.EventsForDateAppend | frontend/src/hooks/useCalendarEvents.ts:137 | the filter keeps the list's order |
| Events.Merge | frontend/src/hooks/useCalendarEvents.ts:99 | a spread merge never changes the id |
| Events.MergeLaws | frontend/src/hooks/useCalendarEvents.ts:99 | the empty patch changes nothing; merging a patch twice is merging it once |
| Events.UpdateAll | frontend/src/hooks/useCalendarEvents.ts:97-101 | the list keeps its length and its ids |
| Events.UpdateAllAt | frontend/src/hooks/useCalendarEvents.ts:97-101 | each position holds the merged event when its id matches, else the old event |
| Events.UpdateAbsentId | frontend/src/hooks/useCalendarEvents.ts:97-101 | updating an id no event has changes nothing |
| Events.RemoveAll | frontend/src/hooks/useCalendarEvents.ts:107 | exactly the events with other ids remain |
| Events.RemoveAllAppend | frontend/src/hooks/useCalendarEvents.ts:107 | removal keeps the survivors' order |
| Events.RemoveAbsentId | frontend/src/hooks/useCalendarEvents.ts:107 | removing an id no event has changes nothing |
| Events.DayAfter | frontend/src/hooks/useCalendarEvents.ts:37 | `new Date(y, m, d + k)` is midnight k days later |
| Events.SampleEvents | frontend/src/hooks/useCalendarEvents.ts:15-86 | eight sample events carrying the given ids |
| Events.EventStore.constructor | frontend/src/hooks/useCalendarEvents.ts:15-86 | the hook starts with the sample events |
| Events.EventStore.AddEvent | frontend/src/hooks/useCalendarEvents.ts:88-93 | `addEvent` appends the draft under the fresh id |
| Events.EventStore.UpdateEvent | frontend/src/hooks/useCalendarEvents.ts:95-104 | `updateEvent` merges the patch into every event with the id |
| Events.EventStore.RemoveEvent | frontend/src/hooks/useCalendarEvents.ts:106-108 | `removeEvent` leaves no event with the id |
| Cells.Visible | frontend/src/components/calendar/CalendarGrid.tsx:103 | `slice(0, cap)` is a prefix of at most cap items, the whole list when it fits |
| Cells.Overflow | frontend/src/components/calendar/CalendarGrid.tsx:114-116 | the "+n" badge appears exactly when more than cap items exist |
| Cells.CellAccounts | frontend/src/components/calendar/CalendarGrid.tsx:103-117 | every item is drawn or counted in the badge, never both; the drawn ones come first |
| WeekGrid.HoursRange | frontend/src/components/calendar/WeekGrid.tsx:25 | `HOURS` is exactly 6..21, sixteen hours |
| WeekGrid.WeekDays | frontend/src/components/calendar/WeekGrid.tsx:35-37 | seven consecutive days starting on Sunday |
| WeekGrid.WeekContainsCurrent | frontend/src/components/calendar/WeekGrid.tsx:35-37 | the current date sits in its weekday's column |
| WeekGrid.EventsForDayAndHour | frontend/src/components/calendar/WeekGrid.tsx:39-64 | exactly the events matching the day whose hour is the slot's (9 when untimed) |
| WeekGrid.AllDayEvents | frontend/src/components/calendar/WeekGrid.tsx:66-84 | exactly the untimed events matching the day |
| WeekGrid.MidnightAgainst | frontend/src/components/calendar/WeekGrid.tsx:45-46 | a midnight compared with an instant, in day numbers |
| WeekGrid.AgreesWithHookAtMidnight | frontend/src/components/calendar/WeekGrid.tsx:40-58 | on the grid's midnights its day test agrees with the hook's `isEventOnDate` |
| WeekGrid.DivergesOffMidnight | frontend/src/components/calendar/WeekGrid.tsx:46 | given a noon instant, the raw comparison drops an end day the hook keeps |
| WeekGrid.SlotOfTime | frontend/src/components/calendar/WeekGrid.tsx:60-62 | a time "HH:..." puts the event in hour HH and no other |
| WeekGrid.HourOfTime | frontend/src/components/calendar/WeekGrid.tsx:61 | `parseInt` of the hour field of "HH:..." is HH |
| WeekGrid.OutsideHoursNowhere | frontend/src/components/calendar/WeekGrid.tsx:60-62 | a timed event whose hour is outside 6..21 or not a number is in no hour row |
| WeekGrid.UntimedPlacement | frontend/src/components/calendar/WeekGrid.tsx:60-82 | an untimed event is in the 9 AM row and the all-day row; the all-day row holds no timed event |
| WeekGrid.AllDayCell | frontend/src/components/calendar/WeekGrid.tsx:126-148 | cell id `allday-<iso>`, at most one event drawn, a badge exactly when more exist |
| WeekGrid.HourCell | frontend/src/components/calendar/WeekGrid.tsx:169-202 | cell id `<iso>-<hour>`, at most one event drawn, a badge exactly when more exist |
| MonthGrid.FirstOfMonth | frontend/src/components/calendar/CalendarGrid.tsx:37 | `startOfMonth` is the 1st of the same month |
| MonthGrid.LastOfMonth | frontend/src/components/calendar/CalendarGrid.tsx:38 | `endOfMonth` is the month's last day |
| MonthGrid.GridShape | frontend/src/components/calendar/CalendarGrid.tsx:37-42 | the grid is 4 to 6 whole weeks starting on a Sunday |
| MonthGrid.GridCoversMonth | frontend/src/components/calendar/CalendarGrid.tsx:37-42 | every day of the month has its cell, in day order |
| MonthGrid.CurrentMonthFlag | frontend/src/components/calendar/CalendarGrid.tsx:65 | `isSameMonth` holds exactly between the 1st and the last day of the month |
| MonthGrid.EventsForDay | frontend/src/components/calendar/CalendarGrid.tsx:44-46 | exactly the events starting on the day; repeats are not expanded |
| MonthGrid.MonthEventsAreHookEvents | frontend/src/components/calendar/CalendarGrid.tsx:44-46 | each event the month cell shows, the hook also lists for the day |
| MonthGrid.AgreesWithHookWithoutRepeats | frontend/src/components/calendar/CalendarGrid.tsx:44-46 | without repeating events the month cell and the hook list the same events in the same order |
| MonthGrid.RepeatsNotShown | frontend/src/components/calendar/CalendarGrid.tsx:44-46 | a daily event occurs on a later day but is not shown there |
| MonthGrid.MonthCell | frontend/src/components/calendar/CalendarGrid.tsx:71-117 | cell id `month-<iso>`, at most 1 or 2 events by width, a badge exactly when more exist |
| CalendarPage.MonthLabelDrop | frontend/src/pages/Calendar.tsx:86-90 | a drop on `month-<iso>` patches only the date |
| CalendarPage.AllDayLabelDrop | frontend/src/pages/Calendar.tsx:91-95 | a drop on `allday-<iso>` patches the date and clears the time |
| CalendarPage.HourIdSplit | frontend/src/pages/Calendar.tsx:98-100 | the last '-' of `<iso>-<hour>` splits off exactly the hour |
| CalendarPage.HourLabelDrop | frontend/src/pages/Calendar.tsx:96-103 | a drop on `<iso>-<hour>` patches the date and the time "HH:00" |
| CalendarPage.MonthDropRoundTrip | frontend/src/pages/Calendar.tsx:86-90 | a month cell's own id reads back to that cell's day |
| CalendarPage.AllDayDropRoundTrip | frontend/src/pages/Calendar.tsx:91-95 | an all-day cell's own id reads back to its day with no time |
| CalendarPage.HourDropRoundTrip | frontend/src/pages/Calendar.tsx:96-103 | an hour cell's own id reads back to its day and "HH:00" |
| CalendarPage.MonthDropChangesOnlyDate | frontend/src/pages/Calendar.tsx:90 | a month drop keeps every other field, the time included |
| CalendarPage.TimedPatchLands | frontend/src/pages/Calendar.tsx:103 | after a timed patch, the patched events are in that hour row; other events are unchanged |
| CalendarPage.DatedPatchLands | frontend/src/pages/Calendar.tsx:90 | after a date patch, the patched events are in that day's month cell and every other event is unchanged |
| CalendarPage.UntimedPatchLands | frontend/src/pages/Calendar.tsx:95 | after an all-day patch, the patched events are in that day's all-day row and every other event is unchanged |
| CalendarPage.HourDropLandsInCell | frontend/src/pages/Calendar.tsx:96-103 | dropping on an hour cell moves the dragged id's events into that very cell |
| CalendarPage.MonthDropLandsInCell | frontend/src/pages/Calendar.tsx:86-90 | dropping on a month cell moves the dragged id's events onto that day and leaves every other event unchanged |
| CalendarPage.AllDayDropLandsInCell | frontend/src/pages/Calendar.tsx:91-95 | dropping on an all-day cell moves the dragged id's events into that row and leaves every other event unchanged |
| CalendarPage.Step | frontend/src/pages/Calendar.tsx:38-52 | a week step moves the timestamp by 7k days; a month step moves the month counter by k |
| CalendarPage.WeekStepsCancel | frontend/src/pages/Calendar.tsx:38-52 | in the week view "previous" undoes "next" |
| CalendarPage.MonthStepsClamp | frontend/src/pages/Calendar.tsx:40-48 | in the month view it need not: Jan 31 → Feb 29 → Jan 29 (2024) |
| CalendarPage.Page.constructor | frontend/src/pages/Calendar.tsx:23-29 | both dates are now, the month view, nothing dragged |
| CalendarPage.Page.SetView | frontend/src/pages/Calendar.tsx:125 | the view changes and nothing else |
| CalendarPage.Page.HandlePrevious | frontend/src/pages/Calendar.tsx:38-44 | current date steps back one month or week; nothing else changes |
| CalendarPage.Page.HandleNext | frontend/src/pages/Calendar.tsx:46-52 | current date steps forward one month or week; nothing else changes |
| CalendarPage.Page.HandleToday | frontend/src/pages/Calendar.tsx:54-57 | both dates become now |
| CalendarPage.Page.HandleDragStart | frontend/src/pages/Calendar.tsx:69-72 | the dragged event becomes the active one |
| CalendarPage.Page.HandleDragEnd | frontend/src/pages/Calendar.tsx:74-105 | the indicator clears; without a target or event nothing changes; otherwise the target's patch updates the dragged id |
| CalendarHeader.YearText | frontend/src/components/calendar/CalendarHeader.tsx:25 | `yyyy` has at least four digits and reads back as the year |
| CalendarHeader.WeekSpan | frontend/src/components/calendar/CalendarHeader.tsx:27-32 | a week ends in its own month, in the next month, or in January of the next year |
| CalendarHeader.SixDaysLater | frontend/src/components/calendar/CalendarHeader.tsx:27-28 | the day six days later in calendar terms, in all three cases |
| CalendarHeader.DecemberToJanuaryTitle | frontend/src/components/calendar/CalendarHeader.tsx:27-32 | a week from December into January gets both month names, the end's day and the end's year |
| CalendarHeader.NewYearWeekTitle | frontend/src/components/calendar/CalendarHeader.tsx:29-32 | a week running into a new year is titled "Dec a - Jan b, <next year>" |
| CalendarHeader.NewYearsEveWeek | frontend/src/components/calendar/CalendarHeader.tsx:27-28 | the week of 2024-12-31 runs from 2024-12-29 to 2025-01-04 |
| CalendarHeader.NewYearWeekExample | frontend/src/components/calendar/CalendarHeader.tsx:27-32 | its title is "Dec 29 - Jan 4, 2025" |
| CalendarHeader.MonthNamesDistinct | frontend/src/components/calendar/CalendarHeader.tsx:25 | the twelve month names differ and contain no space |
| CalendarHeader.MonthTitleInjective | frontend/src/components/calendar/CalendarHeader.tsx:24-26 | equal month titles mean the same month of the same year |
| EventList.MeetingIcon | frontend/src/components/calendar/EventList.tsx:7-12 | one of the four icons |
| EventList.MeetingIconIff | frontend/src/components/calendar/EventList.tsx:7-12 | each icon is given exactly when its rule applies, Zoom before Meet before Teams |
| EventList.ZoomLinkWins | frontend/src/components/calendar/EventList.tsx:8 | any link naming Zoom gets the video icon |
| EventList.MeetLinkIcon | frontend/src/components/calendar/EventList.tsx:9 | a Meet link not naming Zoom gets the phone icon |
| EventList.RecurrenceLabelInjective | frontend/src/types/calendar.ts:32-37 | the four labels tell the rules apart |
| EventList.RepeatText | frontend/src/components/calendar/EventList.tsx:66-69 | the label, then " until MMM d" exactly when there is an end date |
| EventList.RowShows | frontend/src/components/calendar/EventList.tsx:55-84 | a row shows a time, a repeat rule and a meeting button exactly when the event has them |
| EventList.Body | frontend/src/components/calendar/EventList.tsx:34-44 | the placeholder exactly for no events, else one row per event, row i carrying event i's id |
| EventList.BodyOfDay | frontend/src/pages/Calendar.tsx:107 | fed with the day's events, the panel is the placeholder exactly when no event occurs on the day, and otherwise has a row for each event that occurs on it and for no other |
| EventList.BodyAppend | frontend/src/components/calendar/EventList.tsx:34-44 | rows follow the event list's order: one more event adds its row at the end exactly when it occurs on the day |
| EventList.RowTargets | frontend/src/components/calendar/EventList.tsx:48-93 | row i's edit and delete act on event i |
| EventForms.OptionalText | frontend/src/components/calendar/EditEventForm.tsx:92 | `time \|\| undefined`: absent exactly for the empty string |
| EventForms.OptionalLink | frontend/src/components/calendar/EditEventForm.tsx:96 | the trimmed link, absent exactly when it trims to empty |
| EventForms.KeptEndDate | frontend/src/components/calendar/EditEventForm.tsx:95 | the end date kept only for a repeating event |
| EventForms.Loaded | frontend/src/components/calendar/EditEventForm.tsx:71-83 | every field read from the event (title, time, color, recurrence, end date, start date, link, reminder settings), with "", true and 15 for absent time or link, reminder flag and reminder minutes |
| EventForms.EditSubmission | frontend/src/components/calendar/EditEventForm.tsx:85-102 | an update exactly with an event and a non-blank title, setting every field in normal form |
| EventForms.DeleteSubmission | frontend/src/components/calendar/EditEventForm.tsx:104-108 | a delete of the event's id exactly when there is an event |
| EventForms.SaveUnchanged | frontend/src/components/calendar/EditEventForm.tsx:71-102 | saving an untouched dialog rewrites the event in normal form and changes nothing else |
| EventForms.EditForm.constructor | frontend/src/components/calendar/EditEventForm.tsx:61-69 | the initial field values |
| EventForms.EditForm.Load | frontend/src/components/calendar/EditEventForm.tsx:71-83 | with an event the fields become `Loaded(event)`, else they stay |
| EventForms.EditForm.HandleSubmit | frontend/src/components/calendar/EditEventForm.tsx:85-102 | the submission of the current fields; closes exactly when an update is sent |
| EventForms.EditForm.HandleDelete | frontend/src/components/calendar/EditEventForm.tsx:104-108 | deletes and closes exactly when there is an event |
| EventForms.AddSubmission | frontend/src/components/calendar/AddEventForm.tsx:70-85 | a draft exactly for a non-blank title, on the selected date, normalised, without reminder fields |
| EventForms.BlankSubmitsNothing | frontend/src/components/calendar/AddEventForm.tsx:59-72 | a cleared dialog submits nothing |
| EventForms.AddedEventOnSelectedDay | frontend/src/components/calendar/AddEventForm.tsx:74-82 | an added event occurs on the day it was added for |
| EventForms.AddForm.constructor | frontend/src/components/calendar/AddEventForm.tsx:48-53 | the fields start blank |
| EventForms.AddForm.OpenChanged | frontend/src/components/calendar/AddEventForm.tsx:59-68 | closing clears every field; opening keeps them |
| EventForms.AddForm.HandleSubmit | frontend/src/components/calendar/AddEventForm.tsx:70-85 | the submission; when sent, the dialog closes and clears |
| EventForms.StartDayRefusedAsWritten | frontend/src/components/calendar/EditEventForm.tsx:234 | as written, the picker refuses the start day itself when the start has a time of day |
| EventForms.SelectedTodayRefusedAsWritten | frontend/src/components/calendar/AddEventForm.tsx:199 | in the add dialog, with the selected date set to the current instant after midnight, the picker as written refuses today as an end day while the intended bound allows it |
| EventForms.EndDayBound | frontend/src/components/calendar/EditEventForm.tsx:234 | the corrected test refuses exactly the days before the start day; the written test also refuses the start day when its time is not midnight |
| Lunar.MonthDayKeyIff | frontend/src/utils/vietnamese-calendar.ts:112 | the "MM-DD" keys of two days are equal iff their months and days are |
| Lunar.HolidayFor | frontend/src/utils/vietnamese-calendar.ts:122-140 | a main day carries the entry's name and days off; a later day is named "(Mùng n)" with none |
| Lunar.FindLunarHoliday | frontend/src/utils/vietnamese-calendar.ts:120-144 | none exactly when no entry matches; otherwise a lunar holiday |
| Lunar.FirstMatchWins | frontend/src/utils/vietnamese-calendar.ts:120-142 | the loop yields the first matching entry's holiday |
| Lunar.FixedHolidayWins | frontend/src/utils/vietnamese-calendar.ts:112-115 | a day in the fixed table gets its entry whatever its lunar date |
| Lunar.LunarFallback | frontend/src/utils/vietnamese-calendar.ts:117-144 | otherwise the lunar lookup decides, and null when nothing matches |
| Lunar.MainDayOfEntry | frontend/src/utils/vietnamese-calendar.ts:122-129 | each lunar entry's own day yields that entry with its days off |
| Lunar.TetLaterDays | frontend/src/utils/vietnamese-calendar.ts:132-140 | lunar 1/2..1/5 are Tết's later days, with no days off |
| Lunar.TetEndsAfterFifth | frontend/src/utils/vietnamese-calendar.ts:132-140 | lunar 1/6 is no holiday |
| Lunar.NotPublicHolidays | frontend/src/utils/vietnamese-calendar.ts:167-170 | Tết's later days and the festivals with 0 days off are not public holidays; Tết and Hùng Kings day are |
| Lunar.HolidayColor | frontend/src/utils/vietnamese-calendar.ts:157-164 | each holiday type gets its own colour, both ways |
| Lunar.MonthLabel | frontend/src/utils/vietnamese-calendar.ts:91 | the lunar month's name, or its number |
| Lunar.GetLunarInfo | frontend/src/utils/vietnamese-calendar.ts:78-107 | first day "1/<month>", full moon "Rằm", else the number; the flags hold exactly on days 1 and 15 |
| Lunar.LabelsDistinguishSpecialDays | frontend/src/utils/vietnamese-calendar.ts:89-96 | a plain day's label never looks like a special day's |
| Lunar.LunarDisplay | frontend/src/utils/vietnamese-calendar.ts:173-176 | the label, and "special" exactly on days 1 and 15 |
| Notifications.JsRem | frontend/src/hooks/useNotifications.ts:57 | JavaScript `%`: the remainder keeps the dividend's sign |
| Notifications.FormatEventTime | frontend/src/hooks/useNotifications.ts:54-59 | fails (the source throws on `minutes.toString()`) exactly when the time has no ':'; otherwise ends in PM exactly when the hour is a number ≥ 12 |
| Notifications.TwelveHour | frontend/src/hooks/useNotifications.ts:57 | 1..12, congruent to the hour mod 12 |
| Notifications.FormatOfClockTime | frontend/src/hooks/useNotifications.ts:54-59 | "HH:MM" reads as h:MM AM/PM with 0 and 12 shown as 12 |
| Notifications.ReminderMinutes | frontend/src/hooks/useNotifications.ts:113 | `\|\| 15`: never 0; the set value when non-zero |
| Notifications.ReminderDelay | frontend/src/hooks/useNotifications.ts:104-117 | no delay for an event with the reminder off or no time |
| Notifications.DelayOfClockTime | frontend/src/hooks/useNotifications.ts:108-117 | the reminder falls `reminderMinutes` before HH:MM on the event's day |
| Notifications.ScheduleAll | frontend/src/hooks/useNotifications.ts:104-128 | every timer's delay is positive and under a day |
| Notifications.ScheduleAllKeys | frontend/src/hooks/useNotifications.ts:104-128 | an id has a timer exactly when an event with it qualifies |
| Notifications.ScheduleAllLast | frontend/src/hooks/useNotifications.ts:122 | the last qualifying event with an id sets that id's map entry; the earlier timer is not cancelled |
| Notifications.TimerOf | frontend/src/hooks/useNotifications.ts:105-117 | an event yields a timer exactly when it qualifies, and then its delay is the reminder delay, positive and under a day |
| Notifications.SetTimersKeys | frontend/src/hooks/useNotifications.ts:103-123 | after the loop over the events, an id has a timer exactly when some event with that id produced one |
| Notifications.SetTimersValues | frontend/src/hooks/useNotifications.ts:103-123 | every stored timer was produced by one of the events |
| Notifications.SetTimersLast | frontend/src/hooks/useNotifications.ts:122 | `Map.set` overwrites: the last event with an id that produces a timer decides that id's map entry (the earlier timer is not cancelled) |
| Notifications.SkippedEvents | frontend/src/hooks/useNotifications.ts:106 | reminder off or no time means no timer |
| Notifications.Scheduler.constructor | frontend/src/hooks/useNotifications.ts:7 | no timers at first |
| Notifications.Scheduler.ScheduleNotifications | frontend/src/hooks/useNotifications.ts:97-133 | the map is cleared, then holds exactly `ScheduleAll` of the events and the clock: an entry per qualifying id, the last qualifying event deciding it (an overwritten entry's timer is not cancelled) |
| Notifications.Scheduler.ScheduledCount | frontend/src/hooks/useNotifications.ts:172 | the number of ids with a timer |
| Notifications.NotificationBody | frontend/src/hooks/useNotifications.ts:68-71 | no body exactly when formatting the time throws; otherwise a first line "Starting at <time>", or "Starting at soon" without a time, and a second line that is the join-meeting hint when the event has a link and "Tap to open calendar" otherwise |
| Settings.Apply | frontend/src/contexts/SettingsContext.tsx:72 | each setting is the update's when given, else the old one |
| Settings.ApplyLaws | frontend/src/contexts/SettingsContext.tsx:71-73 | empty update is identity; repeated update is idempotent; two updates compose |
| Settings.LoadSettings | frontend/src/contexts/SettingsContext.tsx:55-65 | stored keys over the defaults, or the defaults |
| Settings.LoadSavedSettings | frontend/src/contexts/SettingsContext.tsx:59-68 | what was saved loads back as itself |
| Settings.SettingsStore.constructor | frontend/src/contexts/SettingsContext.tsx:55-65 | the provider starts from the loaded settings |
| Settings.SettingsStore.UpdateSettings | frontend/src/contexts/SettingsContext.tsx:71-73 | exactly the provided keys change |
| Settings.SettingsStore.Translate | frontend/src/contexts/SettingsContext.tsx:75-77 | `t` in the current language |
| Settings.T | frontend/src/contexts/SettingsContext.tsx:76 | the translation when present, else the key itself |
| Settings.SameKeys | frontend/src/contexts/SettingsContext.tsx:23-50 | both tables have the same keys and no empty text |
| Settings.FallbackAgrees | frontend/src/contexts/SettingsContext.tsx:76 | `t` falls back to the key in one language exactly when it does in the other |
| Avatar.FallbackText | frontend/src/components/ui/avatar.tsx:27-31 | 1 or 2 characters: the fallback's first two upper-cased, else the alt's, else "?" |
| Avatar.DefaultInitials | frontend/src/components/ui/avatar.tsx:19-31 | with neither prop the avatar reads "AV"; an explicit empty alt gives "?" |
| Avatar.InitialsOfName | frontend/src/components/ui/avatar.tsx:28 | the initials are the fallback's first two characters, upper-cased |
| Avatar.AvatarState.constructor | frontend/src/components/ui/avatar.tsx:25 | no image error at first |
| Avatar.AvatarState.OnImageError | frontend/src/components/ui/avatar.tsx:47 | after a load error the flag is set |
| Avatar.AvatarState.Render | frontend/src/components/ui/avatar.tsx:42-51 | the picture exactly when there is a source and no error; else the fallback letters (`FallbackText` of the fallback and alt), 1–2 of them |
| Api.WithCreds | frontend/src/services/api.ts:44-45 | every request includes credentials |
| Api.EventUrlInjective | frontend/src/services/api.ts:101-108 | different events have different URLs |
| Api.ParseLongOfIntToString | backend/backend/src/main/java/com/example/backend/controller/EventController.java:30 | the client's decimal id text converts to the `Long` path variable exactly when the id lies in the 64-bit range, and then to the id itself |
| Api.EventRoutesAsWritten | backend/backend/src/main/java/com/example/backend/controller/EventController.java:29-38 | as written, the update and delete URLs `/api/events/<id>` match neither mapping, so no handler receives the id |
| Api.EventRoutesRoundTrip | backend/backend/src/main/java/com/example/backend/controller/EventController.java:29-38 | with `/{id}` on both mappings, an update or delete reaches its handler with the id from the URL, for every `Long` id |
| Api.GoogleOAuthUrlValue | frontend/src/services/api.ts:84 | for an API URL `<host>/api` (the configured one is `http://localhost:8080/api`), the Google link is `<host>/oauth2/authorization/google`, outside `/api` |
| Api.OrElse | frontend/src/services/api.ts:39-50 | `value \|\| fallback` for an optional text |
| Api.HandleResponse | frontend/src/services/api.ts:36-42 | success exactly for an ok reply with a readable body; errors carry the server's message or "Request failed" |
| Api.WrapAuthResponse | frontend/src/services/api.ts:48-62 | a user exactly when the reply has a non-zero id and a non-empty email, else its message or "Login failed" |
| Api.WrapRoundTrip | frontend/src/services/api.ts:48-62 | a reply describing a user signs in that very user |
| Api.RefusalMessage | frontend/src/services/api.ts:49-50 | a message-only reply surfaces its message as the error |
| Api.AuthCall | frontend/src/services/api.ts:65-88 | an ok, readable reply gives exactly what `wrapAuthResponse` makes of it, with the requested provider on a success; any other reply fails with `handleResponse`'s error |
| Api.Register | frontend/src/services/api.ts:65-72 | a registered user is a local one |
| Api.Login | frontend/src/services/api.ts:74-81 | a logged-in user is a local one |
| Api.GetCurrentUser | frontend/src/services/api.ts:86-88 | the current user is reported as a Google one |
| Api.RefusedLogin | frontend/src/services/api.ts:37-39 | an HTTP error never signs in and reports the server's message when present |
| EventService.ConvertToDto | backend/backend/src/main/java/com/example/backend/service/EventService.java:26-38 | the seven fields, the id and the owner copied; no reminder settings |
| EventService.ConvertToEntity | backend/backend/src/main/java/com/example/backend/service/EventService.java:41-51 | the seven fields copied; reminders take the entity defaults on/15 |
| EventService.ConversionRoundTrip | backend/backend/src/main/java/com/example/backend/service/EventService.java:26-51 | the DTO sent back carries the fields sent in, but not the client's reminder settings |
| EventService.EntityRoundTrip | backend/backend/src/main/java/com/example/backend/service/EventService.java:26-51 | entity → DTO → entity keeps the fields and resets reminders to the defaults |
| EventService.InsertPosition | backend/backend/src/main/java/com/example/backend/service/EventService.java:20 | the insertion point splits earlier-or-equal dates from later ones |
| EventService.Insert | backend/backend/src/main/java/com/example/backend/service/EventService.java:20 | inserting into a list sorted by a key keeps it sorted by that key and adds exactly the new item (as a multiset) |
| EventService.InsertKeepsIdsDistinct | backend/backend/src/main/java/com/example/backend/service/EventService.java:20 | inserting a new id keeps the ids distinct |
| EventService.EventStore.constructor | backend/backend/src/main/java/com/example/backend/service/EventService.java:17-18 | an empty events table over the given users |
| EventService.EventStore.CreateEvent | backend/backend/src/main/java/com/example/backend/service/EventService.java:57-65 | null user id, unknown user and null not-null column fail with nothing stored; otherwise stored under a fresh id with reminders on/15 |
| EventService.EventStore.UpdateEvent | backend/backend/src/main/java/com/example/backend/service/EventService.java:67-80 | unknown id fails; the seven fields are overwritten, nulls included, the rest kept |
| EventService.EventStore.DeleteEvent | backend/backend/src/main/java/com/example/backend/service/EventService.java:53-55 | the row with the id is gone; an unknown id is no error |
| EventService.EventStore.GetEventsByUserId | backend/backend/src/main/java/com/example/backend/service/EventService.java:19-23 | exactly the user's stored events, each once, ordered by date, as DTOs |
| EventService.Dtos | backend/backend/src/main/java/com/example/backend/service/EventService.java:20-22 | one DTO per event, in order |
| Auth.FindByEmail | fixes/service/AuthService.java:36-37 | the row with that email, or none exactly when no row has it |
| Auth.FindByGoogleId | backend/backend/src/main/java/com/example/backend/controller/AuthController.java:38 | the row with that Google id, or none exactly when no row has it |
| Auth.UserRepository.constructor | fixes/model/User.java:23-28 | an empty users table |
| Auth.UserRepository.Save | fixes/model/User.java:27-39 | a null email, a repeated email or a repeated Google id is refused with nothing stored; otherwise appended under a fresh id |
| Auth.MapToResponse | fixes/service/AuthService.java:174-182 | the user's id, email, name and avatar, and the message |
| Auth.MessageOnly | fixes/service/AuthService.java:42-44 | a reply with no user, only a message |
| Auth.CheckPassword | fixes/service/AuthService.java:41 | a null password is an error; a match requires a stored hash that `matches` accepts |
| Auth.Login | fixes/service/AuthService.java:33-54 | a user exactly when the email is found and the password matches; "Invalid email or password" for an unknown email or a wrong password; "An error occurred during login: " and the encoder's error text when the check fails |
| Auth.Register | fixes/service/AuthService.java:59-86 | "Email already exists" for a taken email; otherwise a new local account with the encoded password, or an error message and nothing stored |
| Auth.GoogleLogin | fixes/service/AuthService.java:105-109 | the stub signs nobody in |
| Auth.RegisteredCanLogIn | fixes/service/AuthService.java:33-86 | a freshly registered account logs in with its password |
| Auth.FoundAfterAppend | fixes/service/AuthService.java:36-77 | a saved row with a new email is what `findByEmail` finds |
| Auth.PlainLogin | backend/backend/src/main/java/com/example/backend/service/AuthService.java:17-31 | plain-text comparison; a user without a stored password makes it throw |
| Auth.LoginSuccess | backend/backend/src/main/java/com/example/backend/controller/AuthController.java:27-62 | not authenticated without a principal; the existing user, or one created from the account; for an unknown Google id, success exactly when the account's email is present and unused, saving one new row; a taken email or null email fails; afterwards the Google id is found |
| Auth.GoogleIdFoundAfterAppend | backend/backend/src/main/java/com/example/backend/controller/AuthController.java:38-48 | a created row is what the next `findByGoogleId` finds |

## Left out

- Rendering, styling, animation and the DOM are not modelled. Only what the components compute
  is: ids, titles, labels, cells and submissions.
- Network, browser storage, `Notification`, audio, `setTimeout` and the clock are not modelled.
  A reply, a stored settings value and `now` are inputs; a timer is its delay.
  - The notification's title, sound, click handling and auto-close are left out.
  - The test-notification function and permission requests are left out.
- The emoji in the notification hint is written as the link emoji "🔗". The source file shows
  those bytes mis-encoded.
- Time zones, daylight saving and leap seconds are not modelled. Local time equals UTC.
- The solar-to-lunar conversion library is outside the model. The lunar date is an input.
- `generateId` is random. Ids are supplied by the caller.
- `parseISO` is modelled only on the complete form that `toISOString` writes. Other inputs are
  an Invalid Date (`None`).
- CalendarPage.DropPatch: a target whose date does not parse makes the code patch an Invalid
  Date. The model applies no patch then.
- CalendarPage.MonthDropRoundTrip, AllDayDropRoundTrip, HourDropRoundTrip: assume years
  -999999..999999. That is a superset of what a JavaScript `Date` can hold (±8.64e15 ms, years
  -271821..275760). The model does not bound dates to the `Date` range.
- Text.NumberOf covers white space around an optional sign and decimal digits, and the empty
  text as 0, as `Number` reads them. It reads as `None` (NaN) the forms `Number` accepts
  otherwise: fractions, exponents, "Infinity", and hex, octal and binary literals ("0x1A",
  "0o7", "0b1"). Floating point is not modelled.
- Text.ParseInt is `parseInt(s, 10)`, the radix both core call sites pass. The digit run is
  read as an unbounded integer; the rounding of very long runs to a double is not modelled.
- Lunar.HolidayColor: the `default` arm is unreachable for the three typed values and is not
  modelled.
- Settings.LoadSettings: a stored object is assumed to hold well-typed values for any of the
  three keys. Extra keys and mistyped values are not modelled.
- Text.ToUpper: models `toUpperCase` on the ASCII letters a..z only. Other letters, and the
  mappings that change length ("ß" to "SS"), are not modelled.
- Avatar.FallbackText: upper-casing covers ASCII letters only, and `slice` counts code points
  rather than UTF-16 units.
- Avatar.SizeClasses: plain data, no contract.
- EventService.Message and Auth.SaveErrorText hold stand-in texts for the database's exception
  messages. Those exceptions' exact wording is outside the code.
- EventService.EventStore.GetEventsByUserId: the order among events on the same date is not
  specified by the repository query. The model states only the date order.
- EventService.EventStore.DeleteEvent: Spring Data ignores a missing id, and so does the model.
- Api.ParseLong: reads the decimal forms the client sends. Spring's conversion to `Long` also
  trims white space and decodes "0x…" and "#…" hexadecimal; those forms are not modelled.
- Api.ReachedId: which status Spring answers for a request that reaches no handler (404, 405
  or a missing path variable) is not modelled. The model says only that no handler gets the id.
- Notifications.Scheduler: only the map of timers is modelled. When two qualifying events
  share an id, `Map.set` replaces the entry without `clearTimeout`, so the first timer is
  orphaned. It still fires, and the next clearing pass does not reach it. The model does not
  track such orphaned timers.
- Auth: the password encoder's hashing is a pair of function parameters (`encode`,
  `matches`). BCrypt itself is not modelled.
- Auth.LoginSuccess: the `sub` attribute is assumed present.
  - The `AuthController` register and login endpoints only delegate to the service.
  - Its `/test` endpoint returns constant text.
- `RecurringEventDialog`: no component renders it, so its move-this-one and move-all
  callbacks are never wired. A drop always patches the whole series, and no detach of a single
  occurrence is modelled.

## Findings

| source | as written | input that shows it | evidently intended | confidence | as-written member | corrected member |
|---|---|---|---|---|---|---|
| frontend/src/components/calendar/EditEventForm.tsx:234 | the end-date picker disables `date < startDate`, comparing the picker's midnight with the start instant | start 2024-03-04 10:00: the picker refuses 2024-03-04 itself, so a series cannot end on its start day | refuse exactly the days before the start day | not executed | EventForms.StartDayRefusedAsWritten | EventForms.EndDayBound |
| frontend/src/components/calendar/AddEventForm.tsx:199 | the add dialog's picker disables `date < selectedDate`; the selected date is `new Date()` when the page opens and after "Today", so it carries the time of day | the page opened at 10:00 today: adding a repeating event for today refuses today as its end day | refuse exactly the days before the selected day | not executed | EventForms.SelectedTodayRefusedAsWritten | EventForms.EndDayBound |
| backend/backend/src/main/java/com/example/backend/controller/EventController.java:29-38 | `@PutMapping` and `@DeleteMapping` carry no path, yet their handlers read `@PathVariable Long id` | `updateEvent(7, …)` sends `PUT /api/events/7`, which matches no mapping | map both handlers at `/{id}` so the id in the URL reaches them | not executed | Api.EventRoutesAsWritten | Api.EventRoutesRoundTrip |
