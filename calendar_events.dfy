/**
 * What both month calendars (src/components/Calendar.tsx and
 * src/components/Calendar/Calendar.tsx) do with the events they are given: pick the
 * events of one day and label each with its start time and title.
 */
module CalendarEvents {
  import opened Dates
  import opened Lists
  import opened JsStrings

  /** An interview on the calendar. `date` is the calendar day that `new Date(event.date)`
      falls on; `time` is a text such as "14:00-15:00". */
  datatype CalendarEvent = CalendarEvent(id: string, date: Date, time: string, title: string, kind: string)

  /** The comparison `getEventsForDate` makes: day of month, month and year all agree. */
  predicate SameDay(a: Date, b: Date) {
    a.day == b.day && a.month == b.month && a.year == b.year
  }

  /** `getEventsForDate(date)`: the events on that calendar day, in the order given. */
  function EventsOn(events: seq<CalendarEvent>, d: Date): (r: seq<CalendarEvent>)
    ensures forall i :: 0 <= i < |r| ==> r[i] in events && r[i].date == d
    ensures forall i :: 0 <= i < |events| && events[i].date == d ==> events[i] in r
    ensures IsSubsequence(r, events)
  {
    var onDay := (e: CalendarEvent) => SameDay(e.date, d);
    FilterIsSubsequence(events, onDay);
    Filter(events, onDay)
  }

  /** The line an event gets inside a day cell: `${event.time.split('-')[0]} ${event.title}`,
      that is the start time (the text before the first `-`), a space, and the title. */
  function EventLabel(e: CalendarEvent): (r: string)
    ensures r == Before(e.time, '-') + " " + e.title
  {
    FirstPieceIsBefore(e.time, '-');
    Split(e.time, '-')[0] + " " + e.title
  }
}
