/**
 * The month calendar of the schedule screen (src/components/Calendar.tsx): a fixed grid
 * of 42 cells, blank before the first and after the last day of the month, a per-day
 * summary of at most two events, and month navigation with `setMonth`.
 */
module GridCalendar {
  import opened Wrappers
  import opened Dates
  import opened JsStrings
  import opened CalendarEvents

  /** `startingDayOfWeek`: the weekday of the 1st of the month. */
  function StartingDayOfWeek(year: int, month: int): int
    requires 0 <= month < 12
  {
    Weekday(MakeDate(year, month, 1))
  }

  /** `totalDays`: `new Date(year, month + 1, 0).getDate()`. */
  function TotalDays(year: int, month: int): (r: int)
    requires 0 <= month < 12
    ensures r == DaysInMonth(year, month)
  {
    LastDayOfMonth(year, month);
    MakeDate(year, month + 1, 0).day
  }

  /** The `days` array: 42 cells, cell `i` holding day `i - startingDayOfWeek + 1` of the
      month when that number is a day of the month and blank (`null`) otherwise. */
  function Cells(year: int, month: int): seq<Option<Date>>
    requires 0 <= month < 12
  {
    var start, total := StartingDayOfWeek(year, month), TotalDays(year, month);
    seq(42, i =>
      var dayNumber := i - start + 1;
      if dayNumber < 1 || dayNumber > total then None else Some(MakeDate(year, month, dayNumber)))
  }

  /** The grid's layout: 42 cells; `startingDayOfWeek` blanks, then every day of the month
      in order, then blanks; each day sits in the column of its weekday (Sunday first). */
  lemma GridLayout(year: int, month: int)
    requires 0 <= month < 12
    ensures var cells, start := Cells(year, month), Weekday(Date(year, month, 1));
      && |cells| == 42
      && StartingDayOfWeek(year, month) == start
      && (forall i :: 0 <= i < 42 ==> (cells[i].Some? <==> start <= i < start + DaysInMonth(year, month)))
      && (forall i :: 0 <= i < 42 && cells[i].Some? ==>
            cells[i].value == Date(year, month, i - start + 1) && Weekday(cells[i].value) == i % 7)
      && (forall d :: 1 <= d <= DaysInMonth(year, month) ==> cells[start + d - 1] == Some(Date(year, month, d)))
  {
    var cells, start := Cells(year, month), Weekday(Date(year, month, 1));
    MakeDateOfValid(Date(year, month, 1));
    forall i | 0 <= i < 42 && cells[i].Some?
      ensures cells[i].value == Date(year, month, i - start + 1) && Weekday(cells[i].value) == i % 7
    {
      MakeDateOfValid(Date(year, month, i - start + 1));
      WeekdayOffset(Date(year, month, 1), Date(year, month, i - start + 1), i - start);
    }
    forall d | 1 <= d <= DaysInMonth(year, month)
      ensures cells[start + d - 1] == Some(Date(year, month, d))
    {
      MakeDateOfValid(Date(year, month, d));
    }
  }

  /** `isDateSelected` and `isToday`: `toDateString` compares the calendar day only, and a
      modelled date is nothing but its calendar day. */
  predicate IsDateSelected(selected: Option<Date>, d: Date) {
    selected.Some? && SameDay(selected.value, d)
  }

  /** At most one cell of the grid is marked as selected, and at most one as today. */
  lemma AtMostOneSelectedCell(year: int, month: int, selected: Option<Date>)
    requires 0 <= month < 12
    ensures var cells := Cells(year, month);
      forall i, j ::
        0 <= i < |cells| && 0 <= j < |cells| && cells[i].Some? && cells[j].Some? &&
        IsDateSelected(selected, cells[i].value) && IsDateSelected(selected, cells[j].value)
        ==> i == j
  {
    GridLayout(year, month);
  }

  // ---------------------------------------------------------------------------
  // A day cell's event summary
  // ---------------------------------------------------------------------------

  /** What a day cell shows about its events: the count badge, the first lines, and the
      "+N 更多" line. */
  datatype CellSummary = CellSummary(badge: Option<nat>, lines: seq<string>, more: Option<string>)

  function MoreLabel(hidden: int): string {
    "+" + IntToString(hidden) + " 更多"
  }

  /** The summary of a cell whose day has `dayEvents`: a badge with the count when there
      is at least one event, the labels of the first two events, and a "+N 更多" line
      naming how many events are left out, present exactly when there are more than two. */
  function Summarize(dayEvents: seq<CalendarEvent>): (r: CellSummary)
    ensures r.badge.Some? <==> |dayEvents| >= 1
    ensures r.badge.Some? ==> r.badge.value == |dayEvents|
    ensures |r.lines| == (if |dayEvents| < 2 then |dayEvents| else 2)
    ensures forall i :: 0 <= i < |r.lines| ==> r.lines[i] == EventLabel(dayEvents[i])
    ensures r.more.Some? <==> |dayEvents| > 2
    ensures r.more.Some? ==>
      r.more.value != [] && r.more.value[0] == '+' && ParseInt(r.more.value[1..]) == Some(|dayEvents| - |r.lines|)
    ensures r.more.Some? ==> r.more.value == "+" + IntToString(|dayEvents| - 2) + " 更多"
  {
    var shown := if |dayEvents| < 2 then dayEvents else dayEvents[..2];
    var more := if |dayEvents| > 2 then Some(MoreLabel(|dayEvents| - 2)) else None;
    if |dayEvents| > 2 then
      assert MoreLabel(|dayEvents| - 2)[1..] == IntToString(|dayEvents| - 2) + " 更多";
      ParseIntOfIntToString(|dayEvents| - 2, " 更多");
      CellSummary(Some(|dayEvents|), seq(|shown|, i requires 0 <= i < |shown| => EventLabel(shown[i])), more)
    else
      CellSummary(if |dayEvents| > 0 then Some(|dayEvents|) else None,
                  seq(|shown|, i requires 0 <= i < |shown| => EventLabel(shown[i])), more)
  }

  // ---------------------------------------------------------------------------
  // Month navigation
  // ---------------------------------------------------------------------------

  /** `date.setMonth(month)`: the day of the month is kept, so a day the new month does not
      have rolls over into the month after it. */
  function SetMonth(d: Date, month: int): Date {
    MakeDate(d.year, month, d.day)
  }

  /** The month navigation as the corrected calendar does it: day 1 of the month
      `step` months away. */
  function StepMonth(d: Date, step: int): Date {
    MakeDate(d.year, d.month + step, 1)
  }

  /** From 31 January 2023 the "next" arrow as written shows March 2023: February is
      skipped, because 31 February 2023 rolls over to 3 March. */
  lemma NavigateNextSkipsFebruary()
    ensures SetMonth(Date(2023, 0, 31), 1) == Date(2023, 2, 3)
  {
    JanuaryThirtyFirstPlusOneMonth();
  }

  /** With the corrected step, "next" always shows the following month and "previous" the
      preceding one, whatever the day. */
  lemma StepMonthIsAdjacentMonth(d: Date)
    requires Valid(d)
    ensures var n := StepMonth(d, 1); (n.year, n.month) == NextMonth(d.year, d.month) && n.day == 1
    ensures var p := StepMonth(d, -1); (p.year, p.month) == PreviousMonth(d.year, d.month) && p.day == 1
  {
    FirstOfNextMonth(d.year, d.month);
    FirstOfPreviousMonth(d.year, d.month);
  }

  /** The calendar's state: the date whose month is on show. */
  class MonthView {
    var currentDate: Date

    ghost predicate Valid()
      reads this
    {
      Dates.Valid(currentDate)
    }

    /** `useState(new Date())`; today's date is a parameter. */
    constructor(today: Date)
      requires Dates.Valid(today)
      ensures Valid() && currentDate == today
    {
      currentDate := today;
    }

    /** The cells on show. */
    function Days(): seq<Option<Date>>
      reads this
      requires Valid()
    {
      Cells(currentDate.year, currentDate.month)
    }

    /** `navigateMonth` as written: `setMonth(getMonth() ± 1)` on a copy of the date. */
    method NavigateMonth(forward: bool)
      requires Valid()
      modifies this
      ensures Valid()
      ensures currentDate == SetMonth(old(currentDate), old(currentDate).month + if forward then 1 else -1)
    {
      currentDate := MakeDate(currentDate.year, currentDate.month + (if forward then 1 else -1), currentDate.day);
    }

    /** `navigateMonth` as evidently intended: the first of the adjacent month, so the
        month on show is always the next or the previous one. */
    method NavigateMonthCorrected(forward: bool)
      requires Valid()
      modifies this
      ensures Valid()
      ensures currentDate == StepMonth(old(currentDate), if forward then 1 else -1)
      ensures forward ==> (currentDate.year, currentDate.month) == NextMonth(old(currentDate).year, old(currentDate).month)
      ensures !forward ==> (currentDate.year, currentDate.month) == PreviousMonth(old(currentDate).year, old(currentDate).month)
    {
      StepMonthIsAdjacentMonth(currentDate);
      currentDate := MakeDate(currentDate.year, currentDate.month + (if forward then 1 else -1), 1);
    }
  }
}
