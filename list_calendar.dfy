/**
 * The month calendar of src/components/Calendar/Calendar.tsx: the cells are the tail of
 * the previous month, every day of the current month and the head of the next month,
 * built by three counting loops; the month on show and the selected day are state.
 */
module ListCalendar {
  import opened Wrappers
  import opened Dates
  import opened CalendarEvents

  /** One cell: the day it shows and whether that day belongs to the month on show. */
  datatype DayCell = DayCell(date: Date, isCurrentMonth: bool)

  /** `getDaysInMonth(date)`: `new Date(year, month + 1, 0).getDate()`. */
  function GetDaysInMonth(d: Date): (r: int)
    requires Valid(d)
    ensures r == DaysInMonth(d.year, d.month)
  {
    LastDayOfMonth(d.year, d.month);
    MakeDate(d.year, d.month + 1, 0).day
  }

  /** `getFirstDayOfMonth(date)`: the weekday of the 1st of the month. */
  function GetFirstDayOfMonth(d: Date): (r: int)
    requires Valid(d)
    ensures r == Weekday(Date(d.year, d.month, 1))
  {
    MakeDateOfValid(Date(d.year, d.month, 1));
    Weekday(MakeDate(d.year, d.month, 1))
  }

  // ---------------------------------------------------------------------------
  // The three runs of cells, as values
  // ---------------------------------------------------------------------------

  /** The last `firstDay` days of the previous month, oldest first, ending on its last day. */
  function PreviousDays(d: Date): seq<DayCell>
    requires Valid(d)
  {
    var (py, pm) := PreviousMonth(d.year, d.month);
    var n, f := DaysInMonth(py, pm), Weekday(Date(d.year, d.month, 1));
    seq(f, k => DayCell(Date(py, pm, n - f + 1 + k), false))
  }

  /** Days 1 to the last of the month on show. */
  function CurrentDays(d: Date): seq<DayCell>
    requires Valid(d)
  {
    seq(DaysInMonth(d.year, d.month), k => DayCell(Date(d.year, d.month, k + 1), true))
  }

  /** Days 1 to `6 - weekday(last day)` of the next month: none when the month ends on a
      Saturday. */
  function NextDays(d: Date): seq<DayCell>
    requires Valid(d)
  {
    var (ny, nm) := NextMonth(d.year, d.month);
    var last := Weekday(Date(d.year, d.month, DaysInMonth(d.year, d.month)));
    seq(6 - last, k => DayCell(Date(ny, nm, k + 1), false))
  }

  /** `getAllDays()`. */
  function AllDays(d: Date): seq<DayCell>
    requires Valid(d)
  {
    PreviousDays(d) + CurrentDays(d) + NextDays(d)
  }

  // ---------------------------------------------------------------------------
  // The loops of the component
  // ---------------------------------------------------------------------------

  /** `getPreviousMonthDays(date)`: counts `i` down from `firstDay - 1` to 0 and pushes
      day `daysInPreviousMonth - i` of the previous month. */
  method GetPreviousMonthDays(date: Date) returns (days: seq<DayCell>)
    requires Valid(date)
    ensures days == PreviousDays(date)
  {
    var firstDay := GetFirstDayOfMonth(date);
    var previousMonth := MakeDate(date.year, date.month - 1, 1);
    FirstOfPreviousMonth(date.year, date.month);
    var daysInPreviousMonth := GetDaysInMonth(previousMonth);
    ghost var py, pm := previousMonth.year, previousMonth.month;
    ghost var start := daysInPreviousMonth - firstDay + 1;
    days := [];
    var i := firstDay - 1;
    while i >= 0
      invariant -1 <= i <= firstDay - 1
      invariant |days| == firstDay - 1 - i
      invariant forall k :: 0 <= k < |days| ==> days[k] == DayCell(Date(py, pm, start + k), false)
    {
      MakeDateOfValid(Date(py, pm, daysInPreviousMonth - i));
      var cell := DayCell(MakeDate(previousMonth.year, previousMonth.month, daysInPreviousMonth - i), false);
      assert cell == DayCell(Date(py, pm, start + |days|), false);
      days := days + [cell];
      i := i - 1;
    }
    PreviousDaysFrom(date, days);
  }

  /** Cells that count up from the right day of the previous month are its tail. */
  lemma PreviousDaysFrom(date: Date, days: seq<DayCell>)
    requires Valid(date)
    requires var (py, pm) := PreviousMonth(date.year, date.month);
      var n, f := DaysInMonth(py, pm), Weekday(Date(date.year, date.month, 1));
      |days| == f && forall k :: 0 <= k < f ==> days[k] == DayCell(Date(py, pm, n - f + 1 + k), false)
    ensures days == PreviousDays(date)
  {
  }

  /** `getCurrentMonthDays(date)`: pushes days 1 to `daysInMonth`. */
  method GetCurrentMonthDays(date: Date) returns (days: seq<DayCell>)
    requires Valid(date)
    ensures days == CurrentDays(date)
  {
    var daysInMonth := GetDaysInMonth(date);
    days := [];
    var i := 1;
    while i <= daysInMonth
      invariant 1 <= i <= daysInMonth + 1
      invariant |days| == i - 1
      invariant forall k :: 0 <= k < |days| ==> days[k] == DayCell(Date(date.year, date.month, k + 1), true)
    {
      MakeDateOfValid(Date(date.year, date.month, i));
      days := days + [DayCell(MakeDate(date.year, date.month, i), true)];
      i := i + 1;
    }
  }

  /** `getNextMonthDays(date)`: pushes day `i` of the next month while `i < 7 - lastDay`. */
  method GetNextMonthDays(date: Date) returns (days: seq<DayCell>)
    requires Valid(date)
    ensures days == NextDays(date)
  {
    var daysInMonth := GetDaysInMonth(date);
    MakeDateOfValid(Date(date.year, date.month, daysInMonth));
    var lastDay := Weekday(MakeDate(date.year, date.month, daysInMonth));
    var (ny, nm) := NextMonth(date.year, date.month);
    days := [];
    var i := 1;
    while i < 7 - lastDay
      invariant 1 <= i <= 7 - lastDay
      invariant |days| == i - 1
      invariant forall k :: 0 <= k < |days| ==> days[k] == DayCell(Date(ny, nm, k + 1), false)
    {
      DayOfNextMonth(date.year, date.month, i);
      days := days + [DayCell(MakeDate(date.year, date.month + 1, i), false)];
      i := i + 1;
    }
  }

  // ---------------------------------------------------------------------------
  // What the cells add up to
  // ---------------------------------------------------------------------------

  /** The day number of the Sunday that opens the first row. */
  function GridStart(d: Date): int
    requires Valid(d)
  {
    DayNumber(Date(d.year, d.month, 1)) - Weekday(Date(d.year, d.month, 1))
  }

  lemma PreviousDaysAreConsecutive(d: Date)
    requires Valid(d)
    ensures forall k :: 0 <= k < |PreviousDays(d)| ==>
      Valid(PreviousDays(d)[k].date) && DayNumber(PreviousDays(d)[k].date) == GridStart(d) + k
    ensures forall k :: 0 <= k < |PreviousDays(d)| ==>
      !PreviousDays(d)[k].isCurrentMonth && (PreviousDays(d)[k].date.year, PreviousDays(d)[k].date.month) != (d.year, d.month)
  {
    var (py, pm) := PreviousMonth(d.year, d.month);
    MonthsAreContiguous(py, pm);
    assert NextMonth(py, pm) == (d.year, d.month);
  }

  lemma CurrentDaysAreConsecutive(d: Date)
    requires Valid(d)
    ensures forall k :: 0 <= k < |CurrentDays(d)| ==>
      Valid(CurrentDays(d)[k].date) &&
      DayNumber(CurrentDays(d)[k].date) == GridStart(d) + Weekday(Date(d.year, d.month, 1)) + k
  {
  }

  lemma NextDaysAreConsecutive(d: Date)
    requires Valid(d)
    ensures forall k :: 0 <= k < |NextDays(d)| ==>
      Valid(NextDays(d)[k].date) &&
      DayNumber(NextDays(d)[k].date) == GridStart(d) + Weekday(Date(d.year, d.month, 1)) + DaysInMonth(d.year, d.month) + k
    ensures forall k :: 0 <= k < |NextDays(d)| ==>
      !NextDays(d)[k].isCurrentMonth && (NextDays(d)[k].date.year, NextDays(d)[k].date.month) != (d.year, d.month)
  {
    MonthsAreContiguous(d.year, d.month);
  }

  /** The grid holds four, five or six full weeks. */
  lemma AllDaysLength(d: Date)
    requires Valid(d)
    ensures |AllDays(d)| == 28 || |AllDays(d)| == 35 || |AllDays(d)| == 42
    ensures |AllDays(d)| % 7 == 0
  {
    var f := Weekday(Date(d.year, d.month, 1));
    var dim := DaysInMonth(d.year, d.month);
    WeekdayOffset(Date(d.year, d.month, 1), Date(d.year, d.month, dim), dim - 1);
    assert |NextDays(d)| == 6 - (f + dim - 1) % 7;
    assert |AllDays(d)| == f + dim + |NextDays(d)|;
  }

  /** Cell `k` is day `GridStart + k`: the cells run through consecutive days. */
  lemma AllDaysConsecutive(d: Date)
    requires Valid(d)
    ensures forall k :: 0 <= k < |AllDays(d)| ==>
      Valid(AllDays(d)[k].date) && DayNumber(AllDays(d)[k].date) == GridStart(d) + k
  {
    var cells := AllDays(d);
    var p, c, n := PreviousDays(d), CurrentDays(d), NextDays(d);
    var f := |p|;
    var dim := |c|;
    PreviousDaysAreConsecutive(d);
    CurrentDaysAreConsecutive(d);
    NextDaysAreConsecutive(d);
    forall k | 0 <= k < |cells|
      ensures Valid(cells[k].date) && DayNumber(cells[k].date) == GridStart(d) + k
    {
      if k < f {
        assert cells[k] == p[k];
      } else if k < f + dim {
        assert cells[k] == c[k - f];
      } else {
        assert cells[k] == n[k - f - dim];
      }
    }
  }

  /** A cell is flagged as the current month exactly when its day is in the month on show. */
  lemma AllDaysCurrentFlag(d: Date)
    requires Valid(d)
    ensures forall k :: 0 <= k < |AllDays(d)| ==>
      (AllDays(d)[k].isCurrentMonth <==> AllDays(d)[k].date.year == d.year && AllDays(d)[k].date.month == d.month)
  {
    var cells := AllDays(d);
    var p, c, n := PreviousDays(d), CurrentDays(d), NextDays(d);
    PreviousDaysAreConsecutive(d);
    NextDaysAreConsecutive(d);
    forall k | 0 <= k < |cells|
      ensures cells[k].isCurrentMonth <==> cells[k].date.year == d.year && cells[k].date.month == d.month
    {
      if k < |p| {
        assert cells[k] == p[k];
      } else if k < |p| + |c| {
        assert cells[k] == c[k - |p|];
      } else {
        assert cells[k] == n[k - |p| - |c|];
      }
    }
  }

  /** The cells run through consecutive days from a Sunday: cell `k` falls on weekday
      `k % 7`; a cell is flagged as the current month exactly when its day is in the month
      on show; the grid has four, five or six full weeks and ends on a Saturday. */
  lemma AllDaysShape(d: Date)
    requires Valid(d)
    ensures var cells := AllDays(d);
      && (|cells| == 28 || |cells| == 35 || |cells| == 42)
      && (forall k :: 0 <= k < |cells| ==> Valid(cells[k].date) && Weekday(cells[k].date) == k % 7)
      && (forall k :: 0 < k < |cells| ==> DayNumber(cells[k].date) == DayNumber(cells[k - 1].date) + 1)
      && (forall k :: 0 <= k < |cells| ==>
            (cells[k].isCurrentMonth <==> cells[k].date.year == d.year && cells[k].date.month == d.month))
      && Weekday(cells[|cells| - 1].date) == 6
  {
    var cells := AllDays(d);
    AllDaysLength(d);
    AllDaysConsecutive(d);
    AllDaysCurrentFlag(d);
    var first := Date(d.year, d.month, 1);
    forall k | 0 <= k < |cells| ensures Weekday(cells[k].date) == k % 7 {
      WeekdayOffset(first, cells[k].date, k - Weekday(first));
    }
  }

  /** Every event of a day is listed, none left out, each under its label. */
  function DayEventLines(dayEvents: seq<CalendarEvent>): (r: seq<string>)
    ensures |r| == |dayEvents|
    ensures forall i :: 0 <= i < |r| ==> r[i] == EventLabel(dayEvents[i])
  {
    seq(|dayEvents|, i requires 0 <= i < |dayEvents| => EventLabel(dayEvents[i]))
  }

  // ---------------------------------------------------------------------------
  // The component's state
  // ---------------------------------------------------------------------------

  /** Stepping the month by `a` and then by `b` is stepping it by `a + b`; in particular
      twelve steps forward and twelve back return to the month one started from. */
  lemma MonthChangesCompose(d: Date, a: int, b: int)
    requires Valid(d)
    ensures var d1 := MakeDate(d.year, d.month + a, 1);
      MakeDate(d1.year, d1.month + b, 1) == MakeDate(d.year, d.month + (a + b), 1)
    ensures var d1 := MakeDate(d.year, d.month + 12, 1);
      MakeDate(d1.year, d1.month - 12, 1) == Date(d.year, d.month, 1)
  {
    FirstOfMonth(d.year, d.month + a);
    var d1 := MakeDate(d.year, d.month + a, 1);
    FirstOfMonth(d1.year, d1.month + b);
    FirstOfMonth(d.year, d.month + (a + b));
    MonthArithmetic(d.year, d.month + a, b);
    FirstOfMonth(d.year, d.month + 12);
    var d2 := MakeDate(d.year, d.month + 12, 1);
    FirstOfMonth(d2.year, d2.month - 12);
  }

  class CalendarView {
    var currentDate: Date
    var selectedDate: Option<Date>

    ghost predicate Valid()
      reads this
    {
      Dates.Valid(currentDate)
    }

    /** `useState(propSelectedDate || new Date())` and `useState(propSelectedDate)`; today's
        date is a parameter. */
    constructor(propSelectedDate: Option<Date>, today: Date)
      requires Dates.Valid(today)
      requires propSelectedDate.Some? ==> Dates.Valid(propSelectedDate.value)
      ensures Valid()
      ensures currentDate == (if propSelectedDate.Some? then propSelectedDate.value else today)
      ensures selectedDate == propSelectedDate
    {
      currentDate := if propSelectedDate.Some? then propSelectedDate.value else today;
      selectedDate := propSelectedDate;
    }

    /** `getAllDays()` for the month on show. */
    method GetAllDays() returns (days: seq<DayCell>)
      requires Valid()
      ensures days == AllDays(currentDate)
    {
      var previous := GetPreviousMonthDays(currentDate);
      var current := GetCurrentMonthDays(currentDate);
      var next := GetNextMonthDays(currentDate);
      days := previous + current + next;
    }

    /** `handleDateSelect(date)`: the day becomes the selection and is reported to
        `onDateSelect` when that callback is given. */
    method HandleDateSelect(date: Date, hasCallback: bool) returns (reported: Option<Date>)
      requires Valid()
      modifies this
      ensures Valid()
      ensures selectedDate == Some(date) && currentDate == old(currentDate)
      ensures reported == if hasCallback then Some(date) else None
    {
      selectedDate := Some(date);
      reported := if hasCallback then Some(date) else None;
    }

    /** `handleMonthChange(increment)`: the first of the month `increment` months away. */
    method HandleMonthChange(increment: int)
      requires Valid()
      modifies this
      ensures Valid()
      ensures currentDate == Date(old(currentDate).year + (old(currentDate).month + increment) / 12,
                                  (old(currentDate).month + increment) % 12, 1)
      ensures selectedDate == old(selectedDate)
    {
      FirstOfMonth(currentDate.year, currentDate.month + increment);
      currentDate := MakeDate(currentDate.year, currentDate.month + increment, 1);
    }
  }
}
