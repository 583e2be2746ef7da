/**
 * Calendar dates as the screens use JavaScript `Date`: local calendar days in the
 * proleptic Gregorian calendar, with months numbered 0..11 as `getMonth` returns them.
 * `MakeDate` is `new Date(year, month, day)` with its normalisation of out-of-range
 * months and days; `Weekday` is `getDay` (0 = Sunday).
 */
module Dates {

  datatype Date = Date(year: int, month: int, day: int)

  predicate IsLeapYear(y: int) {
    y % 4 == 0 && (y % 100 != 0 || y % 400 == 0)
  }

  function DaysInMonth(y: int, m: int): (r: int)
    requires 0 <= m < 12
    ensures 28 <= r <= 31
    ensures m == 1 ==> (r == 29 <==> IsLeapYear(y))
  {
    if m == 1 then (if IsLeapYear(y) then 29 else 28)
    else if m == 3 || m == 5 || m == 8 || m == 10 then 30
    else 31
  }

  /** A real calendar day: what a `Date` object's year, month and day fields hold. */
  predicate Valid(d: Date) {
    0 <= d.month < 12 && 1 <= d.day <= DaysInMonth(d.year, d.month)
  }

  /** Days in the years before `y`, counting from 1 January of year 1. */
  function DaysBeforeYear(y: int): int {
    365 * (y - 1) + (y - 1) / 4 - (y - 1) / 100 + (y - 1) / 400
  }

  /** Days in the months of year `y` before month `m`. */
  function DaysBeforeMonth(y: int, m: int): int
    requires 0 <= m <= 12
  {
    (if m == 0 then 0 else if m == 1 then 31 else if m == 2 then 59 else if m == 3 then 90
     else if m == 4 then 120 else if m == 5 then 151 else if m == 6 then 181
     else if m == 7 then 212 else if m == 8 then 243 else if m == 9 then 273
     else if m == 10 then 304 else if m == 11 then 334 else 365)
    + (if m >= 2 && IsLeapYear(y) then 1 else 0)
  }

  /** The number of the day, counting 1 January of year 1 as day 0. */
  function DayNumber(d: Date): int
    requires 0 <= d.month < 12
  {
    DaysBeforeYear(d.year) + DaysBeforeMonth(d.year, d.month) + d.day - 1
  }

  lemma DivStep4(y: int)
    ensures y / 4 - (y - 1) / 4 == if y % 4 == 0 then 1 else 0
  {
  }

  lemma DivStep100(y: int)
    ensures y / 100 - (y - 1) / 100 == if y % 100 == 0 then 1 else 0
  {
  }

  lemma DivStep400(y: int)
    ensures y / 400 - (y - 1) / 400 == if y % 400 == 0 then 1 else 0
  {
  }

  /** A year holds 366 days when it is a leap year and 365 otherwise. */
  lemma YearLength(y: int)
    ensures DaysBeforeYear(y + 1) - DaysBeforeYear(y) == if IsLeapYear(y) then 366 else 365
  {
    DivStep4(y);
    DivStep100(y);
    DivStep400(y);
  }

  /** The month after month `m` of year `y`. */
  function NextMonth(y: int, m: int): (int, int)
    requires 0 <= m < 12
  {
    if m == 11 then (y + 1, 0) else (y, m + 1)
  }

  /** The month before month `m` of year `y`. */
  function PreviousMonth(y: int, m: int): (int, int)
    requires 0 <= m < 12
  {
    if m == 0 then (y - 1, 11) else (y, m - 1)
  }

  /** The first day of the next month follows the last day of this one. */
  lemma MonthsAreContiguous(y: int, m: int)
    requires 0 <= m < 12
    ensures var (ny, nm) := NextMonth(y, m);
      DayNumber(Date(ny, nm, 1)) == DayNumber(Date(y, m, 1)) + DaysInMonth(y, m)
  {
    if m == 11 {
      YearLength(y);
    }
  }

  /** `new Date(y, m, d)` for a month already in 0..11: a day before the 1st or after
      the last day of the month is carried into earlier or later months. */
  function Normalize(y: int, m: int, d: int): (r: Date)
    requires 0 <= m < 12
    ensures Valid(r)
    decreases if d < 1 then 1 - d else 0, if d < 1 then 0 else d
  {
    if d < 1 then
      var (py, pm) := PreviousMonth(y, m);
      Normalize(py, pm, d + DaysInMonth(py, pm))
    else if d > DaysInMonth(y, m) then
      var (ny, nm) := NextMonth(y, m);
      Normalize(ny, nm, d - DaysInMonth(y, m))
    else
      Date(y, m, d)
  }

  /** Carrying days across months neither gains nor loses a day: the result lies `d - 1`
      days after the 1st of month `m`. */
  lemma {:induction false} NormalizeDayNumber(y: int, m: int, d: int)
    requires 0 <= m < 12
    ensures DayNumber(Normalize(y, m, d)) == DayNumber(Date(y, m, 1)) + d - 1
    decreases if d < 1 then 1 - d else 0, if d < 1 then 0 else d
  {
    if d < 1 {
      var (py, pm) := PreviousMonth(y, m);
      var len := DaysInMonth(py, pm);
      assert Normalize(y, m, d) == Normalize(py, pm, d + len);
      assert NextMonth(py, pm) == (y, m);
      MonthsAreContiguous(py, pm);
      NormalizeDayNumber(py, pm, d + len);
    } else if d > DaysInMonth(y, m) {
      var (ny, nm) := NextMonth(y, m);
      var len := DaysInMonth(y, m);
      assert Normalize(y, m, d) == Normalize(ny, nm, d - len);
      MonthsAreContiguous(y, m);
      NormalizeDayNumber(ny, nm, d - len);
    }
  }

  /** `new Date(year, month, day)`: the month is carried into the year first
      (floor division by 12), then the day into the months. */
  function MakeDate(year: int, month: int, day: int): (r: Date)
    ensures Valid(r)
  {
    Normalize(year + month / 12, month % 12, day)
  }

  /** `new Date(year, month, day)` is the day `day - 1` days after the 1st of the month
      reached from `year` by `month` months. */
  lemma MakeDateDayNumber(year: int, month: int, day: int)
    ensures DayNumber(MakeDate(year, month, day)) == DayNumber(Date(year + month / 12, month % 12, 1)) + day - 1
  {
    NormalizeDayNumber(year + month / 12, month % 12, day);
  }

  /** `date.getDay()`: 1 January of year 1 was a Monday. */
  function Weekday(d: Date): (r: int)
    requires 0 <= d.month < 12
    ensures 0 <= r < 7
  {
    (DayNumber(d) + 1) % 7
  }

  /** A valid date's day number falls inside its year. */
  lemma DayNumberWithinYear(d: Date)
    requires Valid(d)
    ensures DaysBeforeYear(d.year) <= DayNumber(d) < DaysBeforeYear(d.year + 1)
  {
    YearLength(d.year);
  }

  lemma {:induction false} LaterYearsStartLater(y: int, z: int)
    requires y < z
    ensures DaysBeforeYear(y + 1) <= DaysBeforeYear(z)
    decreases z - y
  {
    if y + 1 < z {
      LaterYearsStartLater(y + 1, z);
      YearLength(y + 1);
    }
  }

  /** Two calendar days are one and the same day exactly when their day numbers agree. */
  lemma DayNumberInjective(a: Date, b: Date)
    requires Valid(a) && Valid(b)
    ensures DayNumber(a) == DayNumber(b) <==> a == b
  {
    DayNumberWithinYear(a);
    DayNumberWithinYear(b);
    if a.year < b.year {
      LaterYearsStartLater(a.year, b.year);
    } else if b.year < a.year {
      LaterYearsStartLater(b.year, a.year);
    }
  }

  /** A date whose fields are already in range is kept as it is. */
  lemma MakeDateOfValid(d: Date)
    requires Valid(d)
    ensures MakeDate(d.year, d.month, d.day) == d
  {
    assert d.month / 12 == 0 && d.month % 12 == d.month;
  }

  /** `new Date(y, m + 1, 0)` is the last day of month `m`, so its `getDate()` is the
      number of days in the month. */
  lemma LastDayOfMonth(y: int, m: int)
    requires 0 <= m < 12
    ensures MakeDate(y, m + 1, 0) == Date(y, m, DaysInMonth(y, m))
  {
    var (ny, nm) := NextMonth(y, m);
    assert ny == y + (m + 1) / 12 && nm == (m + 1) % 12;
    assert PreviousMonth(ny, nm) == (y, m);
    assert Normalize(ny, nm, 0) == Normalize(y, m, DaysInMonth(y, m));
  }

  /** `new Date(y, m + 1, 1)` is the first of the next month. */
  lemma FirstOfNextMonth(y: int, m: int)
    requires 0 <= m < 12
    ensures var n := MakeDate(y, m + 1, 1); (n.year, n.month) == NextMonth(y, m) && n.day == 1
  {
    if m == 11 {
      assert (m + 1) / 12 == 1 && (m + 1) % 12 == 0;
    } else {
      assert (m + 1) / 12 == 0 && (m + 1) % 12 == m + 1;
    }
    var (ny, nm) := NextMonth(y, m);
    MakeDateOfValid(Date(ny, nm, 1));
  }

  /** `new Date(y, m - 1, 1)` is the first of the previous month. */
  lemma FirstOfPreviousMonth(y: int, m: int)
    requires 0 <= m < 12
    ensures var p := MakeDate(y, m - 1, 1); (p.year, p.month) == PreviousMonth(y, m) && p.day == 1
  {
    if m == 0 {
      assert (m - 1) / 12 == -1 && (m - 1) % 12 == 11;
    } else {
      assert (m - 1) / 12 == 0 && (m - 1) % 12 == m - 1;
    }
    var (py, pm) := PreviousMonth(y, m);
    MakeDateOfValid(Date(py, pm, 1));
  }

  /** `new Date(y, m, 1)` for any month number: the first of the month reached by
      carrying whole years out of `m`. */
  lemma FirstOfMonth(y: int, m: int)
    ensures MakeDate(y, m, 1) == Date(y + m / 12, m % 12, 1)
  {
    MakeDateOfValid(Date(y + m / 12, m % 12, 1));
  }

  /** `new Date(y, m + 1, i)` for a day `i` every month has is day `i` of the next month. */
  lemma DayOfNextMonth(y: int, m: int, i: int)
    requires 0 <= m < 12 && 1 <= i <= 28
    ensures MakeDate(y, m + 1, i) == Date(NextMonth(y, m).0, NextMonth(y, m).1, i)
  {
    if m == 11 {
      assert (m + 1) / 12 == 1 && (m + 1) % 12 == 0;
    } else {
      assert (m + 1) / 12 == 0 && (m + 1) % 12 == m + 1;
    }
  }

  /** Carrying a month into the year and then adding `k` months lands in the same year and
      month as adding `k` to the uncarried month. */
  lemma MonthArithmetic(y: int, m: int, k: int)
    ensures (y + m / 12) + (m % 12 + k) / 12 == y + (m + k) / 12
    ensures (m % 12 + k) % 12 == (m + k) % 12
  {
    var q, r := m / 12, m % 12;
    assert m == 12 * q + r;
    var q2, r2 := (r + k) / 12, (r + k) % 12;
    assert r + k == 12 * q2 + r2;
    assert m + k == 12 * (q + q2) + r2;
  }

  /** Days `k` apart are `k % 7` apart in the week. */
  lemma WeekdayOffset(a: Date, b: Date, k: int)
    requires 0 <= a.month < 12 && 0 <= b.month < 12
    requires DayNumber(b) == DayNumber(a) + k
    ensures Weekday(b) == (Weekday(a) + k) % 7
  {
    var x := DayNumber(a) + 1;
    assert x + k == 7 * (x / 7) + (x % 7 + k);
    assert (x + k) % 7 == (x % 7 + k) % 7 by {
      ModShift(x % 7 + k, x / 7);
    }
  }

  lemma ModShift(v: int, q: int)
    ensures (7 * q + v) % 7 == v % 7
  {
    var a, b := v / 7, v % 7;
    assert 7 * q + v == 7 * (q + a) + b;
  }

  /** A few days the screens depend on: 1 March 2024 was a Friday, 1 January 2023 a
      Sunday, and February has 29 days in 2024 and 28 in 2023. */
  lemma KnownDays()
    ensures Weekday(Date(2024, 2, 1)) == 5
    ensures Weekday(Date(2023, 0, 1)) == 0
    ensures DaysInMonth(2024, 1) == 29 && DaysInMonth(2023, 1) == 28
  {
  }

  /** JavaScript's rollover: 31 January 2023 moved to month 1 is 3 March 2023. */
  lemma JanuaryThirtyFirstPlusOneMonth()
    ensures MakeDate(2023, 1, 31) == Date(2023, 2, 3)
  {
    assert Normalize(2023, 1, 31) == Normalize(2023, 2, 3);
  }
}
