/** Calendar alignment: JavaScript's `Date.UTC(y, m - 1, d)` on the proleptic
    Gregorian calendar, measured in whole days from January 1 of the same year,
    and the window shift `setUTCDate(getUTCDate() + delta)`. Day and month
    overflow roll forward (or back) as Date.UTC does, for dates inside the
    range of `Date`. */
module Calendar {

  predicate IsLeapYear(y: int)
  {
    y % 4 == 0 && (y % 100 != 0 || y % 400 == 0)
  }

  function YearLength(y: int): (n: int)
    ensures n == 365 || n == 366
    ensures n == 366 <==> IsLeapYear(y)
  {
    if IsLeapYear(y) then 366 else 365
  }

  function MonthLength(y: int, m: int): (n: int)
    requires 1 <= m <= 12
    ensures 28 <= n <= 31
    ensures n == 29 <==> m == 2 && IsLeapYear(y)
  {
    if m == 2 then (if IsLeapYear(y) then 29 else 28)
    else if m == 4 || m == 6 || m == 9 || m == 11 then 30
    else 31
  }

  /** Days of year `y` that come before the first of month `m`. */
  function DaysBeforeMonth(y: int, m: int): (n: int)
    requires 1 <= m <= 12
    ensures m == 12 ==> n + MonthLength(y, 12) == YearLength(y)
    ensures 0 <= n <= 335
  {
    var common :=
      if m == 1 then 0 else if m == 2 then 31 else if m == 3 then 59
      else if m == 4 then 90 else if m == 5 then 120 else if m == 6 then 151
      else if m == 7 then 181 else if m == 8 then 212 else if m == 9 then 243
      else if m == 10 then 273 else if m == 11 then 304 else 334;
    common + (if m > 2 && IsLeapYear(y) then 1 else 0)
  }

  lemma DaysBeforeNextMonth(y: int, m: int)
    requires 1 <= m < 12
    ensures DaysBeforeMonth(y, m + 1) == DaysBeforeMonth(y, m) + MonthLength(y, m)
  {
  }

  /** Date.UTC treats a year 0..99 as 1900 + year (MakeFullYear). */
  function FullYear(y: int): int
  {
    if 0 <= y <= 99 then 1900 + y else y
  }

  /** Days from January 1 of year 0 to January 1 of year y. */
  function DaysBeforeYear(y: int): int
    decreases if y >= 0 then y else -y
  {
    if y == 0 then 0
    else if y > 0 then DaysBeforeYear(y - 1) + YearLength(y - 1)
    else DaysBeforeYear(y + 1) - YearLength(y)
  }

  lemma DaysBeforeNextYear(y: int)
    ensures DaysBeforeYear(y + 1) == DaysBeforeYear(y) + YearLength(y)
  {
  }

  /** `dayOfYearIdx(y, m, d)`: the whole days between Date.UTC(y, 0, 1) and
      Date.UTC(y, m - 1, d). The month is normalised first (month m - 1 is
      `(m - 1) / 12` years and `(m - 1) % 12` months after January; Dafny's
      division is floor division for the divisor 12), then the day is added. */
  function DayOfYearIndex(y: int, m: int, d: int): int
  {
    var fy := FullYear(y);
    var ym := fy + (m - 1) / 12;
    var mn := (m - 1) % 12 + 1;
    DaysBeforeYear(ym) - DaysBeforeYear(fy) + DaysBeforeMonth(ym, mn) + d - 1
  }
  /** A month of 0 down to -11 lies in the year before, so with a day below
      31 the index falls before January 1. */
  lemma BeforeJanuaryFirst(y: int, m: int, d: int)
    requires -11 <= m <= 0 && d <= 30
    ensures DayOfYearIndex(y, m, d) < 0
  {
    var fy := FullYear(y);
    assert (m - 1) / 12 == -1;
    DaysBeforeNextYear(fy - 1);
  }


  lemma IndexOfCalendarDate(y: int, m: int, d: int)
    requires 1 <= m <= 12
    ensures DayOfYearIndex(y, m, d) == DaysBeforeMonth(FullYear(y), m) + d - 1
  {
    assert (m - 1) / 12 == 0 && (m - 1) % 12 == m - 1;
  }

  /** For a real date of the year the index lies in [0, YearLength). */
  lemma DayOfYearIndexBounds(y: int, m: int, d: int)
    requires 1 <= m <= 12 && 1 <= d <= MonthLength(FullYear(y), m)
    ensures 0 <= DayOfYearIndex(y, m, d) < YearLength(FullYear(y)) <= 366
  {
    IndexOfCalendarDate(y, m, d);
    if m < 12 {
      DaysBeforeNextMonth(FullYear(y), m);
      if m + 1 < 12 { MonthsAfter(FullYear(y), m, 12); }
    }
  }

  datatype Date = Date(year: int, month: int, day: int)

  predicate IsCalendarDate(dt: Date)
  {
    1 <= dt.month <= 12 && 1 <= dt.day <= MonthLength(dt.year, dt.month)
  }

  /** Days from January 1 of year 0 to the given calendar date. */
  function DayNumber(dt: Date): int
    requires IsCalendarDate(dt)
  {
    DaysBeforeYear(dt.year) + DaysBeforeMonth(dt.year, dt.month) + dt.day - 1
  }

  /** The last month m' <= m whose first day is at most `off` days into year y. */
  function MonthContaining(y: int, off: int, m: int): (r: int)
    requires 1 <= m <= 12 && 0 <= off
    ensures 1 <= r <= m && DaysBeforeMonth(y, r) <= off
    ensures r < m ==> off < DaysBeforeMonth(y, r + 1)
    decreases m
  {
    if m == 1 || DaysBeforeMonth(y, m) <= off then m else MonthContaining(y, off, m - 1)
  }

  /** The month search finds the one month whose days contain `off`. */
  lemma {:induction false} MonthContainingUnique(y: int, off: int, m: int, k: int)
    requires 1 <= k <= m <= 12 && DaysBeforeMonth(y, k) <= off
    requires k < 12 ==> off < DaysBeforeMonth(y, k + 1)
    ensures MonthContaining(y, off, m) == k
    decreases m
  {
    if m > k {
      MonthsAfter(y, k, m);
      MonthContainingUnique(y, off, m - 1, k);
    }
  }

  lemma {:induction false} MonthsAfter(y: int, k: int, m: int)
    requires 1 <= k < m <= 12
    ensures DaysBeforeMonth(y, k + 1) <= DaysBeforeMonth(y, m)
    decreases m
  {
    if m > k + 1 {
      MonthsAfter(y, k, m - 1);
      DaysBeforeNextMonth(y, m - 1);
    }
  }

  /** The calendar date `off` days after January 1 of year y (off may be negative). */
  function DateAt(y: int, off: int): (r: Date)
    ensures IsCalendarDate(r)
    ensures DayNumber(r) == DaysBeforeYear(y) + off
    decreases off < 0, if off < 0 then -off else off
  {
    if off < 0 then
      DaysBeforeNextYear(y - 1);
      DateAt(y - 1, off + YearLength(y - 1))
    else if off >= YearLength(y) then
      DaysBeforeNextYear(y);
      DateAt(y + 1, off - YearLength(y))
    else
      var m := MonthContaining(y, off, 12);
      Date(y, m, off - DaysBeforeMonth(y, m) + 1)
  }

  /** The date the window loop visits for offset `delta`:
      `new Date(Date.UTC(y, m - 1, d))` moved by `setUTCDate(getUTCDate() + delta)`. */
  function ShiftedDate(y: int, m: int, d: int, delta: int): (r: Date)
    ensures IsCalendarDate(r)
    ensures DayNumber(r) == DaysBeforeYear(FullYear(y)) + DayOfYearIndex(y, m, d) + delta
  {
    DateAt(FullYear(y), DayOfYearIndex(y, m, d) + delta)
  }

  /** The row the window loop reads: the shifted date's month and day are
      re-indexed with the ORIGINAL year y, whatever year the shift reached. */
  function WindowDayIndex(y: int, m: int, d: int, delta: int): int
  {
    var s := ShiftedDate(y, m, d, delta);
    DayOfYearIndex(y, s.month, s.day)
  }

  /** Every row the window loop computes lies in [0, 366). */
  lemma WindowDayIndexBounds(y: int, m: int, d: int, delta: int)
    ensures 0 <= WindowDayIndex(y, m, d, delta) < 366
  {
    var s := ShiftedDate(y, m, d, delta);
    var fy := FullYear(y);
    IndexOfCalendarDate(y, s.month, s.day);
    if s.month < 12 {
      DaysBeforeNextMonth(fy, s.month);
      if s.month + 1 < 12 { MonthsAfter(fy, s.month, 12); }
    }
  }

  /** Inside the year the shift and the re-indexing are exact: the window
      row is the day index plus delta. */
  lemma {:induction false} WindowInsideYear(y: int, m: int, d: int, delta: int)
    requires 0 <= DayOfYearIndex(y, m, d) + delta < YearLength(FullYear(y))
    ensures WindowDayIndex(y, m, d, delta) == DayOfYearIndex(y, m, d) + delta
  {
    var fy := FullYear(y);
    var off := DayOfYearIndex(y, m, d) + delta;
    var s := DateAt(fy, off);
    var mc := MonthContaining(fy, off, 12);
    assert s == Date(fy, mc, off - DaysBeforeMonth(fy, mc) + 1);
    IndexOfCalendarDate(y, s.month, s.day);
  }

  /** January 1 minus one day reads the same year's December 31 row. */
  lemma {:induction false} WindowBeforeJanuaryFirst(y: int)
    ensures WindowDayIndex(y, 1, 1, -1) == DayOfYearIndex(y, 12, 31) == YearLength(FullYear(y)) - 1
  {
    var fy := FullYear(y);
    IndexOfCalendarDate(y, 1, 1);
    DaysBeforeNextYear(fy - 1);
    var s := DateAt(fy - 1, YearLength(fy - 1) - 1);
    assert DateAt(fy, -1) == s;
    MonthContainingUnique(fy - 1, YearLength(fy - 1) - 1, 12, 12);
    assert s == Date(fy - 1, 12, 31);
    IndexOfCalendarDate(y, 12, 31);
  }

  /** December 31 plus one day reads the same year's January 1 row. */
  lemma {:induction false} WindowAfterDecemberThirtyFirst(y: int)
    ensures WindowDayIndex(y, 12, 31, 1) == 0
  {
    var fy := FullYear(y);
    IndexOfCalendarDate(y, 12, 31);
    assert DayOfYearIndex(y, 12, 31) + 1 == YearLength(fy);
    MonthContainingUnique(fy + 1, 0, 12, 1);
    var s := DateAt(fy + 1, 0);
    assert s == Date(fy + 1, 1, 1);
    assert DateAt(fy, YearLength(fy)) == s;
    assert ShiftedDate(y, 12, 31, 1) == s;
    IndexOfCalendarDate(y, 1, 1);
  }

  /** The documented calendar examples: March 1 is row 59 in a common year,
      February 29 is row 59 in a leap year, and February 29 of a common year
      is not rejected but rolls forward to March 1, also row 59. */
  lemma DayOfYearExamples()
    ensures DayOfYearIndex(2001, 3, 1) == 59
    ensures DayOfYearIndex(2000, 2, 29) == 59
    ensures DayOfYearIndex(2001, 2, 29) == 59
    ensures DayOfYearIndex(2000, 3, 1) == 60
  {
    IndexOfCalendarDate(2001, 3, 1);
    IndexOfCalendarDate(2000, 2, 29);
    IndexOfCalendarDate(2001, 2, 29);
    IndexOfCalendarDate(2000, 3, 1);
  }

  /** A year 0..99 is read by Date.UTC as a twentieth-century year. */
  lemma TwoDigitYears(y: int, m: int, d: int)
    requires 0 <= y <= 99
    ensures DayOfYearIndex(y, m, d) == DayOfYearIndex(1900 + y, m, d)
  {
  }
}
