/** The legacy rain fraction (`getPValue` of spencer_1.js): validates the
    month and day, reads each year's target-day cell, and returns the share of
    non-missing readings above a small epsilon. It is called either as
    (precip, years, month, day) or as (precip, month, day); both shapes reach
    this model with `years` None in the second. */
module LegacyEstimator {
  import opened Common
  import opened Calendar
  import opened Readings

  /** `RAIN_EPS`: a reading counts as rain when it exceeds 1e-6. */
  const RAIN_EPS: real := 0.000001

  /** The checks that come before anything else, in source order. */
  function Validate(month: real, day: real): (r: Option<Error>)
    ensures r == None <==> IsInteger(month) && 1.0 <= month <= 12.0 && IsInteger(day) && 1.0 <= day <= 31.0
    ensures r == Some(InvalidMonth) <==> !(IsInteger(month) && 1.0 <= month <= 12.0)
  {
    if !(IsInteger(month) && 1.0 <= month <= 12.0) then Some(InvalidMonth)
    else if !(IsInteger(day) && 1.0 <= day <= 31.0) then Some(InvalidDay)
    else None
  }

  /** What the legacy `getPValue` returns or throws. */
  function Legacy(mx: Matrix, years: Option<seq<real>>, month: real, day: real): Result<real>
  {
    match Validate(month, day)
    case Some(e) => Err(e)
    case None =>
      if |mx| == 0 then Err(InvalidMatrix)
      else if ColumnCount(mx) == 0 then Ok(0.0)
      else match DaySampling(mx, years, month.Floor, day.Floor)
        case Err(e) => Err(e)
        case Ok(values) => Ok(Fraction(|Above(values, RAIN_EPS)|, |values|))
  }

  method GetPValue(mx: Matrix, years: Option<seq<real>>, month: real, day: real) returns (r: Result<real>)
    ensures r == Legacy(mx, years, month, day)
  {
    if !(month.Floor as real == month) || month < 1.0 || month > 12.0 {
      return Err(InvalidMonth);
    }
    if !(day.Floor as real == day) || day < 1.0 || day > 31.0 {
      return Err(InvalidDay);
    }
    if |mx| == 0 {
      return Err(InvalidMatrix);
    }
    if ColumnCount(mx) == 0 {
      return Ok(0.0);
    }
    var sampled := CollectDaySamples(mx, years, month.Floor, day.Floor);
    if sampled.Err? {
      return Err(sampled.error);
    }
    var valid := sampled.value;
    if |valid| == 0 {
      return Ok(0.0);
    }
    var rainy := Above(valid, RAIN_EPS);
    return Ok(|rainy| as real / |valid| as real);
  }

  // ---------------------------------------------------------------------
  // Properties
  // ---------------------------------------------------------------------

  /** Each validation error, and the order in which they are raised. */
  lemma ValidationErrors(mx: Matrix, years: Option<seq<real>>, month: real, day: real)
    ensures !(IsInteger(month) && 1.0 <= month <= 12.0) ==> Legacy(mx, years, month, day) == Err(InvalidMonth)
    ensures IsInteger(month) && 1.0 <= month <= 12.0 && !(IsInteger(day) && 1.0 <= day <= 31.0)
            ==> Legacy(mx, years, month, day) == Err(InvalidDay)
    ensures Validate(month, day) == None && |mx| == 0 ==> Legacy(mx, years, month, day) == Err(InvalidMatrix)
    ensures Validate(month, day) == None && |mx| > 0 && ColumnCount(mx) == 0 ==> Legacy(mx, years, month, day) == Ok(0.0)
  {
  }

  /** The result is the share of non-missing readings above RAIN_EPS, 0
      without any reading, and lies in [0, 1]. */
  lemma RainFraction(mx: Matrix, years: Option<seq<real>>, month: real, day: real)
    requires Validate(month, day) == None && |mx| > 0 && ColumnCount(mx) > 0
    requires !ReferenceFails(years, mx, month.Floor, day.Floor)
    ensures var values := DaySamples(mx, years, month.Floor, day.Floor, ColumnCount(mx));
      && Legacy(mx, years, month, day) == Ok(Fraction(|Above(values, RAIN_EPS)|, |values|))
      && (|values| == 0 ==> Legacy(mx, years, month, day) == Ok(0.0))
      && 0.0 <= Legacy(mx, years, month, day).value <= 1.0
  {
  }

  /** A columns-less matrix is answered with 0 before the reference row is
      checked, so it never throws 'Invalid date'. */
  lemma NoColumnsNeverThrowsDate(mx: Matrix, years: Option<seq<real>>, month: real, day: real)
    requires Validate(month, day) == None && |mx| > 0 && ColumnCount(mx) == 0
    ensures Legacy(mx, years, month, day) == Ok(0.0)
  {
  }

  /** A validated date lies within the first 366 rows for every year, so
      against a 366-row matrix the "date doesn't exist" branch never fires;
      Feb 29 of a common year reads the Mar 1 row. */
  lemma ValidatedDateInRange(y: int, month: int, day: int)
    requires 1 <= month <= 12 && 1 <= day <= 31
    ensures 0 <= DayOfYearIndex(y, month, day) < 366
    ensures !IsLeapYear(FullYear(y)) ==> DayOfYearIndex(y, 2, 29) == DayOfYearIndex(y, 3, 1) == 59
  {
    IndexOfCalendarDate(y, month, day);
    IndexOfCalendarDate(y, 2, 29);
    IndexOfCalendarDate(y, 3, 1);
    if month == 12 {
      assert DaysBeforeMonth(FullYear(y), 12) <= 335;
    }
  }

  /** In the fallback every column is read at the reference-2001 row. */
  lemma {:induction false} FallbackReadsReferenceRow(mx: Matrix, years: Option<seq<real>>, month: int, day: int, n: nat)
    requires n <= ColumnCount(mx)
    requires !Aligned(years, mx)
    ensures DaySamples(mx, years, month, day, n) == ReferenceSamples(mx, ReferenceRow(month, day), n)
  {
    if n > 0 {
      FallbackReadsReferenceRow(mx, years, month, day, n - 1);
    }
  }

  /** The readings of row `row` in the first n columns, skipping missing cells. */
  function ReferenceSamples(mx: Matrix, row: int, n: nat): (s: seq<real>)
    ensures |s| <= n
  {
    if n == 0 then [] else ReferenceSamples(mx, row, n - 1) + CellSeq(ReadingAt(mx, row, n - 1))
  }
}
