/** The data matrix contract shared by every estimator: a day-of-year by year
    matrix of optional readings, the parallel years vector, and the two ways
    the estimators turn (column, month, day) into a matrix row. */
module Readings {
  import opened Common
  import opened Calendar

  /** One reading; None stands for null, undefined and NaN alike. */
  type Cell = Option<real>

  /** Rows are days of the year (366 of them when built from the climate
      API), columns are years. Rows may be ragged: a missing entry reads as
      undefined. */
  type Matrix = seq<seq<Cell>>

  /** The non-leap year whose calendar is used when the years vector does
      not match the matrix. */
  const REF_YEAR: int := 2001

  /** `m[row][col]` when both indices exist, otherwise undefined. */
  function ReadingAt(mx: Matrix, row: int, col: int): (c: Cell)
    ensures c.Some? ==> 0 <= row < |mx| && 0 <= col < |mx[row]| && c == mx[row][col]
  {
    if 0 <= row < |mx| && 0 <= col < |mx[row]| then mx[row][col] else None
  }

  /** `(m[0] && m[0].length) || 0`. */
  function ColumnCount(mx: Matrix): nat
  {
    if |mx| == 0 then 0 else |mx[0]|
  }

  /** `Number.isInteger` on a finite number. */
  predicate IsInteger(x: real)
  {
    x.Floor as real == x
  }

  /** ToIntegerOrInfinity: truncation toward zero, as Date.UTC applies to its year. */
  function Trunc(x: real): (n: int)
    ensures IsInteger(x) ==> n == x.Floor
  {
    if x >= 0.0 then x.Floor else -((-x).Floor)
  }

  /** The years vector is an array with one entry per column; otherwise
      every estimator falls back to the reference-year row. None stands for
      a years argument that is not an array. */
  predicate Aligned(years: Option<seq<real>>, mx: Matrix)
  {
    years.Some? && |years.value| == ColumnCount(mx)
  }

  /** `dayOfYearIdx(2001, month, day)`. */
  function ReferenceRow(month: int, day: int): int
  {
    DayOfYearIndex(REF_YEAR, month, day)
  }

  /** The fallback throws 'Invalid date' when the reference row is outside the matrix. */
  predicate ReferenceFails(years: Option<seq<real>>, mx: Matrix, month: int, day: int)
  {
    !Aligned(years, mx) && !(0 <= ReferenceRow(month, day) < |mx|)
  }

  function CellSeq(c: Cell): (s: seq<real>)
    ensures |s| <= 1
    ensures |s| == 1 <==> c.Some?
    ensures c.Some? ==> s == [c.value]
  {
    if c.Some? then [c.value] else []
  }

  // ---------------------------------------------------------------------
  // Direct lookup of one calendar day (spencer_1.js, spencer.js)
  // ---------------------------------------------------------------------

  /** The row read for column `col`, or None when the column is skipped
      because its year is not an integer. */
  function DirectRow(mx: Matrix, years: Option<seq<real>>, month: int, day: int, col: nat): Option<int>
    requires col < ColumnCount(mx)
  {
    if Aligned(years, mx) then
      if IsInteger(years.value[col]) then Some(DayOfYearIndex(years.value[col].Floor, month, day)) else None
    else
      Some(ReferenceRow(month, day))
  }

  /** The reading of column `col` on the target day, missing when skipped or out of range. */
  function DayReading(mx: Matrix, years: Option<seq<real>>, month: int, day: int, col: nat): Cell
    requires col < ColumnCount(mx)
  {
    match DirectRow(mx, years, month, day, col)
    case None => None
    case Some(row) => ReadingAt(mx, row, col)
  }

  /** The non-missing target-day readings of the first n columns, in column order. */
  function DaySamples(mx: Matrix, years: Option<seq<real>>, month: int, day: int, n: nat): (s: seq<real>)
    requires n <= ColumnCount(mx)
    ensures |s| <= n
  {
    if n == 0 then []
    else DaySamples(mx, years, month, day, n - 1) + CellSeq(DayReading(mx, years, month, day, n - 1))
  }

  /** The sample collection loop shared by spencer_1.js `getPValue` and the
      temperature/wind predictors of spencer.js. The reference row is checked
      before the loop in the fallback. */
  function DaySampling(mx: Matrix, years: Option<seq<real>>, month: int, day: int): Result<seq<real>>
  {
    if ReferenceFails(years, mx, month, day) then Err(InvalidDate)
    else Ok(DaySamples(mx, years, month, day, ColumnCount(mx)))
  }

  /** The loop body shared by the single-day estimators: column yi's
      target-day cell, or missing when the column is skipped. */
  method ReadDay(mx: Matrix, years: Option<seq<real>>, month: int, day: int, yi: nat) returns (c: Cell)
    requires yi < ColumnCount(mx)
    ensures c == DayReading(mx, years, month, day, yi)
  {
    var doy := ReferenceRow(month, day);
    if years.Some? && |years.value| == ColumnCount(mx) {
      var y := years.value[yi];
      if !(y.Floor as real == y) {
        return None;
      }
      doy := DayOfYearIndex(y.Floor, month, day);
    }
    if 0 <= doy < |mx| && yi < |mx[doy]| && mx[doy][yi].Some? {
      return mx[doy][yi];
    }
    return None;
  }

  lemma DaySamplesStep(mx: Matrix, years: Option<seq<real>>, month: int, day: int, n: nat)
    requires n < ColumnCount(mx)
    ensures DaySamples(mx, years, month, day, n + 1) == DaySamples(mx, years, month, day, n) + CellSeq(DayReading(mx, years, month, day, n))
  {
  }

  method CollectDaySamples(mx: Matrix, years: Option<seq<real>>, month: int, day: int)
    returns (r: Result<seq<real>>)
    ensures r == DaySampling(mx, years, month, day)
  {
    var nDays := |mx|;
    var nYears := ColumnCount(mx);
    var aligned := years.Some? && |years.value| == nYears;
    var refDoy := ReferenceRow(month, day);
    if !aligned && !(0 <= refDoy < nDays) {
      return Err(InvalidDate);
    }
    var vals: seq<real> := [];
    var yi := 0;
    while yi < nYears
      invariant 0 <= yi <= nYears
      invariant vals == DaySamples(mx, years, month, day, yi)
    {
      var c := ReadDay(mx, years, month, day, yi);
      DaySamplesStep(mx, years, month, day, yi);
      if c.Some? {
        vals := vals + [c.value];
      }
      yi := yi + 1;
    }
    return Ok(vals);
  }

  // ---------------------------------------------------------------------
  // Window lookup (spencer_threshold_1.js, spencer_param_1.js)
  // ---------------------------------------------------------------------

  /** How a column's window rows are found: through its own year's calendar,
      or from the reference-year row by plain index arithmetic. */
  datatype Source = ByYear(year: int) | ByReference(refDoy: int)

  /** The row visited for offset `delta`. */
  function WindowRow(src: Source, month: int, day: int, delta: int): int
  {
    match src
    case ByYear(y) => WindowDayIndex(y, month, day, delta)
    case ByReference(r) => r + delta
  }

  /** None when the years-aligned loop skips the column (`!Number.isInteger(y)`). */
  function ColumnSource(mx: Matrix, years: Option<seq<real>>, month: int, day: int, col: nat): Option<Source>
    requires col < ColumnCount(mx)
  {
    if Aligned(years, mx) then
      if IsInteger(years.value[col]) then Some(ByYear(years.value[col].Floor)) else None
    else
      Some(ByReference(ReferenceRow(month, day)))
  }

  /** What the estimators record for a column: `years[yi]`, or the column
      index itself in the fallback. */
  function ColumnLabel(mx: Matrix, years: Option<seq<real>>, col: nat): real
    requires col < ColumnCount(mx)
  {
    if Aligned(years, mx) then years.value[col] else col as real
  }

  /** Number of offsets in `for (delta = -w; delta <= w; delta++)`. */
  function Width(w: int): nat
  {
    if w < 0 then 0 else 2 * w + 1
  }

  /** The row-of-offset map of one column: `delta => WindowRow(src, month, day, delta)`. */
  function RowOf(src: Source, month: int, day: int): int -> int
  {
    delta => WindowRow(src, month, day, delta)
  }

  /** The non-missing readings of column `col` at the first k offsets of the
      window loop (offsets -w .. -w + k - 1), in visiting order. */
  function WindowValues(mx: Matrix, rowOf: int -> int, w: int, col: nat, k: nat): (s: seq<real>)
    ensures |s| <= k
  {
    if k == 0 then []
    else WindowValues(mx, rowOf, w, col, k - 1) + CellSeq(ReadingAt(mx, rowOf(-w + k - 1), col))
  }

  /** `foundValid` after the first k offsets: some visited cell holds a reading. */
  predicate AnyReading(mx: Matrix, rowOf: int -> int, w: int, col: nat, k: nat)
  {
    k > 0 && (AnyReading(mx, rowOf, w, col, k - 1) || ReadingAt(mx, rowOf(-w + k - 1), col).Some?)
  }

  /** `foundRain` (or `foundPos` for t = 0) after the first k offsets: some
      visited reading is strictly above t. */
  predicate AnyAbove(mx: Matrix, rowOf: int -> int, w: int, col: nat, t: real, k: nat)
  {
    k > 0 && (AnyAbove(mx, rowOf, w, col, t, k - 1) || AboveCell(ReadingAt(mx, rowOf(-w + k - 1), col), t))
  }

  predicate AboveCell(c: Cell, t: real)
  {
    c.Some? && c.value > t
  }

  /** The readings strictly above t, in order. */
  function Above(s: seq<real>, t: real): (r: seq<real>)
    ensures |r| <= |s|
  {
    if s == [] then []
    else Above(s[..|s| - 1], t) + (if s[|s| - 1] > t then [s[|s| - 1]] else [])
  }

  lemma AboveAppend(s: seq<real>, c: seq<real>, t: real)
    requires |c| <= 1
    ensures Above(s + c, t) == Above(s, t) + (if |c| == 1 && c[0] > t then c else [])
  {
    if |c| == 1 {
      assert (s + c)[..|s + c| - 1] == s;
    } else {
      assert s + c == s;
    }
  }

  /** Every element of Above(s, t) exceeds t. */
  lemma {:induction false} AboveExceeds(s: seq<real>, t: real)
    ensures forall i :: 0 <= i < |Above(s, t)| ==> Above(s, t)[i] > t
  {
    if s != [] {
      AboveExceeds(s[..|s| - 1], t);
    }
  }

  /** A column is valid after k offsets exactly when some visited offset
      holds a reading: missing cells are skipped, never read as zero. */
  lemma {:induction false} AnyReadingMeaning(mx: Matrix, rowOf: int -> int, w: int, col: nat, k: nat)
    ensures AnyReading(mx, rowOf, w, col, k)
            <==> exists delta :: -w <= delta < -w + k && ReadingAt(mx, rowOf(delta), col).Some?
  {
    if k > 0 {
      AnyReadingMeaning(mx, rowOf, w, col, k - 1);
      assert ReadingAt(mx, rowOf(-w + k - 1), col).Some? ==> exists delta :: -w <= delta < -w + k && ReadingAt(mx, rowOf(delta), col).Some?;
    }
  }

  /** Some visited reading exceeds t exactly when some offset holds one. */
  lemma {:induction false} AnyAboveMeaning(mx: Matrix, rowOf: int -> int, w: int, col: nat, t: real, k: nat)
    ensures AnyAbove(mx, rowOf, w, col, t, k)
            <==> exists delta :: -w <= delta < -w + k && AboveCell(ReadingAt(mx, rowOf(delta), col), t)
  {
    if k > 0 {
      AnyAboveMeaning(mx, rowOf, w, col, t, k - 1);
      assert AboveCell(ReadingAt(mx, rowOf(-w + k - 1), col), t) ==> exists delta :: -w <= delta < -w + k && AboveCell(ReadingAt(mx, rowOf(delta), col), t);
    }
  }

  /** A reading above t is a reading: rainy implies valid. */
  lemma {:induction false} AboveIsReading(mx: Matrix, rowOf: int -> int, w: int, col: nat, t: real, k: nat)
    ensures AnyAbove(mx, rowOf, w, col, t, k) ==> AnyReading(mx, rowOf, w, col, k)
  {
    if k > 0 {
      AboveIsReading(mx, rowOf, w, col, t, k - 1);
    }
  }

  /** Raising the threshold can only turn a column from rainy to dry. */
  lemma {:induction false} AboveAntitone(mx: Matrix, rowOf: int -> int, w: int, col: nat, t1: real, t2: real, k: nat)
    requires t1 <= t2
    ensures AnyAbove(mx, rowOf, w, col, t2, k) ==> AnyAbove(mx, rowOf, w, col, t1, k)
  {
    if k > 0 {
      AboveAntitone(mx, rowOf, w, col, t1, t2, k - 1);
    }
  }

  /** The flags agree with the collected readings: valid iff some reading
      was collected, above t iff some collected reading exceeds t. */
  lemma {:induction false} FlagsMatchValues(mx: Matrix, rowOf: int -> int, w: int, col: nat, t: real, k: nat)
    ensures AnyReading(mx, rowOf, w, col, k) <==> |WindowValues(mx, rowOf, w, col, k)| > 0
    ensures AnyAbove(mx, rowOf, w, col, t, k) <==> |Above(WindowValues(mx, rowOf, w, col, k), t)| > 0
  {
    if k > 0 {
      FlagsMatchValues(mx, rowOf, w, col, t, k - 1);
      AboveAppend(WindowValues(mx, rowOf, w, col, k - 1), CellSeq(ReadingAt(mx, rowOf(-w + k - 1), col)), t);
    }
  }
}
