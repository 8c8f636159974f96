/** Two-part parametric estimator (`getPValueParametric`): the share of
    years with a positive reading in the window (occurrence), times the
    probability that a positive amount exceeds the threshold, taken from a
    log-normal fit of the pooled positive amounts or, without enough of
    them, from their empirical proportion. */
module ParametricEstimator {
  import opened Common
  import opened Readings
  import TE = ThresholdEstimator

  datatype Options = Options(threshold: real, window: int, minPos: int)

  /** `{ threshold = 1.0, window = 0, minPos = 5 }`. */
  const DEFAULTS: Options := Options(1.0, 0, 5)

  /** The replacement for a fitted sigma of exactly 0. */
  const SIGMA_FLOOR: real := 0.000001

  /** The fitted log-normal: `mu_log` and `sigma_log`. */
  datatype Fit = Fit(muLog: real, sigmaLog: real)

  datatype Estimate = Estimate(
    prob: real,
    pOcc: real,
    pAmount: real,
    fit: Option<Fit>,
    nValid: nat,
    nPosYears: nat,
    nPos: nat)

  // ---------------------------------------------------------------------
  // mean and std of spencer_param_1.js
  // ---------------------------------------------------------------------

  /** `(arr.length - 1 || 1)`: a length-1 array divides by 1, an empty one by -1. */
  function StdDenominator(len: nat): (d: int)
    ensures d != 0
    ensures len >= 1 ==> d >= 1
    ensures len >= 2 ==> d == len - 1
  {
    if len - 1 == 0 then 1 else len - 1
  }

  /** `std(arr, mu)` with the square root as a parameter. */
  function Std(s: seq<real>, mu: real, sqrt: real -> real): real
  {
    sqrt(Variance(s, mu))
  }

  /** The radicand of `std`: squared deviations over `(length - 1 || 1)`. */
  function Variance(s: seq<real>, mu: real): (v: real)
    ensures |s| >= 1 ==> v >= 0.0
    ensures |s| >= 1 ==> v * StdDenominator(|s|) as real == SumSqDev(s, mu)
  {
    SumSqDevNonNegative(s, mu);
    SumSqDev(s, mu) / StdDenominator(|s|) as real
  }

  /** A constant sample has variance 0 about its own value, so its fitted
      sigma would be sqrt(0) and is then replaced by SIGMA_FLOOR. */
  lemma ConstantVariance(s: seq<real>, c: real)
    requires forall i :: 0 <= i < |s| ==> s[i] == c
    ensures Variance(s, c) == 0.0
    ensures |s| > 0 ==> Mean(s) == Num(c)
  {
    SumOfConstant(s, c);
    if |s| > 0 {
      MeanOfConstant(s, c);
    }
  }

  // ---------------------------------------------------------------------
  // Window positives
  // ---------------------------------------------------------------------

  /** `[v]` when the cell holds a reading v > 0 (`positives.push(Number(v))`). */
  function PositiveCell(c: Cell): (s: seq<real>)
    ensures |s| <= 1
    ensures |s| == 1 <==> AboveCell(c, 0.0)
  {
    if c.Some? && c.value > 0.0 then [c.value] else []
  }

  /** The positives pushed at the first k window offsets of one column. */
  function Positives(mx: Matrix, rowOf: int -> int, w: int, col: nat, k: nat): (s: seq<real>)
    ensures |s| <= k
  {
    if k == 0 then []
    else Positives(mx, rowOf, w, col, k - 1) + PositiveCell(ReadingAt(mx, rowOf(-w + k - 1), col))
  }

  /** A column's positives: none when the column is skipped. */
  function ColumnPositives(mx: Matrix, years: Option<seq<real>>, month: int, day: int, w: int, col: nat): seq<real>
    requires col < ColumnCount(mx)
  {
    match ColumnSource(mx, years, month, day, col)
    case None => []
    case Some(src) => Positives(mx, RowOf(src, month, day), w, col, Width(w))
  }

  /** Every column's positives, in column order. */
  function PositiveParts(mx: Matrix, years: Option<seq<real>>, month: int, day: int, w: int): (parts: seq<seq<real>>)
    ensures |parts| == ColumnCount(mx)
    ensures forall col :: 0 <= col < |parts| ==> parts[col] == ColumnPositives(mx, years, month, day, w, col)
  {
    seq(ColumnCount(mx), col requires 0 <= col < ColumnCount(mx) => ColumnPositives(mx, years, month, day, w, col))
  }

  /** The first n parts, concatenated in order. */
  function Concat(parts: seq<seq<real>>, n: nat): seq<real>
    requires n <= |parts|
  {
    if n == 0 then [] else Concat(parts, n - 1) + parts[n - 1]
  }

  /** The `positives` array after the loop over the columns. */
  function Pooled(mx: Matrix, years: Option<seq<real>>, month: int, day: int, w: int): seq<real>
  {
    Concat(PositiveParts(mx, years, month, day, w), ColumnCount(mx))
  }

  /** Number of set flags among the first n (a counter incremented per flag). */
  function CountFlags(flags: seq<bool>, n: nat): (c: nat)
    requires n <= |flags|
    ensures c <= n
  {
    if n == 0 then 0 else CountFlags(flags, n - 1) + (if flags[n - 1] then 1 else 0)
  }

  // ---------------------------------------------------------------------
  // The estimate
  // ---------------------------------------------------------------------

  function Max(a: int, b: int): int
  {
    if a >= b then a else b
  }

  /** `positives.map(v => Math.log(v))`. */
  function Logs(pos: seq<real>, ln: real -> real): (logs: seq<real>)
    ensures |logs| == |pos|
    ensures forall i :: 0 <= i < |pos| ==> logs[i] == ln(pos[i])
  {
    seq(|pos|, i requires 0 <= i < |pos| => ln(pos[i]))
  }

  /** The log-normal fit, attempted only with at least max(minPos, 2) positives. */
  function FitLogNormal(pos: seq<real>, minPos: int, ln: real -> real, sqrt: real -> real): (r: Option<Fit>)
    ensures r.Some? <==> |pos| >= Max(minPos, 2)
    ensures r.Some? ==> r.value.sigmaLog != 0.0
    ensures r.Some? ==> Mean(Logs(pos, ln)) == Num(r.value.muLog)
    ensures r.Some? ==> var sd := Std(Logs(pos, ln), r.value.muLog, sqrt);
      r.value.sigmaLog == if sd == 0.0 then SIGMA_FLOOR else sd
  {
    if |pos| >= Max(minPos, 2) then
      var logs := Logs(pos, ln);
      var mu := Mean(logs).val;
      var sd := Std(logs, mu, sqrt);
      Some(Fit(mu, if sd == 0.0 then SIGMA_FLOOR else sd))
    else None
  }

  /** `p_amount_gt_t`. */
  function AmountProbability(pos: seq<real>, t: real, fit: Option<Fit>, ln: real -> real, phi: real -> real): real
    requires fit.Some? ==> fit.value.sigmaLog != 0.0
  {
    if t <= 0.0 then 1.0
    else match fit
      case Some(f) => 1.0 - phi((ln(t) - f.muLog) / f.sigmaLog)
      case None => Fraction(|Above(pos, t)|, |pos|)
  }

  /** The estimate built from the two counters and the pooled positives. */
  function Combined(nValid: nat, nPosYears: nat, pos: seq<real>, opts: Options,
                    ln: real -> real, sqrt: real -> real, phi: real -> real): (e: Estimate)
    ensures e.nValid == nValid && e.nPosYears == nPosYears && e.nPos == |pos|
  {
    var pOcc := Fraction(nPosYears, nValid);
    var fit := FitLogNormal(pos, opts.minPos, ln, sqrt);
    var pAmount := AmountProbability(pos, opts.threshold, fit, ln, phi);
    Estimate(pOcc * pAmount, pOcc, pAmount, fit, nValid, nPosYears, |pos|)
  }

  /** What `getPValueParametric` returns or throws. */
  function Parametric(mx: Matrix, years: Option<seq<real>>, month: int, day: int, opts: Options,
                      ln: real -> real, sqrt: real -> real, phi: real -> real): Result<Estimate>
  {
    if |mx| == 0 then Err(InvalidMatrix)
    else if ReferenceFails(years, mx, month, day) then Err(InvalidDate)
    else
      var n := ColumnCount(mx);
      var nValid := CountFlags(TE.ValidFlags(mx, years, month, day, opts.window), n);
      var nPosYears := CountFlags(TE.AboveFlags(mx, years, month, day, opts.window, 0.0), n);
      Ok(Combined(nValid, nPosYears, Pooled(mx, years, month, day, opts.window), opts, ln, sqrt, phi))
  }

  // ---------------------------------------------------------------------
  // The loops
  // ---------------------------------------------------------------------

  /** The inner loop over `delta = -w .. w` for one column. */
  method ScanColumn(mx: Matrix, col: nat, rowOf: int -> int, w: int)
    returns (foundValid: bool, foundPos: bool, pos: seq<real>)
    ensures foundValid == AnyReading(mx, rowOf, w, col, Width(w))
    ensures foundPos == AnyAbove(mx, rowOf, w, col, 0.0, Width(w))
    ensures pos == Positives(mx, rowOf, w, col, Width(w))
  {
    foundValid, foundPos, pos := false, false, [];
    var delta := -w;
    while delta <= w
      invariant 0 <= delta + w <= Width(w)
      invariant w < 0 ==> delta == -w
      invariant foundValid == AnyReading(mx, rowOf, w, col, delta + w)
      invariant foundPos == AnyAbove(mx, rowOf, w, col, 0.0, delta + w)
      invariant pos == Positives(mx, rowOf, w, col, delta + w)
    {
      var row := rowOf(delta);
      if 0 <= row < |mx| && col < |mx[row]| && mx[row][col].Some? {
        foundValid := true;
        if mx[row][col].value > 0.0 {
          foundPos := true;
          pos := pos + [mx[row][col].value];
        }
      }
      delta := delta + 1;
    }
  }

  /** One column of the outer loop. */
  method ScanYear(mx: Matrix, years: Option<seq<real>>, month: int, day: int, w: int, yi: nat)
    returns (valid: bool, posYear: bool, pos: seq<real>)
    requires yi < ColumnCount(mx)
    ensures valid == TE.ValidFlags(mx, years, month, day, w)[yi]
    ensures posYear == TE.AboveFlags(mx, years, month, day, w, 0.0)[yi]
    ensures pos == PositiveParts(mx, years, month, day, w)[yi]
  {
    var src := ByReference(ReferenceRow(month, day));
    if years.Some? && |years.value| == ColumnCount(mx) {
      var y := years.value[yi];
      if !(y.Floor as real == y) {
        return false, false, [];
      }
      src := ByYear(y.Floor);
    }
    valid, posYear, pos := ScanColumn(mx, yi, RowOf(src, month, day), w);
  }

  lemma CountFlagsStep(flags: seq<bool>, n: nat)
    requires n < |flags|
    ensures CountFlags(flags, n + 1) == CountFlags(flags, n) + (if flags[n] then 1 else 0)
  {
  }

  lemma ConcatStep(parts: seq<seq<real>>, n: nat)
    requires n < |parts|
    ensures Concat(parts, n + 1) == Concat(parts, n) + parts[n]
  {
  }

  /** One pass of the outer loop: column yi updates the two counters and the pool. */
  method ScanStep(mx: Matrix, years: Option<seq<real>>, month: int, day: int, w: int, yi: nat,
                  nValid: nat, nPosYears: nat, positives: seq<real>)
    returns (nValid': nat, nPosYears': nat, positives': seq<real>)
    requires yi < ColumnCount(mx)
    requires nValid == CountFlags(TE.ValidFlags(mx, years, month, day, w), yi)
    requires nPosYears == CountFlags(TE.AboveFlags(mx, years, month, day, w, 0.0), yi)
    requires positives == Concat(PositiveParts(mx, years, month, day, w), yi)
    ensures nValid' == CountFlags(TE.ValidFlags(mx, years, month, day, w), yi + 1)
    ensures nPosYears' == CountFlags(TE.AboveFlags(mx, years, month, day, w, 0.0), yi + 1)
    ensures positives' == Concat(PositiveParts(mx, years, month, day, w), yi + 1)
  {
    var valid, posYear, pos := ScanYear(mx, years, month, day, w, yi);
    CountFlagsStep(TE.ValidFlags(mx, years, month, day, w), yi);
    CountFlagsStep(TE.AboveFlags(mx, years, month, day, w, 0.0), yi);
    ConcatStep(PositiveParts(mx, years, month, day, w), yi);
    nValid', nPosYears', positives' := nValid, nPosYears, positives + pos;
    if valid {
      nValid' := nValid' + 1;
    }
    if posYear {
      nPosYears' := nPosYears' + 1;
    }
  }

  /** The outer loop over the columns: the two counters and the pool. */
  method ScanYears(mx: Matrix, years: Option<seq<real>>, month: int, day: int, w: int)
    returns (nValid: nat, nPosYears: nat, positives: seq<real>)
    ensures nValid == CountFlags(TE.ValidFlags(mx, years, month, day, w), ColumnCount(mx))
    ensures nPosYears == CountFlags(TE.AboveFlags(mx, years, month, day, w, 0.0), ColumnCount(mx))
    ensures positives == Pooled(mx, years, month, day, w)
  {
    ghost var vf := TE.ValidFlags(mx, years, month, day, w);
    ghost var pf := TE.AboveFlags(mx, years, month, day, w, 0.0);
    ghost var parts := PositiveParts(mx, years, month, day, w);
    nValid, nPosYears, positives := 0, 0, [];
    var yi := 0;
    while yi < ColumnCount(mx)
      invariant 0 <= yi <= ColumnCount(mx)
      invariant nValid == CountFlags(vf, yi)
      invariant nPosYears == CountFlags(pf, yi)
      invariant positives == Concat(parts, yi)
    {
      nValid, nPosYears, positives := ScanStep(mx, years, month, day, w, yi, nValid, nPosYears, positives);
      yi := yi + 1;
    }
  }

  /** What follows the loops: p_occ, the fit and p_amount_gt_t. */
  method Combine(nValid: nat, nPosYears: nat, positives: seq<real>, opts: Options,
                 ln: real -> real, sqrt: real -> real, phi: real -> real)
    returns (e: Estimate)
    ensures e == Combined(nValid, nPosYears, positives, opts, ln, sqrt, phi)
  {
    var pOcc := if nValid != 0 then nPosYears as real / nValid as real else 0.0;
    assert pOcc == Fraction(nPosYears, nValid);
    var nPos := |positives|;
    var fit: Option<Fit> := None;
    if nPos >= Max(opts.minPos, 2) {
      var logs := Logs(positives, ln);
      var muLog := Mean(logs).val;
      var sigmaLog := Std(logs, muLog, sqrt);
      if sigmaLog == 0.0 {
        sigmaLog := SIGMA_FLOOR;
      }
      fit := Some(Fit(muLog, sigmaLog));
    }
    assert fit == FitLogNormal(positives, opts.minPos, ln, sqrt);
    var pAmount := 0.0;
    if opts.threshold <= 0.0 {
      pAmount := 1.0;
    } else if fit.Some? {
      var z := (ln(opts.threshold) - fit.value.muLog) / fit.value.sigmaLog;
      pAmount := 1.0 - phi(z);
    } else {
      var cnt := |Above(positives, opts.threshold)|;
      pAmount := if nPos != 0 then cnt as real / nPos as real else 0.0;
    }
    assert pAmount == AmountProbability(positives, opts.threshold, fit, ln, phi);
    return Estimate(pOcc * pAmount, pOcc, pAmount, fit, nValid, nPosYears, nPos);
  }

  method GetPValueParametric(mx: Matrix, years: Option<seq<real>>, month: int, day: int, opts: Options,
                             ln: real -> real, sqrt: real -> real, phi: real -> real)
    returns (r: Result<Estimate>)
    ensures r == Parametric(mx, years, month, day, opts, ln, sqrt, phi)
  {
    if |mx| == 0 {
      return Err(InvalidMatrix);
    }
    var aligned := years.Some? && |years.value| == ColumnCount(mx);
    var refDoy := ReferenceRow(month, day);
    if !aligned && !(0 <= refDoy < |mx|) {
      return Err(InvalidDate);
    }
    var nValid, nPosYears, positives := ScanYears(mx, years, month, day, opts.window);
    var e := Combine(nValid, nPosYears, positives, opts, ln, sqrt, phi);
    return Ok(e);
  }

  // ---------------------------------------------------------------------
  // Properties
  // ---------------------------------------------------------------------

  /** The positives of a window are exactly its readings above 0, in order. */
  lemma {:induction false} PositivesAreAbove(mx: Matrix, rowOf: int -> int, w: int, col: nat, k: nat)
    ensures Positives(mx, rowOf, w, col, k) == Above(WindowValues(mx, rowOf, w, col, k), 0.0)
    ensures |Positives(mx, rowOf, w, col, k)| > 0 <==> AnyAbove(mx, rowOf, w, col, 0.0, k)
  {
    if k > 0 {
      PositivesAreAbove(mx, rowOf, w, col, k - 1);
      var c := ReadingAt(mx, rowOf(-w + k - 1), col);
      AboveAppend(WindowValues(mx, rowOf, w, col, k - 1), CellSeq(c), 0.0);
    }
  }

  /** Every pushed positive is strictly greater than 0. */
  lemma {:induction false} PositivesPositive(mx: Matrix, rowOf: int -> int, w: int, col: nat, k: nat)
    ensures AllPositive(Positives(mx, rowOf, w, col, k))
  {
    if k > 0 {
      PositivesPositive(mx, rowOf, w, col, k - 1);
      AppendPositive(Positives(mx, rowOf, w, col, k - 1), PositiveCell(ReadingAt(mx, rowOf(-w + k - 1), col)));
    }
  }

  lemma ColumnPositivesMeaning(mx: Matrix, years: Option<seq<real>>, month: int, day: int, w: int, col: nat)
    requires col < ColumnCount(mx)
    ensures |ColumnPositives(mx, years, month, day, w, col)| > 0 <==> TE.ColumnAbove(mx, years, month, day, w, 0.0, col)
    ensures AllPositive(ColumnPositives(mx, years, month, day, w, col))
  {
    match ColumnSource(mx, years, month, day, col)
    case None =>
    case Some(src) =>
      PositivesAreAbove(mx, RowOf(src, month, day), w, col, Width(w));
      PositivesPositive(mx, RowOf(src, month, day), w, col, Width(w));
  }

  predicate AllPositive(s: seq<real>)
  {
    forall i :: 0 <= i < |s| ==> s[i] > 0.0
  }

  lemma AppendPositive(a: seq<real>, b: seq<real>)
    requires AllPositive(a) && AllPositive(b)
    ensures AllPositive(a + b)
  {
  }

  /** Concatenating positive parts gives a positive sequence. */
  lemma {:induction false} ConcatPositive(parts: seq<seq<real>>, n: nat)
    requires n <= |parts|
    requires forall c :: 0 <= c < n ==> AllPositive(parts[c])
    ensures AllPositive(Concat(parts, n))
  {
    if n > 0 {
      ConcatPositive(parts, n - 1);
      AppendPositive(Concat(parts, n - 1), parts[n - 1]);
    }
  }

  /** Each flagged part holds an element, so the concatenation is at least
      as long as the number of flags. */
  lemma {:induction false} ConcatCoversFlags(parts: seq<seq<real>>, flags: seq<bool>, n: nat)
    requires n <= |parts| && n <= |flags|
    requires forall c :: 0 <= c < n ==> flags[c] ==> |parts[c]| > 0
    ensures |Concat(parts, n)| >= CountFlags(flags, n)
  {
    if n > 0 {
      ConcatCoversFlags(parts, flags, n - 1);
    }
  }

  /** The pool holds only positive amounts, at least one per year with a
      positive reading. */
  lemma PooledPositive(mx: Matrix, years: Option<seq<real>>, month: int, day: int, w: int)
    ensures AllPositive(Pooled(mx, years, month, day, w))
    ensures |Pooled(mx, years, month, day, w)| >= CountFlags(TE.AboveFlags(mx, years, month, day, w, 0.0), ColumnCount(mx))
  {
    var parts := PositiveParts(mx, years, month, day, w);
    var pf := TE.AboveFlags(mx, years, month, day, w, 0.0);
    forall c | 0 <= c < ColumnCount(mx)
      ensures AllPositive(parts[c]) && (pf[c] ==> |parts[c]| > 0)
    {
      ColumnPositivesMeaning(mx, years, month, day, w, c);
    }
    ConcatPositive(parts, ColumnCount(mx));
    ConcatCoversFlags(parts, pf, ColumnCount(mx));
  }

  /** Flags implied pointwise give no larger count. */
  lemma {:induction false} CountFlagsMonotone(f: seq<bool>, g: seq<bool>, n: nat)
    requires n <= |f| && n <= |g|
    requires forall i :: 0 <= i < n ==> f[i] ==> g[i]
    ensures CountFlags(f, n) <= CountFlags(g, n)
  {
    if n > 0 {
      CountFlagsMonotone(f, g, n - 1);
    }
  }

  /** The counter equals the number of labels the threshold estimator records. */
  lemma {:induction false} CountIsSelectedLength(flags: seq<bool>, tags: seq<real>, n: nat)
    requires n <= |flags| && n <= |tags|
    ensures CountFlags(flags, n) == |TE.Selected(flags, tags, n)|
  {
    if n > 0 {
      CountIsSelectedLength(flags, tags, n - 1);
    }
  }

  /** Occurrence: nPosYears <= nValid and p_occ = nPosYears / nValid in
      [0, 1], 0 without a valid year. */
  lemma OccurrenceBounds(mx: Matrix, years: Option<seq<real>>, month: int, day: int, opts: Options,
                         ln: real -> real, sqrt: real -> real, phi: real -> real)
    requires Parametric(mx, years, month, day, opts, ln, sqrt, phi).Ok?
    ensures var e := Parametric(mx, years, month, day, opts, ln, sqrt, phi).value;
      && e.nPosYears <= e.nValid
      && e.pOcc == Fraction(e.nPosYears, e.nValid)
      && 0.0 <= e.pOcc <= 1.0
      && (e.nValid == 0 ==> e.pOcc == 0.0)
  {
    var w := opts.window;
    var pf := TE.AboveFlags(mx, years, month, day, w, 0.0);
    var vf := TE.ValidFlags(mx, years, month, day, w);
    forall col | 0 <= col < ColumnCount(mx)
      ensures pf[col] ==> vf[col]
    {
      TE.RainyColumnIsValid(mx, years, month, day, w, 0.0, col);
    }
    CountFlagsMonotone(pf, vf, ColumnCount(mx));
  }

  /** Every pooled positive exceeds 0 (occurrence uses v > 0, not the
      threshold), and nPos >= nPosYears. */
  lemma PoolIsPositive(mx: Matrix, years: Option<seq<real>>, month: int, day: int, opts: Options,
                       ln: real -> real, sqrt: real -> real, phi: real -> real)
    requires |mx| > 0 && !ReferenceFails(years, mx, month, day)
    ensures var pos := Pooled(mx, years, month, day, opts.window);
      var e := Parametric(mx, years, month, day, opts, ln, sqrt, phi).value;
      && e.nPos == |pos|
      && (forall i :: 0 <= i < |pos| ==> pos[i] > 0.0)
      && e.nPos >= e.nPosYears
  {
    PooledPositive(mx, years, month, day, opts.window);
  }

  /** The counts and the pool do not depend on the threshold. */
  lemma OccurrenceIgnoresThreshold(mx: Matrix, years: Option<seq<real>>, month: int, day: int, opts: Options, t2: real,
                                   ln: real -> real, sqrt: real -> real, phi: real -> real)
    requires Parametric(mx, years, month, day, opts, ln, sqrt, phi).Ok?
    ensures var a := Parametric(mx, years, month, day, opts, ln, sqrt, phi).value;
      var b := Parametric(mx, years, month, day, opts.(threshold := t2), ln, sqrt, phi).value;
      a.nValid == b.nValid && a.nPosYears == b.nPosYears && a.nPos == b.nPos
      && a.pOcc == b.pOcc && a.fit == b.fit
  {
  }

  /** Both estimators agree on the occurrence counts: nValid is the
      threshold estimator's nValid over the same window, and nPosYears its
      nRainy at threshold 0. */
  lemma AgreesWithThresholdEstimator(mx: Matrix, years: Option<seq<real>>, month: int, day: int, opts: Options,
                                     minCount: int, ln: real -> real, sqrt: real -> real, phi: real -> real)
    requires Parametric(mx, years, month, day, opts, ln, sqrt, phi).Ok?
    ensures var e := Parametric(mx, years, month, day, opts, ln, sqrt, phi).value;
      var th := TE.Threshold(mx, years, month, day, TE.Options(0.0, opts.window, minCount));
      th.Ok? && e.nValid == th.value.nValid && e.nPosYears == th.value.nRainy
  {
    var w := opts.window;
    var tags := TE.Tags(mx, years);
    var vf := TE.ValidFlags(mx, years, month, day, w);
    var pf := TE.AboveFlags(mx, years, month, day, w, 0.0);
    CountIsSelectedLength(vf, tags, ColumnCount(mx));
    CountIsSelectedLength(pf, tags, ColumnCount(mx));
    TE.RainyWithinValid(mx, years, month, day, w, 0.0);
    SubsequenceNoLonger(TE.Selected(pf, tags, ColumnCount(mx)), TE.Selected(vf, tags, ColumnCount(mx)));
  }

  /** The combination: prob = p_occ * p_amount_gt_t; a threshold <= 0
      makes p_amount_gt_t = 1 and so prob = p_occ; the fit exists exactly
      with at least max(minPos, 2) positives and never has sigma 0. */
  lemma CombinationRules(nValid: nat, nPosYears: nat, pos: seq<real>, opts: Options,
                         ln: real -> real, sqrt: real -> real, phi: real -> real)
    ensures var e := Combined(nValid, nPosYears, pos, opts, ln, sqrt, phi);
      && e.prob == e.pOcc * e.pAmount
      && e.pOcc == Fraction(nPosYears, nValid)
      && (opts.threshold <= 0.0 ==> e.pAmount == 1.0 && e.prob == e.pOcc)
      && (e.fit.Some? <==> |pos| >= Max(opts.minPos, 2))
      && (e.fit.Some? ==> e.fit.value.sigmaLog != 0.0)
  {
  }

  /** Without a fit and with a positive threshold, p_amount_gt_t is the
      share of positives strictly above the threshold (0 with no positive). */
  lemma EmpiricalAmount(nValid: nat, nPosYears: nat, pos: seq<real>, opts: Options,
                        ln: real -> real, sqrt: real -> real, phi: real -> real)
    requires opts.threshold > 0.0
    requires |pos| < Max(opts.minPos, 2)
    ensures var e := Combined(nValid, nPosYears, pos, opts, ln, sqrt, phi);
      && e.fit == None
      && e.pAmount == Fraction(|Above(pos, opts.threshold)|, |pos|)
      && (|pos| == 0 ==> e.pAmount == 0.0)
      && 0.0 <= e.pAmount <= 1.0
  {
  }

  /** With a fit, p_amount_gt_t = 1 - phi(z) for z = (ln t - mu) / sigma. */
  lemma FittedAmount(nValid: nat, nPosYears: nat, pos: seq<real>, opts: Options,
                     ln: real -> real, sqrt: real -> real, phi: real -> real)
    requires opts.threshold > 0.0
    requires |pos| >= Max(opts.minPos, 2)
    ensures var e := Combined(nValid, nPosYears, pos, opts, ln, sqrt, phi);
      && e.fit.Some?
      && e.pAmount == 1.0 - phi((ln(opts.threshold) - e.fit.value.muLog) / e.fit.value.sigmaLog)
  {
  }

  /** If phi maps into [0, 1] and nPosYears <= nValid, the probability lies in [0, 1]. */
  lemma ProbabilityInUnitInterval(nValid: nat, nPosYears: nat, pos: seq<real>, opts: Options,
                                  ln: real -> real, sqrt: real -> real, phi: real -> real)
    requires nPosYears <= nValid
    requires forall x :: 0.0 <= phi(x) <= 1.0
    ensures var e := Combined(nValid, nPosYears, pos, opts, ln, sqrt, phi);
      0.0 <= e.pAmount <= 1.0 && 0.0 <= e.prob <= 1.0 && e.prob <= e.pOcc
  {
    var e := Combined(nValid, nPosYears, pos, opts, ln, sqrt, phi);
    assert 0.0 <= e.pAmount <= 1.0;
    assert e.pOcc * e.pAmount <= e.pOcc * 1.0;
  }

  /** An empty matrix and a failing reference row throw, in that order. */
  lemma ErrorCases(mx: Matrix, years: Option<seq<real>>, month: int, day: int, opts: Options,
                   ln: real -> real, sqrt: real -> real, phi: real -> real)
    ensures |mx| == 0 ==> Parametric(mx, years, month, day, opts, ln, sqrt, phi) == Err(InvalidMatrix)
    ensures Parametric(mx, years, month, day, opts, ln, sqrt, phi).Err?
            <==> |mx| == 0 || ReferenceFails(years, mx, month, day)
  {
  }
}
