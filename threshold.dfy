/** Empirical threshold estimator (`getPValueThreshold`): over a window of
    calendar days around the target day, a year is valid when the window
    holds at least one reading and rainy when some reading strictly exceeds
    the threshold; the probability is rainy / valid. */
module ThresholdEstimator {
  import opened Common
  import opened Readings

  datatype Options = Options(threshold: real, window: int, minCount: int)

  /** `{ threshold = 1.0, window = 0, minCount = 1 }`. */
  const DEFAULTS: Options := Options(1.0, 0, 1)

  datatype Estimate = Estimate(
    prob: Number,
    nValid: nat,
    nRainy: nat,
    threshold: real,
    rainyYears: seq<real>,
    validYears: seq<real>)

  /** A column counts as valid: it is not skipped and its window holds a reading. */
  predicate ColumnValid(mx: Matrix, years: Option<seq<real>>, month: int, day: int, w: int, col: nat)
    requires col < ColumnCount(mx)
  {
    match ColumnSource(mx, years, month, day, col)
    case None => false
    case Some(src) => AnyReading(mx, RowOf(src, month, day), w, col, Width(w))
  }

  /** A column counts as rainy: it is not skipped and its window holds a reading above t. */
  predicate ColumnAbove(mx: Matrix, years: Option<seq<real>>, month: int, day: int, w: int, t: real, col: nat)
    requires col < ColumnCount(mx)
  {
    match ColumnSource(mx, years, month, day, col)
    case None => false
    case Some(src) => AnyAbove(mx, RowOf(src, month, day), w, col, t, Width(w))
  }

  function ValidFlags(mx: Matrix, years: Option<seq<real>>, month: int, day: int, w: int): (fs: seq<bool>)
    ensures |fs| == ColumnCount(mx)
    ensures forall col :: 0 <= col < |fs| ==> fs[col] == ColumnValid(mx, years, month, day, w, col)
  {
    seq(ColumnCount(mx), col requires 0 <= col < ColumnCount(mx) => ColumnValid(mx, years, month, day, w, col))
  }

  function AboveFlags(mx: Matrix, years: Option<seq<real>>, month: int, day: int, w: int, t: real): (fs: seq<bool>)
    ensures |fs| == ColumnCount(mx)
    ensures forall col :: 0 <= col < |fs| ==> fs[col] == ColumnAbove(mx, years, month, day, w, t, col)
  {
    seq(ColumnCount(mx), col requires 0 <= col < ColumnCount(mx) => ColumnAbove(mx, years, month, day, w, t, col))
  }

  /** Every column's recorded label, in column order. */
  function Tags(mx: Matrix, years: Option<seq<real>>): (tags: seq<real>)
    ensures |tags| == ColumnCount(mx)
    ensures forall col :: 0 <= col < |tags| ==> tags[col] == ColumnLabel(mx, years, col)
  {
    seq(ColumnCount(mx), col requires 0 <= col < ColumnCount(mx) => ColumnLabel(mx, years, col))
  }

  /** Labels of the flagged columns among the first n, in column order. */
  function Selected(flags: seq<bool>, tags: seq<real>, n: nat): (s: seq<real>)
    requires n <= |flags| && n <= |tags|
    ensures |s| <= n
  {
    if n == 0 then []
    else Selected(flags, tags, n - 1) + (if flags[n - 1] then [tags[n - 1]] else [])
  }

  /** The estimate `getPValueThreshold` builds from its two label lists. */
  function Estimated(valid: seq<real>, rainy: seq<real>, opts: Options): (e: Estimate)
    requires |rainy| <= |valid|
    ensures e.validYears == valid && e.rainyYears == rainy && e.threshold == opts.threshold
  {
    var prob := if |valid| >= opts.minCount then CountRatio(|rainy|, |valid|) else Num(0.0);
    Estimate(prob, |valid|, |rainy|, opts.threshold, rainy, valid)
  }

  /** What `getPValueThreshold` returns or throws. */
  function Threshold(mx: Matrix, years: Option<seq<real>>, month: int, day: int, opts: Options): Result<Estimate>
  {
    if |mx| == 0 then Err(InvalidMatrix)
    else if ReferenceFails(years, mx, month, day) then Err(InvalidDate)
    else
      var n := ColumnCount(mx);
      var tags := Tags(mx, years);
      var valid := Selected(ValidFlags(mx, years, month, day, opts.window), tags, n);
      var rainy := Selected(AboveFlags(mx, years, month, day, opts.window, opts.threshold), tags, n);
      RainyWithinValid(mx, years, month, day, opts.window, opts.threshold);
      SubsequenceNoLonger(rainy, valid);
      Ok(Estimated(valid, rainy, opts))
  }

  /** The inner loop over `delta = -w .. w` for one column; `rowOf(delta)`
      is the row the loop computes for the offset. */
  method ScanColumn(mx: Matrix, col: nat, rowOf: int -> int, w: int, t: real)
    returns (foundValid: bool, foundRain: bool)
    ensures foundValid == AnyReading(mx, rowOf, w, col, Width(w))
    ensures foundRain == AnyAbove(mx, rowOf, w, col, t, Width(w))
  {
    foundValid, foundRain := false, false;
    var delta := -w;
    while delta <= w
      invariant 0 <= delta + w <= Width(w)
      invariant w < 0 ==> delta == -w
      invariant foundValid == AnyReading(mx, rowOf, w, col, delta + w)
      invariant foundRain == AnyAbove(mx, rowOf, w, col, t, delta + w)
    {
      var row := rowOf(delta);
      if 0 <= row < |mx| && col < |mx[row]| && mx[row][col].Some? {
        foundValid := true;
        if mx[row][col].value > t {
          foundRain := true;
        }
      }
      delta := delta + 1;
    }
  }

  /** One column of the outer loop: whether it is valid and rainy, and the
      label it records (`years[yi]`, or `yi` in the fallback). */
  method ScanYear(mx: Matrix, years: Option<seq<real>>, month: int, day: int, opts: Options, yi: nat)
    returns (valid: bool, rainy: bool, tag: real)
    requires yi < ColumnCount(mx)
    ensures valid == ColumnValid(mx, years, month, day, opts.window, yi)
    ensures rainy == ColumnAbove(mx, years, month, day, opts.window, opts.threshold, yi)
    ensures rainy ==> valid
    ensures tag == ColumnLabel(mx, years, yi)
  {
    var src := ByReference(ReferenceRow(month, day));
    tag := yi as real;
    if years.Some? && |years.value| == ColumnCount(mx) {
      var y := years.value[yi];
      tag := y;
      if !(y.Floor as real == y) {
        return false, false, tag;
      }
      src := ByYear(y.Floor);
    }
    valid, rainy := ScanColumn(mx, yi, RowOf(src, month, day), opts.window, opts.threshold);
    AboveIsReading(mx, RowOf(src, month, day), opts.window, yi, opts.threshold, Width(opts.window));
  }

  /** The outer loop over the columns. */
  method ScanYears(mx: Matrix, years: Option<seq<real>>, month: int, day: int, opts: Options)
    returns (validYears: seq<real>, rainyYears: seq<real>)
    ensures validYears == Selected(ValidFlags(mx, years, month, day, opts.window), Tags(mx, years), ColumnCount(mx))
    ensures rainyYears == Selected(AboveFlags(mx, years, month, day, opts.window, opts.threshold), Tags(mx, years), ColumnCount(mx))
  {
    ghost var vf := ValidFlags(mx, years, month, day, opts.window);
    ghost var af := AboveFlags(mx, years, month, day, opts.window, opts.threshold);
    ghost var tags := Tags(mx, years);
    rainyYears, validYears := [], [];
    var yi := 0;
    while yi < ColumnCount(mx)
      invariant 0 <= yi <= ColumnCount(mx)
      invariant validYears == Selected(vf, tags, yi)
      invariant rainyYears == Selected(af, tags, yi)
    {
      var valid, rainy, tag := ScanYear(mx, years, month, day, opts, yi);
      SelectedStep(vf, tags, yi);
      SelectedStep(af, tags, yi);
      if valid {
        validYears := validYears + [tag];
        if rainy {
          rainyYears := rainyYears + [tag];
        }
      }
      yi := yi + 1;
    }
  }

  method GetPValueThreshold(mx: Matrix, years: Option<seq<real>>, month: int, day: int, opts: Options)
    returns (r: Result<Estimate>)
    ensures r == Threshold(mx, years, month, day, opts)
  {
    if |mx| == 0 {
      return Err(InvalidMatrix);
    }
    var aligned := years.Some? && |years.value| == ColumnCount(mx);
    var refDoy := ReferenceRow(month, day);
    if !aligned && !(0 <= refDoy < |mx|) {
      return Err(InvalidDate);
    }
    var validYears, rainyYears := ScanYears(mx, years, month, day, opts);
    RainyWithinValid(mx, years, month, day, opts.window, opts.threshold);
    SubsequenceNoLonger(rainyYears, validYears);
    var nValid := |validYears|;
    var nRainy := |rainyYears|;
    var prob := if nValid >= opts.minCount then CountRatio(nRainy, nValid) else Num(0.0);
    return Ok(Estimate(prob, nValid, nRainy, opts.threshold, rainyYears, validYears));
  }

  // ---------------------------------------------------------------------
  // Selection of labels by flags
  // ---------------------------------------------------------------------

  /** Columns flagged in f are flagged in g: f's labels are an
      order-preserving subsequence of g's. */
  lemma {:induction false} SelectedSubsequence(f: seq<bool>, g: seq<bool>, tags: seq<real>, n: nat)
    requires n <= |f| && n <= |g| && n <= |tags|
    requires forall i :: 0 <= i < n ==> f[i] ==> g[i]
    ensures IsSubsequence(Selected(f, tags, n), Selected(g, tags, n))
  {
    if n > 0 {
      SelectedSubsequence(f, g, tags, n - 1);
      var sf := Selected(f, tags, n - 1);
      var sg := Selected(g, tags, n - 1);
      SubsequenceExtend(sf, sg, tags[n - 1]);
      if f[n - 1] {
        assert Selected(f, tags, n) == sf + [tags[n - 1]];
        assert Selected(g, tags, n) == sg + [tags[n - 1]];
      } else if g[n - 1] {
        assert Selected(f, tags, n) == sf;
        assert Selected(g, tags, n) == sg + [tags[n - 1]];
      } else {
        assert Selected(f, tags, n) == sf;
        assert Selected(g, tags, n) == sg;
      }
    }
  }

  lemma SelectedStep(flags: seq<bool>, tags: seq<real>, n: nat)
    requires n < |flags| && n < |tags|
    ensures Selected(flags, tags, n + 1) == Selected(flags, tags, n) + (if flags[n] then [tags[n]] else [])
  {
  }

  /** With every flag set, every label is selected, in column order. */
  lemma {:induction false} SelectedAll(flags: seq<bool>, tags: seq<real>, n: nat)
    requires n <= |flags| && n <= |tags|
    requires forall i :: 0 <= i < n ==> flags[i]
    ensures Selected(flags, tags, n) == tags[..n]
  {
    if n > 0 {
      SelectedAll(flags, tags, n - 1);
      assert tags[..n] == tags[..n - 1] + [tags[n - 1]];
    }
  }

  /** With no flag set, nothing is selected. */
  lemma {:induction false} SelectedNone(flags: seq<bool>, tags: seq<real>, n: nat)
    requires n <= |flags| && n <= |tags|
    requires forall i :: 0 <= i < n ==> !flags[i]
    ensures Selected(flags, tags, n) == []
  {
    if n > 0 {
      SelectedNone(flags, tags, n - 1);
    }
  }

  /** When each column's label is its own index, the selected labels are
      integers in [0, n), strictly increasing. */
  lemma {:induction false} SelectedIndices(flags: seq<bool>, tags: seq<real>, n: nat)
    requires n <= |flags| && n <= |tags|
    requires forall c :: 0 <= c < n ==> tags[c] == c as real
    ensures forall i :: 0 <= i < |Selected(flags, tags, n)| ==>
      IsInteger(Selected(flags, tags, n)[i]) && 0.0 <= Selected(flags, tags, n)[i] < n as real
    ensures forall i, j :: 0 <= i < j < |Selected(flags, tags, n)| ==> Selected(flags, tags, n)[i] < Selected(flags, tags, n)[j]
  {
    if n > 0 {
      SelectedIndices(flags, tags, n - 1);
      var v0 := Selected(flags, tags, n - 1);
      SelectedStep(flags, tags, n - 1);
      assert tags[n - 1] == (n - 1) as real;
    }
  }

  // ---------------------------------------------------------------------
  // Properties of the estimator
  // ---------------------------------------------------------------------

  lemma RainyColumnIsValid(mx: Matrix, years: Option<seq<real>>, month: int, day: int, w: int, t: real, col: nat)
    requires col < ColumnCount(mx)
    ensures ColumnAbove(mx, years, month, day, w, t, col) ==> ColumnValid(mx, years, month, day, w, col)
  {
    match ColumnSource(mx, years, month, day, col)
    case None =>
    case Some(src) => AboveIsReading(mx, RowOf(src, month, day), w, col, t, Width(w));
  }

  /** Every rainy year is a valid year: rainyYears is an order-preserving
      subsequence of validYears. */
  lemma RainyWithinValid(mx: Matrix, years: Option<seq<real>>, month: int, day: int, w: int, t: real)
    ensures var n := ColumnCount(mx);
      var tags := Tags(mx, years);
      IsSubsequence(Selected(AboveFlags(mx, years, month, day, w, t), tags, n), Selected(ValidFlags(mx, years, month, day, w), tags, n))
  {
    var af := AboveFlags(mx, years, month, day, w, t);
    var vf := ValidFlags(mx, years, month, day, w);
    forall col | 0 <= col < ColumnCount(mx)
      ensures af[col] ==> vf[col]
    {
      RainyColumnIsValid(mx, years, month, day, w, t, col);
    }
    SelectedSubsequence(af, vf, Tags(mx, years), ColumnCount(mx));
  }

  /** The probability arithmetic: with minCount >= 1 the probability is a
      number in [0, 1], nRainy / nValid once nValid reaches minCount and 0
      before; with minCount <= 0 and no valid year it is 0 / 0, NaN. */
  lemma EstimatedProbability(valid: seq<real>, rainy: seq<real>, opts: Options)
    requires |rainy| <= |valid|
    ensures var e := Estimated(valid, rainy, opts);
      && e.nValid == |valid| && e.nRainy == |rainy|
      && (opts.minCount >= 1 ==> e.prob.Num? && 0.0 <= e.prob.val <= 1.0)
      && (e.nValid >= opts.minCount && e.nValid > 0 ==> e.prob.Num? && e.prob.val * e.nValid as real == e.nRainy as real)
      && (e.nValid < opts.minCount ==> e.prob == Num(0.0))
      && (opts.minCount <= 0 ==> (e.prob.NaN? <==> e.nValid == 0))
  {
  }

  /** Every estimate has nRainy <= nValid, rainyYears an order-preserving
      subsequence of validYears, and the probability arithmetic above. */
  lemma ProbabilityBounds(mx: Matrix, years: Option<seq<real>>, month: int, day: int, opts: Options)
    requires Threshold(mx, years, month, day, opts).Ok?
    ensures var e := Threshold(mx, years, month, day, opts).value;
      && e.nRainy <= e.nValid
      && IsSubsequence(e.rainyYears, e.validYears)
      && e == Estimated(e.validYears, e.rainyYears, opts)
  {
    var e := Threshold(mx, years, month, day, opts).value;
    RainyWithinValid(mx, years, month, day, opts.window, opts.threshold);
    SubsequenceNoLonger(e.rainyYears, e.validYears);
  }

  /** Raising the threshold leaves validYears as it was and keeps only years
      that were already rainy, in the same order. */
  lemma RaisingThresholdNeverAddsRain(mx: Matrix, years: Option<seq<real>>, month: int, day: int, opts: Options, t2: real)
    requires Threshold(mx, years, month, day, opts).Ok?
    requires opts.threshold <= t2
    ensures var lo := Threshold(mx, years, month, day, opts).value;
      var hi := Threshold(mx, years, month, day, opts.(threshold := t2)).value;
      hi.validYears == lo.validYears && hi.nValid == lo.nValid && hi.nRainy <= lo.nRainy
      && IsSubsequence(hi.rainyYears, lo.rainyYears)
  {
    var w := opts.window;
    var f1 := AboveFlags(mx, years, month, day, w, opts.threshold);
    var f2 := AboveFlags(mx, years, month, day, w, t2);
    forall col | 0 <= col < ColumnCount(mx)
      ensures f2[col] ==> f1[col]
    {
      match ColumnSource(mx, years, month, day, col)
      case None =>
      case Some(src) => AboveAntitone(mx, RowOf(src, month, day), w, col, opts.threshold, t2, Width(w));
    }
    var tags := Tags(mx, years);
    SelectedSubsequence(f2, f1, tags, ColumnCount(mx));
    SubsequenceNoLonger(Selected(f2, tags, ColumnCount(mx)), Selected(f1, tags, ColumnCount(mx)));
  }

  /** A column is valid exactly when some window offset hits a reading, and
      rainy exactly when some offset hits a reading strictly above t; a
      reading equal to t does not count. */
  lemma ColumnMeaning(mx: Matrix, years: Option<seq<real>>, month: int, day: int, w: int, t: real, col: nat)
    requires col < ColumnCount(mx)
    requires ColumnSource(mx, years, month, day, col).Some?
    ensures var src := ColumnSource(mx, years, month, day, col).value;
      && (ColumnValid(mx, years, month, day, w, col)
          <==> exists delta :: -w <= delta <= w && ReadingAt(mx, WindowRow(src, month, day, delta), col).Some?)
      && (ColumnAbove(mx, years, month, day, w, t, col)
          <==> exists delta :: -w <= delta <= w && AboveCell(ReadingAt(mx, WindowRow(src, month, day, delta), col), t))
  {
    var src := ColumnSource(mx, years, month, day, col).value;
    assert forall delta :: RowOf(src, month, day)(delta) == WindowRow(src, month, day, delta);
    AnyReadingMeaning(mx, RowOf(src, month, day), w, col, Width(w));
    AnyAboveMeaning(mx, RowOf(src, month, day), w, col, t, Width(w));
  }

  /** In the fallback, validYears holds column indices: integers in
      [0, columns), strictly increasing. */
  lemma FallbackRecordsColumns(mx: Matrix, years: Option<seq<real>>, month: int, day: int, opts: Options)
    requires Threshold(mx, years, month, day, opts).Ok?
    requires !Aligned(years, mx)
    ensures var v := Threshold(mx, years, month, day, opts).value.validYears;
      && (forall i :: 0 <= i < |v| ==> IsInteger(v[i]) && 0.0 <= v[i] < ColumnCount(mx) as real)
      && (forall i, j :: 0 <= i < j < |v| ==> v[i] < v[j])
  {
    var tags := Tags(mx, years);
    forall c | 0 <= c < ColumnCount(mx)
      ensures tags[c] == c as real
    {
      assert tags[c] == ColumnLabel(mx, years, c);
    }
    var vf := ValidFlags(mx, years, month, day, opts.window);
    var v := Selected(vf, tags, ColumnCount(mx));
    SelectedIndices(vf, tags, ColumnCount(mx));
    var rainy := Selected(AboveFlags(mx, years, month, day, opts.window, opts.threshold), tags, ColumnCount(mx));
    RainyWithinValid(mx, years, month, day, opts.window, opts.threshold);
    SubsequenceNoLonger(rainy, v);
    assert Threshold(mx, years, month, day, opts) == Ok(Estimated(v, rainy, opts));
  }

  /** Every year rains: with every column's window holding a reading above
      the threshold, the probability is 1 and every column is counted (for
      example 40 years of 2 mm against the default 1.0 mm threshold). */
  lemma EveryYearRains(mx: Matrix, years: Option<seq<real>>, month: int, day: int, opts: Options)
    requires Threshold(mx, years, month, day, opts).Ok?
    requires 1 <= opts.minCount <= ColumnCount(mx)
    requires forall col :: 0 <= col < ColumnCount(mx) ==> ColumnAbove(mx, years, month, day, opts.window, opts.threshold, col)
    ensures var e := Threshold(mx, years, month, day, opts).value;
      e.prob == Num(1.0) && e.nValid == e.nRainy == ColumnCount(mx) && e.validYears == e.rainyYears
  {
    var w := opts.window;
    var n := ColumnCount(mx);
    var tags := Tags(mx, years);
    var af := AboveFlags(mx, years, month, day, w, opts.threshold);
    var vf := ValidFlags(mx, years, month, day, w);
    forall col | 0 <= col < n
      ensures vf[col]
    {
      RainyColumnIsValid(mx, years, month, day, w, opts.threshold, col);
    }
    SelectedAll(af, tags, n);
    SelectedAll(vf, tags, n);
    ThresholdUnfold(mx, years, month, day, opts);
    EstimatedAllRainy(tags[..n], opts);
  }

  /** An accepted matrix is estimated from its valid and its rainy labels. */
  lemma ThresholdUnfold(mx: Matrix, years: Option<seq<real>>, month: int, day: int, opts: Options)
    requires Threshold(mx, years, month, day, opts).Ok?
    ensures var n := ColumnCount(mx);
      var tags := Tags(mx, years);
      var valid := Selected(ValidFlags(mx, years, month, day, opts.window), tags, n);
      var rainy := Selected(AboveFlags(mx, years, month, day, opts.window, opts.threshold), tags, n);
      |rainy| <= |valid| && Threshold(mx, years, month, day, opts) == Ok(Estimated(valid, rainy, opts))
  {
    RainyWithinValid(mx, years, month, day, opts.window, opts.threshold);
    var n := ColumnCount(mx);
    var tags := Tags(mx, years);
    SubsequenceNoLonger(Selected(AboveFlags(mx, years, month, day, opts.window, opts.threshold), tags, n),
                        Selected(ValidFlags(mx, years, month, day, opts.window), tags, n));
  }

  /** Every valid year rainy, and enough of them: the probability is 1. */
  lemma EstimatedAllRainy(valid: seq<real>, opts: Options)
    requires 1 <= opts.minCount <= |valid|
    ensures Estimated(valid, valid, opts).prob == Num(1.0)
  {
  }

  /** A column of missing cells is never valid. */
  lemma {:induction false} MissingColumnNotValid(mx: Matrix, rowOf: int -> int, w: int, col: nat, k: nat)
    requires forall row :: 0 <= row < |mx| && col < |mx[row]| ==> mx[row][col].None?
    ensures !AnyReading(mx, rowOf, w, col, k)
  {
    if k > 0 {
      MissingColumnNotValid(mx, rowOf, w, col, k - 1);
    }
  }

  /** A matrix without a single reading gives no valid year and probability 0. */
  lemma AllMissingGivesZero(mx: Matrix, years: Option<seq<real>>, month: int, day: int, opts: Options)
    requires Threshold(mx, years, month, day, opts).Ok?
    requires opts.minCount >= 1
    requires forall row, col :: 0 <= row < |mx| && 0 <= col < |mx[row]| ==> mx[row][col].None?
    ensures Threshold(mx, years, month, day, opts).value.nValid == 0
    ensures Threshold(mx, years, month, day, opts).value.prob == Num(0.0)
  {
    var vf := ValidFlags(mx, years, month, day, opts.window);
    forall col | 0 <= col < ColumnCount(mx)
      ensures !vf[col]
    {
      match ColumnSource(mx, years, month, day, col)
      case None =>
      case Some(src) => MissingColumnNotValid(mx, RowOf(src, month, day), opts.window, col, Width(opts.window));
    }
    SelectedNone(vf, Tags(mx, years), ColumnCount(mx));
  }

  /** A fallback whose reference row lies outside the matrix throws 'Invalid
      date'; an empty matrix throws before anything else. */
  lemma ErrorCases(mx: Matrix, years: Option<seq<real>>, month: int, day: int, opts: Options)
    ensures Threshold(mx, years, month, day, opts).Err? <==> |mx| == 0 || ReferenceFails(years, mx, month, day)
    ensures |mx| == 0 ==> Threshold(mx, years, month, day, opts) == Err(InvalidMatrix)
  {
  }
}
