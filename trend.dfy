/** The least-squares trend of one calendar day across years
    (`getTrendForDay` of spencer.js). The samples pair a year with the
    day's reading; with at least three of them the slope, intercept, R^2
    and an approximate p-value are computed. The p-value calls `Math.erf`,
    which standard JavaScript does not define, so the function as written
    throws whenever it gets that far; the model keeps that behaviour in
    TrendAsWritten and uses TrendForDay, with an explicit normal CDF, for
    the intended result. */
module Trend {
  import opened Common
  import opened Calendar
  import opened Readings

  /** `{ year, value }`. */
  datatype Sample = Sample(year: real, value: real)

  /** The row read for column col. The years-aligned loop accepts any finite
      year (not only integers); Date.UTC truncates it toward zero. */
  function TrendRow(mx: Matrix, years: Option<seq<real>>, month: int, day: int, col: nat): int
    requires col < ColumnCount(mx)
  {
    if Aligned(years, mx) then DayOfYearIndex(Trunc(years.value[col]), month, day)
    else ReferenceRow(month, day)
  }

  /** The samples of the first n columns, in column order. */
  function TrendSamples(mx: Matrix, years: Option<seq<real>>, month: int, day: int, n: nat): (s: seq<Sample>)
    requires n <= ColumnCount(mx)
    ensures |s| <= n
  {
    if n == 0 then []
    else
      var c := ReadingAt(mx, TrendRow(mx, years, month, day, n - 1), n - 1);
      TrendSamples(mx, years, month, day, n - 1)
        + (if c.Some? then [Sample(ColumnLabel(mx, years, n - 1), c.value)] else [])
  }

  function Years(s: seq<Sample>): (xs: seq<real>)
    ensures |xs| == |s| && forall i :: 0 <= i < |s| ==> xs[i] == s[i].year
  {
    seq(|s|, i requires 0 <= i < |s| => s[i].year)
  }

  function Values(s: seq<Sample>): (ys: seq<real>)
    ensures |ys| == |s| && forall i :: 0 <= i < |s| ==> ys[i] == s[i].value
  {
    seq(|s|, i requires 0 <= i < |s| => s[i].value)
  }

  /** The sampling loop; the fallback checks the reference row first. */
  function Sampling(mx: Matrix, years: Option<seq<real>>, month: int, day: int): Result<seq<Sample>>
  {
    if |mx| == 0 then Err(InvalidMatrix)
    else if ReferenceFails(years, mx, month, day) then Err(InvalidDate)
    else Ok(TrendSamples(mx, years, month, day, ColumnCount(mx)))
  }

  // ---------------------------------------------------------------------
  // Least squares
  // ---------------------------------------------------------------------

  /** The first k terms of sum a[i] * b[i]: the loops' `Sxx += dx * dx`,
      `Sxy += dx * dy` and `SSE += e * e`. */
  function SumProd(a: seq<real>, b: seq<real>, k: nat): real
    requires k <= |a| && k <= |b|
  {
    if k == 0 then 0.0 else SumProd(a, b, k - 1) + a[k - 1] * b[k - 1]
  }

  /** `s[i] - m` for each i. */
  function Dev(s: seq<real>, m: real): (d: seq<real>)
    ensures |d| == |s| && forall i :: 0 <= i < |s| ==> d[i] == s[i] - m
  {
    seq(|s|, i requires 0 <= i < |s| => s[i] - m)
  }

  /** `ys[i] - (intercept + slope * xs[i])` for each i. */
  function Residuals(xs: seq<real>, ys: seq<real>, intercept: real, slope: real): (e: seq<real>)
    requires |xs| == |ys|
    ensures |e| == |xs| && forall i :: 0 <= i < |xs| ==> e[i] == ys[i] - (intercept + slope * xs[i])
  {
    seq(|xs|, i requires 0 <= i < |xs| => ys[i] - (intercept + slope * xs[i]))
  }

  /** The sums the fit needs, for samples with n >= 1. */
  datatype Moments = Moments(xmean: real, ymean: real, sxx: real, sxy: real)

  function MomentsOf(xs: seq<real>, ys: seq<real>): Moments
    requires |xs| == |ys| > 0
  {
    var xm := Mean(xs).val;
    var ym := Mean(ys).val;
    Moments(xm, ym, SumProd(Dev(xs, xm), Dev(xs, xm), |xs|), SumProd(Dev(xs, xm), Dev(ys, ym), |xs|))
  }

  /** `{ n, slope_per_year, slope_per_decade, intercept, r2, p_value }`.
      With all years equal (Sxx = 0) the JavaScript arithmetic gives NaN. */
  datatype TrendFit = TrendFit(
    n: nat,
    slopePerYear: Number,
    slopePerDecade: Number,
    intercept: Number,
    r2: Number,
    pValue: Number)

  /** `SST`: the spread of the values about their mean. */
  function TotalSquares(ys: seq<real>, ymean: real): real
  {
    SumProd(Dev(ys, ymean), Dev(ys, ymean), |ys|)
  }

  /** `Sxy / Sxx`. */
  function Slope(m: Moments): real
    requires m.sxx != 0.0
  {
    m.sxy / m.sxx
  }

  /** `ymean - slope * xmean`: the line passes through the means. */
  function Intercept(m: Moments): real
    requires m.sxx != 0.0
  {
    m.ymean - Slope(m) * m.xmean
  }

  /** `SSE` about the fitted line. */
  function ResidualSquares(xs: seq<real>, ys: seq<real>, m: Moments): real
    requires |xs| == |ys| && m.sxx != 0.0
  {
    var e := Residuals(xs, ys, Intercept(m), Slope(m));
    SumProd(e, e, |xs|)
  }

  /** The reported object once the sums are known, with the normal CDF `phi`
      supplied: sigma^2 = SSE / max(1, n - 2), se = sqrt(sigma^2 / Sxx),
      t = slope / (se || 1e-12), p = 2 (1 - phi(|t|)), R^2 = 1 - SSE / SST
      (0 when SST = 0). */
  function Summary(n: nat, m: Moments, sst: real, sse: real, sqrt: real -> real, phi: real -> real): TrendFit
    requires m.sxx != 0.0
  {
    var slope := Slope(m);
    var sigma2 := sse / (if n - 2 >= 1 then n - 2 else 1) as real;
    var se := sqrt(sigma2 / m.sxx);
    var t := slope / (if se == 0.0 then 0.000000000001 else se);
    var tAbs := if t < 0.0 then -t else t;
    TrendFit(n, Num(slope), Num(slope * 10.0), Num(Intercept(m)),
             Num(if sst == 0.0 then 0.0 else 1.0 - sse / sst), Num(2.0 * (1.0 - phi(tAbs))))
  }

  /** All sample years equal: Sxx = 0 and every division by it gives NaN;
      R^2 is still 0 when the values do not vary either. */
  function Degenerate(n: nat, sst: real): TrendFit
  {
    TrendFit(n, NaN, NaN, NaN, if sst == 0.0 then Num(0.0) else NaN, NaN)
  }

  /** The fit of getTrendForDay with the normal CDF `phi` supplied. */
  function Fitted(xs: seq<real>, ys: seq<real>, sqrt: real -> real, phi: real -> real): TrendFit
    requires |xs| == |ys| > 0
  {
    var m := MomentsOf(xs, ys);
    var sst := TotalSquares(ys, m.ymean);
    if m.sxx == 0.0 then Degenerate(|xs|, sst)
    else Summary(|xs|, m, sst, ResidualSquares(xs, ys, m), sqrt, phi)
  }

  /** The intended getTrendForDay: null below three samples, otherwise the fit. */
  function TrendForDay(mx: Matrix, years: Option<seq<real>>, month: int, day: int,
                       sqrt: real -> real, phi: real -> real): Result<Option<TrendFit>>
  {
    match Sampling(mx, years, month, day)
    case Err(e) => Err(e)
    case Ok(s) =>
      if |s| < 3 then Ok(None)
      else Ok(Some(Fitted(Years(s), Values(s), sqrt, phi)))
  }

  /** getTrendForDay as written: the p-value's `Math.erf` throws a
      TypeError once three samples are found. */
  function TrendAsWritten(mx: Matrix, years: Option<seq<real>>, month: int, day: int): Result<Option<TrendFit>>
  {
    match Sampling(mx, years, month, day)
    case Err(e) => Err(e)
    case Ok(s) => if |s| < 3 then Ok(None) else Err(ErfMissing)
  }

  // ---------------------------------------------------------------------
  // The loops
  // ---------------------------------------------------------------------

  method CollectSamples(mx: Matrix, years: Option<seq<real>>, month: int, day: int)
    returns (r: Result<seq<Sample>>)
    ensures r == Sampling(mx, years, month, day)
  {
    if |mx| == 0 {
      return Err(InvalidMatrix);
    }
    var aligned := years.Some? && |years.value| == ColumnCount(mx);
    var refDoy := ReferenceRow(month, day);
    if !aligned && !(0 <= refDoy < |mx|) {
      return Err(InvalidDate);
    }
    var samples: seq<Sample> := [];
    var yi := 0;
    while yi < ColumnCount(mx)
      invariant 0 <= yi <= ColumnCount(mx)
      invariant samples == TrendSamples(mx, years, month, day, yi)
    {
      var doy := refDoy;
      var y := yi as real;
      if aligned {
        y := years.value[yi];
        doy := DayOfYearIndex(Trunc(y), month, day);
      }
      if 0 <= doy < |mx| && yi < |mx[doy]| && mx[doy][yi].Some? {
        samples := samples + [Sample(y, mx[doy][yi].value)];
      }
      yi := yi + 1;
    }
    return Ok(samples);
  }

  lemma SumProdStep(a: seq<real>, b: seq<real>, k: nat)
    requires k < |a| && k < |b|
    ensures SumProd(a, b, k + 1) == SumProd(a, b, k) + a[k] * b[k]
  {
  }

  /** `for (i...) { dx = xs[i] - xmean; dy = ys[i] - ymean; Sxx += dx*dx; Sxy += dx*dy }`. */
  method CrossSums(xs: seq<real>, ys: seq<real>, xmean: real, ymean: real) returns (sxx: real, sxy: real)
    requires |xs| == |ys|
    ensures sxx == SumProd(Dev(xs, xmean), Dev(xs, xmean), |xs|)
    ensures sxy == SumProd(Dev(xs, xmean), Dev(ys, ymean), |xs|)
  {
    ghost var dx := Dev(xs, xmean);
    ghost var dy := Dev(ys, ymean);
    sxx, sxy := 0.0, 0.0;
    var i := 0;
    while i < |xs|
      invariant 0 <= i <= |xs|
      invariant sxx == SumProd(dx, dx, i)
      invariant sxy == SumProd(dx, dy, i)
    {
      SumProdStep(dx, dx, i);
      SumProdStep(dx, dy, i);
      var dxi := xs[i] - xmean;
      var dyi := ys[i] - ymean;
      sxx := sxx + dxi * dxi;
      sxy := sxy + dxi * dyi;
      i := i + 1;
    }
  }

  /** `for (i...) { pred = intercept + slope * xs[i]; e = ys[i] - pred; SSE += e*e }`. */
  method ResidualSum(xs: seq<real>, ys: seq<real>, intercept: real, slope: real) returns (sse: real)
    requires |xs| == |ys|
    ensures var e := Residuals(xs, ys, intercept, slope); sse == SumProd(e, e, |xs|)
  {
    ghost var e := Residuals(xs, ys, intercept, slope);
    sse := 0.0;
    var i := 0;
    while i < |xs|
      invariant 0 <= i <= |xs|
      invariant sse == SumProd(e, e, i)
    {
      SumProdStep(e, e, i);
      var pred := intercept + slope * xs[i];
      var ei := ys[i] - pred;
      sse := sse + ei * ei;
      i := i + 1;
    }
  }

  /** The fit itself, with `phi` supplied. */
  method Fit(xs: seq<real>, ys: seq<real>, sqrt: real -> real, phi: real -> real) returns (f: TrendFit)
    requires |xs| == |ys| > 0
    ensures f == Fitted(xs, ys, sqrt, phi)
  {
    var n := |xs|;
    var xmean := Mean(xs).val;
    var ymean := Mean(ys).val;
    var sxx, sxy := CrossSums(xs, ys, xmean, ymean);
    var m := Moments(xmean, ymean, sxx, sxy);
    assert m == MomentsOf(xs, ys);
    var sst := TotalSquares(ys, ymean);
    if sxx == 0.0 {
      return Degenerate(n, sst);
    }
    var slope := sxy / sxx;
    var intercept := ymean - slope * xmean;
    assert slope == Slope(m) && intercept == Intercept(m);
    var sse := ResidualSum(xs, ys, intercept, slope);
    assert sse == ResidualSquares(xs, ys, m);
    return Summary(n, m, sst, sse, sqrt, phi);
  }

  method GetTrendForDay(mx: Matrix, years: Option<seq<real>>, month: int, day: int,
                        sqrt: real -> real, phi: real -> real)
    returns (r: Result<Option<TrendFit>>)
    ensures r == TrendForDay(mx, years, month, day, sqrt, phi)
  {
    var sampled := CollectSamples(mx, years, month, day);
    if sampled.Err? {
      return Err(sampled.error);
    }
    var samples := sampled.value;
    if |samples| < 3 {
      return Ok(None);
    }
    var f := Fit(Years(samples), Values(samples), sqrt, phi);
    return Ok(Some(f));
  }

  method GetTrendForDayAsWritten(mx: Matrix, years: Option<seq<real>>, month: int, day: int)
    returns (r: Result<Option<TrendFit>>)
    ensures r == TrendAsWritten(mx, years, month, day)
  {
    var sampled := CollectSamples(mx, years, month, day);
    if sampled.Err? {
      return Err(sampled.error);
    }
    if |sampled.value| < 3 {
      return Ok(None);
    }
    return Err(ErfMissing);
  }

  // ---------------------------------------------------------------------
  // Properties
  // ---------------------------------------------------------------------

  /** Fewer than three samples give null; otherwise the as-written function
      throws where the intended one returns a fit; both raise the same
      input errors. */
  lemma AsWrittenAgainstIntended(mx: Matrix, years: Option<seq<real>>, month: int, day: int,
                                 sqrt: real -> real, phi: real -> real)
    requires Sampling(mx, years, month, day).Ok?
    ensures var n := |Sampling(mx, years, month, day).value|;
      && (n < 3 ==> TrendAsWritten(mx, years, month, day) == Ok(None) == TrendForDay(mx, years, month, day, sqrt, phi))
      && (n >= 3 ==> (TrendAsWritten(mx, years, month, day) == Err(ErfMissing)
                      && TrendForDay(mx, years, month, day, sqrt, phi).value.Some?
                      && TrendForDay(mx, years, month, day, sqrt, phi).value.value.n == n))
  {
  }

  /** Three readings of one row in the fallback: the as-written function
      throws on a perfectly ordinary input. */
  lemma ErfCounterexample(sqrt: real -> real, phi: real -> real)
    ensures TrendAsWritten([[Some(1.0), Some(2.0), Some(3.0)]], None, 1, 1) == Err(ErfMissing)
    ensures TrendForDay([[Some(1.0), Some(2.0), Some(3.0)]], None, 1, 1, sqrt, phi).Ok?
  {
    var mx: Matrix := [[Some(1.0), Some(2.0), Some(3.0)]];
    IndexOfCalendarDate(REF_YEAR, 1, 1);
    assert ReferenceRow(1, 1) == 0;
    assert |TrendSamples(mx, None, 1, 1, 3)| == 3;
  }

  /** The reported numbers are consistent: the line passes through the
      means, slope_per_decade is ten times slope_per_year, R^2 is 0 when the
      values do not vary, and the slope is NaN exactly when all years agree. */
  lemma Bookkeeping(xs: seq<real>, ys: seq<real>, sqrt: real -> real, phi: real -> real)
    requires |xs| == |ys| > 0
    ensures var f := Fitted(xs, ys, sqrt, phi); var m := MomentsOf(xs, ys);
      && f.n == |xs|
      && (m.sxx != 0.0 ==> (f.slopePerYear == Num(m.sxy / m.sxx)
                            && f.intercept == Num(m.ymean - f.slopePerYear.val * m.xmean)
                            && f.slopePerDecade == Num(10.0 * f.slopePerYear.val)))
      && (m.sxx == 0.0 <==> f.slopePerYear.NaN?)
      && (TotalSquares(ys, m.ymean) == 0.0 ==> f.r2 == Num(0.0))
  {
  }

  /** Sum of an affine image: ys[i] = a + b * xs[i] gives Sum(ys) = n a + b Sum(xs). */
  lemma {:induction false} SumAffine(xs: seq<real>, ys: seq<real>, a: real, b: real)
    requires |xs| == |ys|
    requires forall i :: 0 <= i < |xs| ==> ys[i] == a + b * xs[i]
    ensures Sum(ys) == |ys| as real * a + b * Sum(xs)
  {
    if |xs| > 0 {
      var k := |xs| - 1;
      SumAffine(xs[..k], ys[..k], a, b);
    }
  }

  /** Proportional deviations scale the cross sum. */
  lemma {:induction false} SumProdScaled(dx: seq<real>, dy: seq<real>, b: real, k: nat)
    requires k <= |dx| && k <= |dy|
    requires forall i :: 0 <= i < k ==> dy[i] == b * dx[i]
    ensures SumProd(dx, dy, k) == b * SumProd(dx, dx, k)
  {
    if k > 0 {
      SumProdScaled(dx, dy, b, k - 1);
    }
  }

  /** A sum of squares of zeros is zero. */
  lemma {:induction false} SumProdZero(e: seq<real>, k: nat)
    requires k <= |e|
    requires forall i :: 0 <= i < k ==> e[i] == 0.0
    ensures SumProd(e, e, k) == 0.0
  {
    if k > 0 {
      SumProdZero(e, k - 1);
    }
  }

  /** The mean of an affine image is the affine image of the mean. */
  lemma MeanAffine(xs: seq<real>, ys: seq<real>, a: real, b: real)
    requires |xs| == |ys| > 0
    requires forall i :: 0 <= i < |xs| ==> ys[i] == a + b * xs[i]
    ensures Mean(ys).val == a + b * Mean(xs).val
  {
    SumAffine(xs, ys, a, b);
    var nr := |xs| as real;
    assert Mean(ys).val * nr == nr * a + b * (Mean(xs).val * nr);
    assert Mean(ys).val * nr == (a + b * Mean(xs).val) * nr;
  }

  /** On a line the deviations are proportional, so Sxy = b Sxx. */
  lemma CrossSumOfLine(xs: seq<real>, ys: seq<real>, a: real, b: real)
    requires |xs| == |ys| > 0
    requires forall i :: 0 <= i < |xs| ==> ys[i] == a + b * xs[i]
    ensures MomentsOf(xs, ys).sxy == b * MomentsOf(xs, ys).sxx
    ensures MomentsOf(xs, ys).ymean == a + b * MomentsOf(xs, ys).xmean
  {
    var m := MomentsOf(xs, ys);
    MeanAffine(xs, ys, a, b);
    var dx := Dev(xs, m.xmean);
    var dy := Dev(ys, m.ymean);
    forall i | 0 <= i < |xs|
      ensures dy[i] == b * dx[i]
    {
      assert dy[i] == (a + b * xs[i]) - (a + b * m.xmean);
    }
    SumProdScaled(dx, dy, b, |xs|);
  }

  /** Samples on an exact line value = a + b * year (with years not all
      equal) are fitted exactly: slope b, intercept a, no residual, and an
      R^2 of 1 unless the values are constant. */
  lemma ExactLineRecovered(xs: seq<real>, ys: seq<real>, a: real, b: real, sqrt: real -> real, phi: real -> real)
    requires |xs| == |ys| > 0
    requires forall i :: 0 <= i < |xs| ==> ys[i] == a + b * xs[i]
    requires MomentsOf(xs, ys).sxx != 0.0
    ensures Fitted(xs, ys, sqrt, phi).slopePerYear == Num(b)
    ensures Fitted(xs, ys, sqrt, phi).intercept == Num(a)
    ensures Fitted(xs, ys, sqrt, phi).slopePerDecade == Num(10.0 * b)
    ensures ResidualSquares(xs, ys, MomentsOf(xs, ys)) == 0.0
    ensures TotalSquares(ys, MomentsOf(xs, ys).ymean) != 0.0 ==> Fitted(xs, ys, sqrt, phi).r2 == Num(1.0)
  {
    var m := MomentsOf(xs, ys);
    CrossSumOfLine(xs, ys, a, b);
    assert Slope(m) == b;
    assert Intercept(m) == a;
    var e := Residuals(xs, ys, a, b);
    SumProdZero(e, |xs|);
    var sst := TotalSquares(ys, m.ymean);
    assert Fitted(xs, ys, sqrt, phi) == Summary(|xs|, m, sst, 0.0, sqrt, phi);
  }

  /** In the fallback the sample years are column indices: integers,
      strictly increasing. */
  lemma {:induction false} FallbackYearsAreIndices(mx: Matrix, years: Option<seq<real>>, month: int, day: int, n: nat)
    requires n <= ColumnCount(mx)
    requires !Aligned(years, mx)
    ensures forall i :: 0 <= i < |TrendSamples(mx, years, month, day, n)| ==>
      IsInteger(TrendSamples(mx, years, month, day, n)[i].year)
      && 0.0 <= TrendSamples(mx, years, month, day, n)[i].year < n as real
    ensures forall i, j :: 0 <= i < j < |TrendSamples(mx, years, month, day, n)| ==>
      TrendSamples(mx, years, month, day, n)[i].year < TrendSamples(mx, years, month, day, n)[j].year
  {
    if n > 0 {
      FallbackYearsAreIndices(mx, years, month, day, n - 1);
      var prev := TrendSamples(mx, years, month, day, n - 1);
      assert forall i :: 0 <= i < |prev| ==> prev[i].year < (n - 1) as real;
    }
  }
}
