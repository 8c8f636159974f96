/** The estimator front end of spencer.js: the precipitation dispatch
    between the threshold and parametric estimators, and the single-day
    temperature and wind estimators (exceedance fraction and distributional
    prediction). */
module Spencer {
  import opened Common
  import opened Readings
  import TE = ThresholdEstimator
  import PE = ParametricEstimator

  // ---------------------------------------------------------------------
  // getPValue: dispatch by method name
  // ---------------------------------------------------------------------

  /** `{ method, threshold, window }`; None stands for an absent option. */
  datatype PValueOptions = PValueOptions(methodName: Option<string>, threshold: Option<real>, window: Option<int>)

  /** `options.threshold !== undefined ? options.threshold : 1.0`. */
  function ThresholdOr(o: Option<real>, default: real): real
  {
    if o.Some? then o.value else default
  }

  /** `options.window || 0`. */
  function WindowOf(o: Option<int>): int
  {
    if o.Some? then o.value else 0
  }

  /** `(options.method || 'threshold') === 'parametric'`. */
  predicate IsParametric(o: Option<string>)
  {
    o.Some? && o.value == "parametric"
  }

  /** The `prob` field of the estimator `getPValue` selects. */
  function PValue(mx: Matrix, years: Option<seq<real>>, month: int, day: int, opts: PValueOptions,
                  ln: real -> real, sqrt: real -> real, phi: real -> real): Result<Number>
  {
    var t := ThresholdOr(opts.threshold, 1.0);
    var w := WindowOf(opts.window);
    if IsParametric(opts.methodName) then
      match PE.Parametric(mx, years, month, day, PE.Options(t, w, PE.DEFAULTS.minPos), ln, sqrt, phi)
      case Err(e) => Err(e)
      case Ok(est) => Ok(Num(est.prob))
    else
      match TE.Threshold(mx, years, month, day, TE.Options(t, w, TE.DEFAULTS.minCount))
      case Err(e) => Err(e)
      case Ok(est) => Ok(est.prob)
  }

  method GetPValue(mx: Matrix, years: Option<seq<real>>, month: int, day: int, opts: PValueOptions,
                   ln: real -> real, sqrt: real -> real, phi: real -> real)
    returns (r: Result<Number>)
    ensures r == PValue(mx, years, month, day, opts, ln, sqrt, phi)
  {
    var t := if opts.threshold.Some? then opts.threshold.value else 1.0;
    var w := if opts.window.Some? then opts.window.value else 0;
    if opts.methodName.Some? && opts.methodName.value == "parametric" {
      var res := PE.GetPValueParametric(mx, years, month, day, PE.Options(t, w, 5), ln, sqrt, phi);
      if res.Err? {
        return Err(res.error);
      }
      return Ok(Num(res.value.prob));
    }
    var res := TE.GetPValueThreshold(mx, years, month, day, TE.Options(t, w, 1));
    if res.Err? {
      return Err(res.error);
    }
    return Ok(res.value.prob);
  }

  /** Only the exact name 'parametric' selects the parametric estimator;
      everything else, including no method, runs the threshold estimator
      with the defaults threshold 1.0, window 0 and minCount 1. */
  lemma DispatchRoutes(mx: Matrix, years: Option<seq<real>>, month: int, day: int, opts: PValueOptions,
                       ln: real -> real, sqrt: real -> real, phi: real -> real)
    ensures opts.methodName == Some("parametric") ==>
      PValue(mx, years, month, day, opts, ln, sqrt, phi) ==
        match PE.Parametric(mx, years, month, day, PE.Options(ThresholdOr(opts.threshold, 1.0), WindowOf(opts.window), 5), ln, sqrt, phi)
        case Err(e) => Err(e)
        case Ok(est) => Ok(Num(est.prob))
    ensures opts.methodName != Some("parametric") ==>
      PValue(mx, years, month, day, opts, ln, sqrt, phi) ==
        match TE.Threshold(mx, years, month, day, TE.Options(ThresholdOr(opts.threshold, 1.0), WindowOf(opts.window), 1))
        case Err(e) => Err(e)
        case Ok(est) => Ok(est.prob)
    ensures opts.threshold == None && opts.window == None && opts.methodName == None ==>
      PValue(mx, years, month, day, opts, ln, sqrt, phi) ==
        match TE.Threshold(mx, years, month, day, TE.DEFAULTS)
        case Err(e) => Err(e)
        case Ok(est) => Ok(est.prob)
  {
  }

  /** Through the threshold route the answer is always a number in [0, 1]:
      minCount is 1, so the 0 / 0 case cannot arise. */
  lemma ThresholdRouteInUnitInterval(mx: Matrix, years: Option<seq<real>>, month: int, day: int, opts: PValueOptions,
                                     ln: real -> real, sqrt: real -> real, phi: real -> real)
    requires !IsParametric(opts.methodName)
    requires PValue(mx, years, month, day, opts, ln, sqrt, phi).Ok?
    ensures var p := PValue(mx, years, month, day, opts, ln, sqrt, phi).value;
      p.Num? && 0.0 <= p.val <= 1.0
  {
    var th := TE.Options(ThresholdOr(opts.threshold, 1.0), WindowOf(opts.window), 1);
    var e := TE.Threshold(mx, years, month, day, th).value;
    TE.ProbabilityBounds(mx, years, month, day, th);
    TE.EstimatedProbability(e.validYears, e.rainyYears, th);
  }

  // ---------------------------------------------------------------------
  // getTempProbability / getWindProbability
  // ---------------------------------------------------------------------

  /** Default thresholds: 30 degrees C and 8 m/s. */
  const TEMP_THRESHOLD: real := 30.0
  const WIND_THRESHOLD: real := 8.0

  /** The readings at or above t (a non-strict comparison), in order. */
  function AtLeast(s: seq<real>, t: real): (r: seq<real>)
    ensures |r| <= |s|
  {
    if s == [] then []
    else AtLeast(s[..|s| - 1], t) + (if s[|s| - 1] >= t then [s[|s| - 1]] else [])
  }

  lemma AtLeastAppend(s: seq<real>, c: seq<real>, t: real)
    requires |c| <= 1
    ensures AtLeast(s + c, t) == AtLeast(s, t) + (if |c| == 1 && c[0] >= t then c else [])
  {
    if |c| == 1 {
      assert (s + c)[..|s + c| - 1] == s;
    } else {
      assert s + c == s;
    }
  }

  /** `valid ? count / valid : 0` over the target-day readings. */
  function Exceedance(mx: Matrix, years: Option<seq<real>>, month: int, day: int, t: real): Result<real>
  {
    if |mx| == 0 then Err(InvalidMatrix)
    else match DaySampling(mx, years, month, day)
      case Err(e) => Err(e)
      case Ok(s) => Ok(Fraction(|AtLeast(s, t)|, |s|))
  }

  /** One pass of the counting loop. */
  method CountStep(mx: Matrix, years: Option<seq<real>>, month: int, day: int, t: real, yi: nat, valid: nat, count: nat)
    returns (valid': nat, count': nat)
    requires yi < ColumnCount(mx)
    requires valid == |DaySamples(mx, years, month, day, yi)|
    requires count == |AtLeast(DaySamples(mx, years, month, day, yi), t)|
    ensures valid' == |DaySamples(mx, years, month, day, yi + 1)|
    ensures count' == |AtLeast(DaySamples(mx, years, month, day, yi + 1), t)|
  {
    var c := ReadDay(mx, years, month, day, yi);
    DaySamplesStep(mx, years, month, day, yi);
    AtLeastAppend(DaySamples(mx, years, month, day, yi), CellSeq(c), t);
    valid', count' := valid, count;
    if c.Some? {
      valid' := valid' + 1;
      if c.value >= t {
        count' := count' + 1;
      }
    }
  }

  /** The loop shared by getTempProbability and getWindProbability. */
  method ExceedanceFraction(mx: Matrix, years: Option<seq<real>>, month: int, day: int, t: real)
    returns (r: Result<real>)
    ensures r == Exceedance(mx, years, month, day, t)
  {
    if |mx| == 0 {
      return Err(InvalidMatrix);
    }
    var aligned := years.Some? && |years.value| == ColumnCount(mx);
    var refDoy := ReferenceRow(month, day);
    if !aligned && !(0 <= refDoy < |mx|) {
      return Err(InvalidDate);
    }
    var valid, count := 0, 0;
    var yi := 0;
    while yi < ColumnCount(mx)
      invariant 0 <= yi <= ColumnCount(mx)
      invariant valid == |DaySamples(mx, years, month, day, yi)|
      invariant count == |AtLeast(DaySamples(mx, years, month, day, yi), t)|
    {
      valid, count := CountStep(mx, years, month, day, t, yi, valid, count);
      yi := yi + 1;
    }
    return Ok(Fraction(count, valid));
  }

  method GetTempProbability(temp: Matrix, years: Option<seq<real>>, month: int, day: int, threshold: Option<real>)
    returns (r: Result<real>)
    ensures r == Exceedance(temp, years, month, day, ThresholdOr(threshold, TEMP_THRESHOLD))
  {
    r := ExceedanceFraction(temp, years, month, day, if threshold.Some? then threshold.value else 30.0);
  }

  method GetWindProbability(wind: Matrix, years: Option<seq<real>>, month: int, day: int, threshold: Option<real>)
    returns (r: Result<real>)
    ensures r == Exceedance(wind, years, month, day, ThresholdOr(threshold, WIND_THRESHOLD))
  {
    r := ExceedanceFraction(wind, years, month, day, if threshold.Some? then threshold.value else 8.0);
  }

  /** Every counted reading is a valid one. */
  lemma {:induction false} AtLeastIsSubsequence(s: seq<real>, t: real)
    ensures IsSubsequence(AtLeast(s, t), s)
  {
    if s != [] {
      var init := s[..|s| - 1];
      var last := s[|s| - 1];
      AtLeastIsSubsequence(init, t);
      SubsequenceStep(AtLeast(init, t), init, last, last >= t);
      AtLeastAppend(init, [last], t);
      assert init + [last] == s;
    }
  }

  /** Every counted reading reaches the threshold. */
  lemma {:induction false} AtLeastReaches(s: seq<real>, t: real)
    ensures forall i :: 0 <= i < |AtLeast(s, t)| ==> AtLeast(s, t)[i] >= t
  {
    if s != [] {
      AtLeastReaches(s[..|s| - 1], t);
    }
  }

  /** The exceedance fraction: count <= valid, the answer is count / valid
      in [0, 1], 0 with no valid reading, and a reading equal to the
      threshold is counted. */
  lemma ExceedanceBounds(mx: Matrix, years: Option<seq<real>>, month: int, day: int, t: real)
    requires Exceedance(mx, years, month, day, t).Ok?
    ensures var s := DaySamples(mx, years, month, day, ColumnCount(mx));
      var p := Exceedance(mx, years, month, day, t).value;
      && |AtLeast(s, t)| <= |s|
      && p == Fraction(|AtLeast(s, t)|, |s|)
      && 0.0 <= p <= 1.0
      && (|s| == 0 ==> p == 0.0)
      && ((forall i :: 0 <= i < |s| ==> s[i] >= t) ==> p == (if |s| == 0 then 0.0 else 1.0))
  {
    var s := DaySamples(mx, years, month, day, ColumnCount(mx));
    assert Exceedance(mx, years, month, day, t) == Ok(Fraction(|AtLeast(s, t)|, |s|));
    AtLeastAll(s, t);
  }

  /** When every reading reaches t, all are counted. */
  lemma {:induction false} AtLeastAll(s: seq<real>, t: real)
    ensures (forall i :: 0 <= i < |s| ==> s[i] >= t) ==> AtLeast(s, t) == s
  {
    if s != [] {
      AtLeastAll(s[..|s| - 1], t);
      assert s == s[..|s| - 1] + [s[|s| - 1]];
    }
  }

  // ---------------------------------------------------------------------
  // getTempPrediction / getWindPrediction
  // ---------------------------------------------------------------------

  /** Default tolerances: 2.0 degrees C and 1.0 m/s. */
  const TEMP_TOLERANCE: real := 2.0
  const WIND_TOLERANCE: real := 1.0

  /** `{ predicted, std, within_tol_prob, n, samples }`; the first three are
      null, and samples absent, when no reading was found. */
  datatype Prediction = Prediction(
    predicted: Option<real>,
    std: Option<real>,
    withinTolProb: Option<real>,
    n: nat,
    samples: Option<seq<real>>)

  function Abs(x: real): real
  {
    if x < 0.0 then -x else x
  }

  /** The readings within tol of mu, in order. */
  function Within(s: seq<real>, mu: real, tol: real): (r: seq<real>)
    ensures |r| <= |s|
  {
    if s == [] then []
    else Within(s[..|s| - 1], mu, tol) + (if Abs(s[|s| - 1] - mu) <= tol then [s[|s| - 1]] else [])
  }

  /** The sample variance with the denominator `Math.max(1, n - 1)`. */
  function SampleVariance(s: seq<real>, mu: real): (v: real)
    ensures v >= 0.0
    ensures |s| == 0 || (|s| == 1 && s[0] == mu) ==> v == 0.0
    ensures |s| >= 2 ==> v * (|s| - 1) as real == SumSqDev(s, mu)
  {
    SumSqDevNonNegative(s, mu);
    assert |s| == 1 ==> s[..0] == [];
    SumSqDev(s, mu) / (if |s| - 1 >= 1 then |s| - 1 else 1) as real
  }

  /** The prediction built from the collected readings. */
  function Predicted(vals: seq<real>, tol: real, sqrt: real -> real): Prediction
  {
    var n := |vals|;
    if n == 0 then Prediction(None, None, None, 0, None)
    else
      var mean := Mean(vals).val;
      Prediction(Some(mean), Some(sqrt(SampleVariance(vals, mean))), Some(Fraction(|Within(vals, mean, tol)|, n)), n, Some(vals))
  }

  function Forecast(mx: Matrix, years: Option<seq<real>>, month: int, day: int, tol: real, sqrt: real -> real): Result<Prediction>
  {
    if |mx| == 0 then Err(InvalidMatrix)
    else match DaySampling(mx, years, month, day)
      case Err(e) => Err(e)
      case Ok(vals) => Ok(Predicted(vals, tol, sqrt))
  }

  /** The collection and summary shared by getTempPrediction and getWindPrediction. */
  method Predict(mx: Matrix, years: Option<seq<real>>, month: int, day: int, tol: real, sqrt: real -> real)
    returns (r: Result<Prediction>)
    ensures r == Forecast(mx, years, month, day, tol, sqrt)
  {
    if |mx| == 0 {
      return Err(InvalidMatrix);
    }
    var sampled := CollectDaySamples(mx, years, month, day);
    if sampled.Err? {
      return Err(sampled.error);
    }
    var vals := sampled.value;
    var n := |vals|;
    if n == 0 {
      return Ok(Prediction(None, None, None, 0, None));
    }
    var mean := Mean(vals).val;
    var s2 := SampleVariance(vals, mean);
    var within := |Within(vals, mean, tol)|;
    return Ok(Prediction(Some(mean), Some(sqrt(s2)), Some(Fraction(within, n)), n, Some(vals)));
  }

  method GetTempPrediction(temp: Matrix, years: Option<seq<real>>, month: int, day: int, tolerance: Option<real>, sqrt: real -> real)
    returns (r: Result<Prediction>)
    ensures r == Forecast(temp, years, month, day, ThresholdOr(tolerance, TEMP_TOLERANCE), sqrt)
  {
    r := Predict(temp, years, month, day, if tolerance.Some? then tolerance.value else 2.0, sqrt);
  }

  method GetWindPrediction(wind: Matrix, years: Option<seq<real>>, month: int, day: int, tolerance: Option<real>, sqrt: real -> real)
    returns (r: Result<Prediction>)
    ensures r == Forecast(wind, years, month, day, ThresholdOr(tolerance, WIND_TOLERANCE), sqrt)
  {
    r := Predict(wind, years, month, day, if tolerance.Some? then tolerance.value else 1.0, sqrt);
  }

  /** With no reading every summary field is null and n is 0; otherwise the
      prediction is the mean of the samples, n is their count, the variance
      is non-negative (0 for a single sample) and the within-tolerance share
      lies in [0, 1]. */
  lemma PredictionShape(vals: seq<real>, tol: real, sqrt: real -> real)
    ensures var p := Predicted(vals, tol, sqrt);
      && p.n == |vals|
      && (|vals| == 0 <==> p.predicted.None?)
      && (|vals| == 0 ==> p.std.None? && p.withinTolProb.None? && p.samples.None?)
      && (|vals| > 0 ==> p.predicted.value * |vals| as real == Sum(vals) && p.samples == Some(vals))
      && (|vals| > 0 ==> p.withinTolProb.value == Fraction(|Within(vals, p.predicted.value, tol)|, |vals|))
      && (|vals| > 0 ==> 0.0 <= p.withinTolProb.value <= 1.0)
      && (|vals| == 1 ==> p.std == Some(sqrt(0.0)))
  {
    if |vals| == 1 {
      assert vals[..0] == [];
    }
  }

  /** Every sample within tol of the mean counts: a constant sample has
      share 1 for any non-negative tolerance. */
  lemma {:induction false} WithinAll(s: seq<real>, mu: real, tol: real)
    requires forall i :: 0 <= i < |s| ==> Abs(s[i] - mu) <= tol
    ensures Within(s, mu, tol) == s
  {
    if s != [] {
      WithinAll(s[..|s| - 1], mu, tol);
      assert s == s[..|s| - 1] + [s[|s| - 1]];
    }
  }

  lemma ConstantSamplePrediction(vals: seq<real>, c: real, tol: real, sqrt: real -> real)
    requires |vals| > 0 && tol >= 0.0
    requires forall i :: 0 <= i < |vals| ==> vals[i] == c
    ensures var p := Predicted(vals, tol, sqrt);
      p.predicted == Some(c) && p.std == Some(sqrt(0.0)) && p.withinTolProb == Some(1.0)
  {
    SumOfConstant(vals, c);
    MeanOfConstant(vals, c);
    WithinAll(vals, c, tol);
  }
}
