/** The supervised dataset of the machine-learning path (`buildDataset` of
    ml_features.js): one row per year whose target day, target-day
    temperature and precipitation and `lags` preceding days of
    precipitation all exist. The climate fetch is a parameter (its result,
    a Climate value), and so is the cyclical day encoding (`sin` and `cos`
    of 2 pi (doy + 1) / 365). */
module Features {
  import opened Common
  import opened Calendar
  import opened Readings

  /** The row count assumed for the fetched matrices. */
  const N_DAYS: int := 366
  /** `opts.lags ?? 3` and `opts.threshold ?? 0.1`. */
  const DEFAULT_LAGS: int := 3
  const DEFAULT_THRESHOLD: real := 0.1

  /** What `fetchData` returns: two day-by-year matrices and the years. */
  datatype Climate = Climate(temp: Matrix, precip: Matrix, years: seq<int>)

  datatype FeatureOptions = FeatureOptions(lags: Option<int>, threshold: Option<real>)

  /** The arguments once the defaults are applied. */
  datatype Request = Request(longitude: real, latitude: real, month: int, day: int, lags: int, threshold: real)

  function ResolveRequest(longitude: real, latitude: real, month: int, day: int, opts: FeatureOptions): (q: Request)
    ensures q.lags == (if opts.lags.Some? then opts.lags.value else DEFAULT_LAGS)
    ensures q.threshold == (if opts.threshold.Some? then opts.threshold.value else DEFAULT_THRESHOLD)
    ensures q.longitude == longitude && q.latitude == latitude && q.month == month && q.day == day
  {
    Request(longitude, latitude, month, day,
            match opts.lags case Some(l) => l case None => DEFAULT_LAGS,
            match opts.threshold case Some(t) => t case None => DEFAULT_THRESHOLD)
  }

  /** `meta`: the accepted years and the request echoed back. */
  datatype Meta = Meta(years: seq<int>, longitude: real, latitude: real, month: int, day: int, lags: int, threshold: real)

  /** `{ X, y, meta }`. */
  datatype Dataset = Dataset(x: seq<seq<real>>, y: seq<int>, meta: Meta)

  /** One accepted year: its feature row, its label and the year itself. */
  datatype Sample = Sample(row: seq<real>, target: int, year: int)

  /** How many times `for (l = 1; l <= lags; l++)` runs. */
  function LagCount(lags: int): nat
  {
    if lags < 0 then 0 else lags
  }

  /** `precip[doy - l][yi]` for the lag day l; None when that day is before
      January 1 or has no reading. */
  function LagCell(precip: Matrix, doy: int, yi: nat, l: int): (c: Cell)
    ensures c.Some? ==> doy - l >= 0 && c == ReadingAt(precip, doy - l, yi)
  {
    if doy - l < 0 then None else ReadingAt(precip, doy - l, yi)
  }

  /** The precipitation of days doy - 1, ..., doy - k of column yi, or None
      as soon as one of them is before January 1 or missing. */
  function LagValues(precip: Matrix, doy: int, yi: nat, k: nat): (r: Option<seq<real>>)
    ensures r.Some? ==> |r.value| == k
  {
    if k == 0 then Some([])
    else match LagValues(precip, doy, yi, k - 1)
      case None => None
      case Some(vs) =>
        match LagCell(precip, doy, yi, k)
        case None => None
        case Some(v) => Some(vs + [v])
  }

  /** The row of year index yi, if that year is kept. */
  function YearSample(c: Climate, q: Request, sinDay: int -> real, cosDay: int -> real, yi: nat): (r: Option<Sample>)
    requires yi < |c.years|
    ensures r.Some? ==> r.value.year == c.years[yi]
  {
    var doy := DayOfYearIndex(c.years[yi], q.month, q.day);
    if doy < 0 || doy >= N_DAYS then None
    else
      var t := ReadingAt(c.temp, doy, yi);
      var p := ReadingAt(c.precip, doy, yi);
      if t.None? || p.None? then None
      else match LagValues(c.precip, doy, yi, LagCount(q.lags))
        case None => None
        case Some(lagVals) =>
          Some(Sample([sinDay(doy), cosDay(doy)] + lagVals + [t.value, q.longitude, q.latitude],
                      if p.value >= q.threshold then 1 else 0,
                      c.years[yi]))
  }

  /** The samples of the first k years, in year order. */
  function Samples(c: Climate, q: Request, sinDay: int -> real, cosDay: int -> real, k: nat): (s: seq<Sample>)
    requires k <= |c.years|
    ensures |s| <= k
  {
    if k == 0 then []
    else
      var o := YearSample(c, q, sinDay, cosDay, k - 1);
      Samples(c, q, sinDay, cosDay, k - 1) + (if o.Some? then [o.value] else [])
  }

  function Rows(s: seq<Sample>): (r: seq<seq<real>>)
    ensures |r| == |s| && forall i :: 0 <= i < |s| ==> r[i] == s[i].row
  {
    seq(|s|, i requires 0 <= i < |s| => s[i].row)
  }

  function Labels(s: seq<Sample>): (r: seq<int>)
    ensures |r| == |s| && forall i :: 0 <= i < |s| ==> r[i] == s[i].target
  {
    seq(|s|, i requires 0 <= i < |s| => s[i].target)
  }

  function YearsOf(s: seq<Sample>): (r: seq<int>)
    ensures |r| == |s| && forall i :: 0 <= i < |s| ==> r[i] == s[i].year
  {
    seq(|s|, i requires 0 <= i < |s| => s[i].year)
  }

  /** What `buildDataset` returns or throws. */
  function BuildDataset(c: Climate, longitude: real, latitude: real, month: int, day: int,
                        opts: FeatureOptions, sinDay: int -> real, cosDay: int -> real): Result<Dataset>
  {
    if |c.years| == 0 then Err(NoYears)
    else
      var q := ResolveRequest(longitude, latitude, month, day, opts);
      var s := Samples(c, q, sinDay, cosDay, |c.years|);
      Ok(Dataset(Rows(s), Labels(s),
                 Meta(YearsOf(s), longitude, latitude, month, day, q.lags, q.threshold)))
  }

  // ---------------------------------------------------------------------
  // The loops
  // ---------------------------------------------------------------------

  lemma LagValuesNoneStays(precip: Matrix, doy: int, yi: nat, k: nat, n: nat)
    requires k <= n
    requires LagValues(precip, doy, yi, k).None?
    ensures LagValues(precip, doy, yi, n).None?
    decreases n - k
  {
    if k < n {
      LagValuesNoneStays(precip, doy, yi, k + 1, n);
    }
  }

  /** The lag loop, with its `ok` flag and `break`. */
  method GatherLags(precip: Matrix, doy: int, yi: nat, lags: int) returns (ok: bool, lagVals: seq<real>)
    ensures ok <==> LagValues(precip, doy, yi, LagCount(lags)).Some?
    ensures ok ==> lagVals == LagValues(precip, doy, yi, LagCount(lags)).value
  {
    lagVals := [];
    ok := true;
    var l := 1;
    while l <= lags
      invariant 1 <= l <= LagCount(lags) + 1
      invariant LagValues(precip, doy, yi, l - 1) == Some(lagVals)
    {
      var id := doy - l;
      if id < 0 {
        assert LagCell(precip, doy, yi, l).None?;
        LagValuesNoneStays(precip, doy, yi, l, LagCount(lags));
        ok := false;
        break;
      }
      var v := ReadingAt(precip, id, yi);
      if v.None? {
        assert LagCell(precip, doy, yi, l).None?;
        LagValuesNoneStays(precip, doy, yi, l, LagCount(lags));
        ok := false;
        break;
      }
      lagVals := lagVals + [v.value];
      l := l + 1;
    }
  }

  /** The body of the year loop: whether year yi is kept, and its row. */
  method ReadYear(c: Climate, q: Request, sinDay: int -> real, cosDay: int -> real, yi: nat) returns (o: Option<Sample>)
    requires yi < |c.years|
    ensures o == YearSample(c, q, sinDay, cosDay, yi)
  {
    var y := c.years[yi];
    var doy := DayOfYearIndex(y, q.month, q.day);
    if doy < 0 || doy >= N_DAYS {
      return None;
    }
    var curTemp := ReadingAt(c.temp, doy, yi);
    var curPrecip := ReadingAt(c.precip, doy, yi);
    if curTemp.None? || curPrecip.None? {
      return None;
    }
    var ok, lagVals := GatherLags(c.precip, doy, yi, q.lags);
    if !ok {
      return None;
    }
    var row := [sinDay(doy), cosDay(doy)];
    row := row + lagVals;
    row := row + [curTemp.value];
    row := row + [q.longitude, q.latitude];
    assert row == [sinDay(doy), cosDay(doy)] + lagVals + [curTemp.value, q.longitude, q.latitude];
    var target := if curPrecip.value >= q.threshold then 1 else 0;
    return Some(Sample(row, target, y));
  }

  /** One pass of the year loop: three pushes, or none. */
  method AddYear(c: Climate, q: Request, sinDay: int -> real, cosDay: int -> real, yi: nat,
                 xs: seq<seq<real>>, ys: seq<int>, ms: seq<int>)
    returns (xs': seq<seq<real>>, ys': seq<int>, ms': seq<int>)
    requires yi < |c.years|
    requires xs == Rows(Samples(c, q, sinDay, cosDay, yi))
    requires ys == Labels(Samples(c, q, sinDay, cosDay, yi))
    requires ms == YearsOf(Samples(c, q, sinDay, cosDay, yi))
    ensures xs' == Rows(Samples(c, q, sinDay, cosDay, yi + 1))
    ensures ys' == Labels(Samples(c, q, sinDay, cosDay, yi + 1))
    ensures ms' == YearsOf(Samples(c, q, sinDay, cosDay, yi + 1))
  {
    ghost var s := Samples(c, q, sinDay, cosDay, yi);
    var o := ReadYear(c, q, sinDay, cosDay, yi);
    if o.None? {
      return xs, ys, ms;
    }
    ghost var t := Samples(c, q, sinDay, cosDay, yi + 1);
    assert t == s + [o.value];
    xs', ys', ms' := xs + [o.value.row], ys + [o.value.target], ms + [o.value.year];
    assert xs' == Rows(t);
    assert ys' == Labels(t);
    assert ms' == YearsOf(t);
  }

  method BuildDatasetFrom(c: Climate, longitude: real, latitude: real, month: int, day: int,
                          opts: FeatureOptions, sinDay: int -> real, cosDay: int -> real)
    returns (r: Result<Dataset>)
    ensures r == BuildDataset(c, longitude, latitude, month, day, opts, sinDay, cosDay)
  {
    var lags := if opts.lags.Some? then opts.lags.value else DEFAULT_LAGS;
    var threshold := if opts.threshold.Some? then opts.threshold.value else DEFAULT_THRESHOLD;
    if |c.years| == 0 {
      return Err(NoYears);
    }
    var q := Request(longitude, latitude, month, day, lags, threshold);
    var samplesX: seq<seq<real>> := [];
    var samplesY: seq<int> := [];
    var metaYears: seq<int> := [];
    var yi := 0;
    while yi < |c.years|
      invariant 0 <= yi <= |c.years|
      invariant samplesX == Rows(Samples(c, q, sinDay, cosDay, yi))
      invariant samplesY == Labels(Samples(c, q, sinDay, cosDay, yi))
      invariant metaYears == YearsOf(Samples(c, q, sinDay, cosDay, yi))
    {
      samplesX, samplesY, metaYears := AddYear(c, q, sinDay, cosDay, yi, samplesX, samplesY, metaYears);
      yi := yi + 1;
    }
    return Ok(Dataset(samplesX, samplesY, Meta(metaYears, longitude, latitude, month, day, lags, threshold)));
  }

  // ---------------------------------------------------------------------
  // Properties
  // ---------------------------------------------------------------------

  /** The lag window exists exactly when each of the k preceding days is on
      or after January 1 and has a reading; its entries are those readings,
      nearest day first. */
  lemma {:induction false} LagValuesMeaning(precip: Matrix, doy: int, yi: nat, k: nat)
    ensures LagValues(precip, doy, yi, k).Some? <==> forall l :: 1 <= l <= k ==> LagCell(precip, doy, yi, l).Some?
    ensures LagValues(precip, doy, yi, k).Some? ==>
      forall i :: 0 <= i < k ==> Some(LagValues(precip, doy, yi, k).value[i]) == LagCell(precip, doy, yi, i + 1)
  {
    if k > 0 {
      LagValuesMeaning(precip, doy, yi, k - 1);
    }
  }

  /** When a year is kept: the target day lies in the 366 rows, its
      temperature and precipitation are present, and every lag day is on or
      after January 1 with a reading. */
  lemma YearKept(c: Climate, q: Request, sinDay: int -> real, cosDay: int -> real, yi: nat)
    requires yi < |c.years|
    ensures var doy := DayOfYearIndex(c.years[yi], q.month, q.day);
      YearSample(c, q, sinDay, cosDay, yi).Some? <==>
        (0 <= doy < N_DAYS
         && ReadingAt(c.temp, doy, yi).Some? && ReadingAt(c.precip, doy, yi).Some?
         && forall l :: 1 <= l <= LagCount(q.lags) ==> LagCell(c.precip, doy, yi, l).Some?)
  {
    var doy := DayOfYearIndex(c.years[yi], q.month, q.day);
    LagValuesMeaning(c.precip, doy, yi, LagCount(q.lags));
  }

  /** The row of a kept year is sin, cos, the lags from day doy - 1 down to
      doy - lags, the temperature, the longitude and the latitude; the label
      is 1 iff the precipitation reaches the threshold (non-strictly), else 0. */
  lemma YearRow(c: Climate, q: Request, sinDay: int -> real, cosDay: int -> real, yi: nat)
    requires yi < |c.years|
    requires YearSample(c, q, sinDay, cosDay, yi).Some?
    ensures var doy := DayOfYearIndex(c.years[yi], q.month, q.day);
      var o := YearSample(c, q, sinDay, cosDay, yi).value;
      var n := LagCount(q.lags);
      && |o.row| == 2 + n + 3
      && o.row[0] == sinDay(doy) && o.row[1] == cosDay(doy)
      && (forall i :: 2 <= i < 2 + n ==> Some(o.row[i]) == LagCell(c.precip, doy, yi, i - 1))
      && Some(o.row[2 + n]) == ReadingAt(c.temp, doy, yi)
      && o.row[3 + n] == q.longitude && o.row[4 + n] == q.latitude
      && ReadingAt(c.precip, doy, yi).Some?
      && (o.target == 1 <==> ReadingAt(c.precip, doy, yi).value >= q.threshold)
      && (o.target == 0 || o.target == 1)
      && o.year == c.years[yi]
  {
    var doy := DayOfYearIndex(c.years[yi], q.month, q.day);
    var n := LagCount(q.lags);
    LagValuesMeaning(c.precip, doy, yi, n);
    var lagVals := LagValues(c.precip, doy, yi, n).value;
    var row := YearSample(c, q, sinDay, cosDay, yi).value.row;
    forall i | 2 <= i < 2 + n
      ensures row[i] == lagVals[i - 2]
    {
    }
  }

  /** The kept years, in order, are a subsequence of the fetched years. */
  lemma {:induction false} KeptYearsSubsequence(c: Climate, q: Request, sinDay: int -> real, cosDay: int -> real, k: nat)
    requires k <= |c.years|
    ensures IsSubsequence(YearsOf(Samples(c, q, sinDay, cosDay, k)), c.years[..k])
  {
    if k > 0 {
      KeptYearsSubsequence(c, q, sinDay, cosDay, k - 1);
      var sp := Samples(c, q, sinDay, cosDay, k - 1);
      var o := YearSample(c, q, sinDay, cosDay, k - 1);
      SamplesUnfold(c, q, sinDay, cosDay, k);
      assert c.years[..k - 1] + [c.years[k - 1]] == c.years[..k];
      KeptStep(Samples(c, q, sinDay, cosDay, k), sp, o, c.years[..k], c.years[..k - 1], c.years[k - 1]);
    }
  }

  /** The definition of `Samples` for one more year, as one equation. */
  lemma SamplesUnfold(c: Climate, q: Request, sinDay: int -> real, cosDay: int -> real, k: nat)
    requires 0 < k <= |c.years|
    ensures var o := YearSample(c, q, sinDay, cosDay, k - 1);
      Samples(c, q, sinDay, cosDay, k) == Samples(c, q, sinDay, cosDay, k - 1) + (if o.Some? then [o.value] else [])
  {
  }

  /** A sample of year y, kept or not, keeps the years a subsequence once
      y is appended to the fetched years. */
  lemma KeptStep(sk: seq<Sample>, sp: seq<Sample>, o: Option<Sample>, full: seq<int>, pre: seq<int>, y: int)
    requires sk == sp + (if o.Some? then [o.value] else [])
    requires full == pre + [y]
    requires IsSubsequence(YearsOf(sp), pre)
    requires o.Some? ==> o.value.year == y
    ensures IsSubsequence(YearsOf(sk), full)
  {
    SubsequenceStep(YearsOf(sp), pre, y, o.Some?);
    assert YearsOf(sk) == YearsOf(sp) + (if o.Some? then [y] else []);
  }

  /** `X`, `y` and `meta.years` have one entry per kept year, every row has
      2 + lags + 3 entries, every label is 0 or 1, meta.years is a
      subsequence of the fetched years, and no years is an error. */
  lemma DatasetShape(c: Climate, longitude: real, latitude: real, month: int, day: int,
                     opts: FeatureOptions, sinDay: int -> real, cosDay: int -> real)
    ensures |c.years| == 0 <==> BuildDataset(c, longitude, latitude, month, day, opts, sinDay, cosDay) == Err(NoYears)
    ensures var r := BuildDataset(c, longitude, latitude, month, day, opts, sinDay, cosDay);
      r.Ok? ==>
        && |r.value.x| == |r.value.y| == |r.value.meta.years| <= |c.years|
        && (forall i :: 0 <= i < |r.value.x| ==> |r.value.x[i]| == 2 + LagCount(r.value.meta.lags) + 3)
        && (forall i :: 0 <= i < |r.value.y| ==> r.value.y[i] == 0 || r.value.y[i] == 1)
        && IsSubsequence(r.value.meta.years, c.years)
  {
    if |c.years| > 0 {
      var q := ResolveRequest(longitude, latitude, month, day, opts);
      KeptYearsSubsequence(c, q, sinDay, cosDay, |c.years|);
      assert c.years[..|c.years|] == c.years;
      SamplesShape(c, q, sinDay, cosDay, |c.years|);
    }
  }

  /** Every sample of the first k years has a row of 2 + lags + 3 entries and a 0/1 label. */
  lemma {:induction false} SamplesShape(c: Climate, q: Request, sinDay: int -> real, cosDay: int -> real, k: nat)
    requires k <= |c.years|
    ensures forall i :: 0 <= i < |Samples(c, q, sinDay, cosDay, k)| ==>
      |Samples(c, q, sinDay, cosDay, k)[i].row| == 2 + LagCount(q.lags) + 3
      && (Samples(c, q, sinDay, cosDay, k)[i].target == 0 || Samples(c, q, sinDay, cosDay, k)[i].target == 1)
  {
    if k > 0 {
      SamplesShape(c, q, sinDay, cosDay, k - 1);
      if YearSample(c, q, sinDay, cosDay, k - 1).Some? {
        YearRow(c, q, sinDay, cosDay, k - 1);
      }
    }
  }
}
