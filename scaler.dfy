/** Feature standardisation (`fitScaler`, `transformWithScaler` and
    `standardizeTrainTest` of ml_utils.js): per-column means and sample
    standard deviations from the training rows, then (v - mean) / std
    entry by entry. The square root is a parameter. */
module Scaler {
  import opened Common

  type Rows = seq<seq<real>>

  /** Every row as long as the first; the feature rows built for training are. */
  predicate Rectangular(x: Rows)
  {
    forall i :: 0 <= i < |x| ==> |x[i]| == |x[0]|
  }

  /** Column j: `X[i][j]` for each row i. */
  function Column(x: Rows, j: nat): (c: seq<real>)
    requires Rectangular(x) && (|x| > 0 ==> j < |x[0]|)
    ensures |c| == |x| && forall i :: 0 <= i < |x| ==> c[i] == x[i][j]
  {
    seq(|x|, i requires 0 <= i < |x| => x[i][j])
  }

  /** `{ mean, std }`. */
  datatype Scaler = Scaler(mean: seq<real>, std: seq<real>)

  /** What fitScaler always produces for d columns: one mean and one
      nonzero std per column. */
  predicate ValidScaler(sc: Scaler, d: nat)
  {
    |sc.mean| == d && |sc.std| == d && forall j :: 0 <= j < d ==> sc.std[j] != 0.0
  }

  /** `Math.max(1, n - 1)`. */
  function Denominator(n: nat): (r: nat)
    ensures r >= 1
  {
    if n - 1 >= 1 then n - 1 else 1
  }

  /** `std[j]`: sqrt(s2 / max(1, n - 1)), replaced by 1 when it is 0. */
  function ColumnStd(c: seq<real>, mean: real, sqrt: real -> real): (r: real)
    ensures r != 0.0
  {
    var sd := sqrt(SumSqDev(c, mean) / Denominator(|c|) as real);
    if sd == 0.0 then 1.0 else sd
  }

  /** `mean[j]`: the average of column j. */
  function Means(x: Rows): (m: seq<real>)
    requires Rectangular(x) && |x| > 0
    ensures |m| == |x[0]|
    ensures forall j :: 0 <= j < |x[0]| ==> m[j] == Mean(Column(x, j)).val
  {
    seq(|x[0]|, j requires 0 <= j < |x[0]| => Mean(Column(x, j)).val)
  }

  /** `std[j]` about the given means. */
  function Stds(x: Rows, mean: seq<real>, sqrt: real -> real): (s: seq<real>)
    requires Rectangular(x) && |x| > 0 && |mean| == |x[0]|
    ensures |s| == |x[0]|
    ensures forall j :: 0 <= j < |x[0]| ==> s[j] == ColumnStd(Column(x, j), mean[j], sqrt)
  {
    seq(|x[0]|, j requires 0 <= j < |x[0]| => ColumnStd(Column(x, j), mean[j], sqrt))
  }

  /** What `fitScaler` returns or throws: `X[0].length` fails on an empty X. */
  function FitScaler(x: Rows, sqrt: real -> real): (r: Result<Scaler>)
    requires Rectangular(x)
    ensures r.Err? <==> |x| == 0
    ensures r.Ok? ==> ValidScaler(r.value, |x[0]|)
  {
    if |x| == 0 then Err(EmptyInput)
    else Ok(Scaler(Means(x), Stds(x, Means(x), sqrt)))
  }

  /** One row under the scaler: entry j becomes (v - mean[j]) / std[j]. */
  function TransformRow(row: seq<real>, sc: Scaler): (r: seq<real>)
    requires ValidScaler(sc, |sc.mean|) && |row| <= |sc.mean|
    ensures |r| == |row|
    ensures forall j :: 0 <= j < |row| ==> r[j] * sc.std[j] == row[j] - sc.mean[j]
  {
    seq(|row|, j requires 0 <= j < |row| => (row[j] - sc.mean[j]) / sc.std[j])
  }

  predicate Fits(x: Rows, sc: Scaler)
  {
    ValidScaler(sc, |sc.mean|) && forall i :: 0 <= i < |x| ==> |x[i]| <= |sc.mean|
  }

  /** `transformWithScaler`: row by row. */
  function Transform(x: Rows, sc: Scaler): (r: Rows)
    requires Fits(x, sc)
    ensures |r| == |x| && forall i :: 0 <= i < |x| ==> r[i] == TransformRow(x[i], sc)
  {
    seq(|x|, i requires 0 <= i < |x| => TransformRow(x[i], sc))
  }

  datatype Standardized = Standardized(trainScaled: Rows, testScaled: Rows, scaler: Scaler)

  /** `standardizeTrainTest`: the scaler is fitted on the training rows and
      applied to both partitions. */
  function StandardizeTrainTest(train: Rows, test: Rows, sqrt: real -> real): Result<Standardized>
    requires Rectangular(train)
    requires |train| > 0 ==> forall i :: 0 <= i < |test| ==> |test[i]| <= |train[0]|
  {
    match FitScaler(train, sqrt)
    case Err(e) => Err(e)
    case Ok(sc) => Ok(Standardized(Transform(train, sc), Transform(test, sc), sc))
  }

  // ---------------------------------------------------------------------
  // fitScaler's loops
  // ---------------------------------------------------------------------

  /** `for (i...) s += X[i][j]`. */
  method ColumnTotal(x: Rows, j: nat) returns (s: real)
    requires Rectangular(x) && |x| > 0 && j < |x[0]|
    ensures s == Sum(Column(x, j))
  {
    ghost var c := Column(x, j);
    s := 0.0;
    var i := 0;
    while i < |x|
      invariant 0 <= i <= |x|
      invariant s == Sum(c[..i])
    {
      assert c[..i + 1][..i] == c[..i];
      s := s + x[i][j];
      i := i + 1;
    }
    assert c[..|x|] == c;
  }

  /** `for (i...) { v = X[i][j] - mean[j]; s2 += v * v }`. */
  method ColumnSquares(x: Rows, j: nat, m: real) returns (s2: real)
    requires Rectangular(x) && |x| > 0 && j < |x[0]|
    ensures s2 == SumSqDev(Column(x, j), m)
  {
    ghost var c := Column(x, j);
    s2 := 0.0;
    var i := 0;
    while i < |x|
      invariant 0 <= i <= |x|
      invariant s2 == SumSqDev(c[..i], m)
    {
      assert c[..i + 1][..i] == c[..i];
      var v := x[i][j] - m;
      s2 := s2 + v * v;
      i := i + 1;
    }
    assert c[..|x|] == c;
  }

  /** The first loop: `mean[j] = s / n` for every column. */
  method FillMeans(x: Rows, mean: array<real>)
    requires Rectangular(x) && |x| > 0 && mean.Length == |x[0]|
    modifies mean
    ensures mean[..] == Means(x)
  {
    ghost var means := Means(x);
    var j := 0;
    while j < mean.Length
      invariant 0 <= j <= mean.Length
      invariant forall k :: 0 <= k < j ==> mean[k] == means[k]
    {
      var s := ColumnTotal(x, j);
      mean[j] := s / |x| as real;
      j := j + 1;
    }
  }

  /** The second loop: `std[j]`, with 1 in place of 0. */
  method FillStds(x: Rows, mean: array<real>, std: array<real>, sqrt: real -> real)
    requires Rectangular(x) && |x| > 0 && mean.Length == |x[0]| && std.Length == |x[0]| && mean != std
    modifies std
    ensures std[..] == Stds(x, mean[..], sqrt)
  {
    ghost var stds := Stds(x, mean[..], sqrt);
    var n := |x|;
    var j := 0;
    while j < std.Length
      invariant 0 <= j <= std.Length
      invariant forall k :: 0 <= k < j ==> std[k] == stds[k]
    {
      var s2 := ColumnSquares(x, j, mean[j]);
      std[j] := sqrt(s2 / (if 1 >= n - 1 then 1 else n - 1) as real);
      if std[j] == 0.0 {
        std[j] := 1.0;
      }
      j := j + 1;
    }
  }

  method Fit(x: Rows, sqrt: real -> real) returns (r: Result<Scaler>)
    requires Rectangular(x)
    ensures r == FitScaler(x, sqrt)
  {
    if |x| == 0 {
      return Err(EmptyInput);
    }
    var d := |x[0]|;
    var mean := new real[d](_ => 0.0);
    var std := new real[d](_ => 0.0);
    FillMeans(x, mean);
    FillStds(x, mean, std, sqrt);
    return Ok(Scaler(mean[..], std[..]));
  }

  // ---------------------------------------------------------------------
  // Properties
  // ---------------------------------------------------------------------

  /** One mean and one std per column, the mean being the column average
      and the std never 0. */
  lemma ScalerShape(x: Rows, sqrt: real -> real)
    requires Rectangular(x) && |x| > 0
    ensures var sc := FitScaler(x, sqrt).value;
      && |sc.mean| == |x[0]| && |sc.std| == |x[0]|
      && (forall j :: 0 <= j < |x[0]| ==> sc.mean[j] * |x| as real == Sum(Column(x, j)))
      && (forall j :: 0 <= j < |x[0]| ==> sc.std[j] != 0.0)
  {
  }

  /** A constant column has that constant as its mean and is mapped to an
      all-zero column. */
  lemma ConstantColumnToZero(x: Rows, j: nat, v: real, sqrt: real -> real)
    requires Rectangular(x) && |x| > 0 && j < |x[0]|
    requires forall i :: 0 <= i < |x| ==> x[i][j] == v
    ensures FitScaler(x, sqrt).value.mean[j] == v
    ensures forall i :: 0 <= i < |x| ==> Transform(x, FitScaler(x, sqrt).value)[i][j] == 0.0
  {
    MeanOfConstant(Column(x, j), v);
    var sc := FitScaler(x, sqrt).value;
    forall i | 0 <= i < |x|
      ensures Transform(x, sc)[i][j] == 0.0
    {
      assert TransformRow(x[i], sc)[j] * sc.std[j] == 0.0;
    }
  }

  /** Transforming works row by row: the transform of a concatenation is
      the concatenation of the transforms. */
  lemma TransformConcat(a: Rows, b: Rows, sc: Scaler)
    requires Fits(a, sc) && Fits(b, sc)
    ensures Fits(a + b, sc)
    ensures Transform(a + b, sc) == Transform(a, sc) + Transform(b, sc)
  {
    assert forall i :: 0 <= i < |a + b| ==> (a + b)[i] == if i < |a| then a[i] else b[i - |a|];
  }

  /** The sum of a column of (v - m) / s is (sum v - n m) / s. */
  lemma {:induction false} SumStandardized(c: seq<real>, t: seq<real>, m: real, s: real)
    requires |c| == |t| && s != 0.0
    requires forall i :: 0 <= i < |c| ==> t[i] * s == c[i] - m
    ensures Sum(t) * s == Sum(c) - |c| as real * m
  {
    if |c| > 0 {
      var k := |c| - 1;
      SumStandardized(c[..k], t[..k], m, s);
      assert Sum(t) * s == Sum(t[..k]) * s + t[k] * s;
    }
  }

  /** Column j of the transform sums to zero whenever the scaler's mean for
      that column is the column average. */
  lemma CentredColumn(x: Rows, sc: Scaler, j: nat)
    requires Rectangular(x) && |x| > 0 && j < |x[0]| && Fits(x, sc)
    requires sc.mean[j] * |x| as real == Sum(Column(x, j))
    ensures Rectangular(Transform(x, sc))
    ensures Sum(Column(Transform(x, sc), j)) == 0.0
  {
    TransformedColumn(x, sc, j);
    SumStandardized(Column(x, j), Column(Transform(x, sc), j), sc.mean[j], sc.std[j]);
  }

  /** Entry i of the transformed column j, times std[j], is X[i][j] - mean[j]. */
  lemma TransformedColumn(x: Rows, sc: Scaler, j: nat)
    requires Rectangular(x) && |x| > 0 && j < |x[0]| && Fits(x, sc)
    ensures Rectangular(Transform(x, sc))
    ensures forall i :: 0 <= i < |x| ==>
      Column(Transform(x, sc), j)[i] * sc.std[j] == Column(x, j)[i] - sc.mean[j]
  {
    var t := Transform(x, sc);
    forall i | 0 <= i < |x|
      ensures Column(t, j)[i] * sc.std[j] == Column(x, j)[i] - sc.mean[j]
    {
      assert Column(t, j)[i] == TransformRow(x[i], sc)[j];
    }
  }

  /** The standardised training rows have column sums of zero. */
  lemma TrainingColumnsCentred(x: Rows, j: nat, sqrt: real -> real)
    requires Rectangular(x) && |x| > 0 && j < |x[0]|
    ensures Rectangular(Transform(x, FitScaler(x, sqrt).value))
    ensures Sum(Column(Transform(x, FitScaler(x, sqrt).value), j)) == 0.0
  {
    CentredColumn(x, FitScaler(x, sqrt).value, j);
  }

  /** The scaler depends on the training rows alone, and both partitions
      are transformed with it. */
  lemma ScalerFromTrainingOnly(train: Rows, test1: Rows, test2: Rows, sqrt: real -> real)
    requires Rectangular(train)
    requires |train| > 0 ==> forall i :: 0 <= i < |test1| ==> |test1[i]| <= |train[0]|
    requires |train| > 0 ==> forall i :: 0 <= i < |test2| ==> |test2[i]| <= |train[0]|
    ensures StandardizeTrainTest(train, test1, sqrt).Ok? <==> |train| > 0
    ensures var r1 := StandardizeTrainTest(train, test1, sqrt);
      var r2 := StandardizeTrainTest(train, test2, sqrt);
      r1.Ok? ==>
        && r1.value.scaler == r2.value.scaler == FitScaler(train, sqrt).value
        && r1.value.trainScaled == r2.value.trainScaled
        && r1.value.testScaled == Transform(test1, r1.value.scaler)
  {
  }
}
