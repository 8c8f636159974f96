/** Values shared by every component: optional values, results with the
    errors the estimators throw, JavaScript's NaN, and small sequence sums. */
module Common {

  datatype Option<+T> = None | Some(value: T)

  /** Every error one of the modelled functions throws. */
  datatype Error =
    | InvalidMatrix          // 'Invalid precip matrix' and its temp/wind variants
    | InvalidDate            // reference-year day index outside the matrix
    | InvalidMonth           // spencer_1: month not an integer in 1..12
    | InvalidDay             // spencer_1: day not an integer in 1..31
    | NoYears                // buildDataset: fetchData returned no years
    | EmptyInput             // X[0].length on an empty X (a TypeError)
    | ErfMissing             // Math.erf is not a function (a TypeError)
    | DateFormat             // 'Date must be in MM/DD format'
    | MonthRange             // 'Month must be an integer 1..12'
    | DayRange               // 'Day must be an integer 1..31'
    | DayForMonth            // 'Invalid day D for month M'
    | LocationFormat         // 'Please enter location as "City, Country"'
    | InvalidCity
    | InvalidCountry
    | PowerHttp(status: int) // 'POWER HTTP <status>: ...'
    | FetchFailed            // 'Failed to fetch POWER data after retries'
    | CellIndex              // assignment through an undefined matrix row (a TypeError)

  datatype Result<+T> = Ok(value: T) | Err(error: Error)

  /** A JavaScript number as far as the modelled arithmetic needs: a real or NaN (0/0). */
  datatype Number = Num(val: real) | NaN

  /** JavaScript's a / b for the counting ratios of this model, where b == 0 implies a == 0. */
  function CountRatio(a: nat, b: nat): (r: Number)
    requires b == 0 ==> a == 0
    ensures r.NaN? <==> b == 0
    ensures r.Num? && a <= b ==> 0.0 <= r.val <= 1.0
    ensures r.Num? ==> r.val * (b as real) == a as real
  {
    if b == 0 then NaN else Num(a as real / b as real)
  }

  /** A guarded ratio `den ? num / den : 0`, as the estimators write it. */
  function Fraction(num: nat, den: nat): (r: real)
    ensures den == 0 ==> r == 0.0
    ensures den > 0 ==> r * den as real == num as real
    ensures num <= den ==> 0.0 <= r <= 1.0
    ensures num == den > 0 ==> r == 1.0
    ensures num == 0 ==> r == 0.0
  {
    if den == 0 then 0.0 else num as real / den as real
  }

  /** Sum of a sequence, accumulated left to right as `reduce((s, v) => s + v, 0)`. */
  function Sum(s: seq<real>): real
  {
    if s == [] then 0.0 else Sum(s[..|s| - 1]) + s[|s| - 1]
  }

  /** `arr.reduce((s, v) => s + v, 0) / arr.length`; 0 / 0 is NaN for an empty array. */
  function Mean(s: seq<real>): (r: Number)
    ensures r.NaN? <==> |s| == 0
    ensures r.Num? ==> r.val * |s| as real == Sum(s)
  {
    if |s| == 0 then NaN else Num(Sum(s) / |s| as real)
  }

  /** The mean of a constant sequence is that constant. */
  lemma MeanOfConstant(s: seq<real>, c: real)
    requires |s| > 0
    requires forall i :: 0 <= i < |s| ==> s[i] == c
    ensures Mean(s) == Num(c)
  {
    SumOfConstant(s, c);
    var n := |s| as real;
    assert Sum(s) == n * c;
    assert Sum(s) / n == c;
  }

  /** Sum of squared deviations from `mu`. */
  function SumSqDev(s: seq<real>, mu: real): real
  {
    if s == [] then 0.0 else SumSqDev(s[..|s| - 1], mu) + (s[|s| - 1] - mu) * (s[|s| - 1] - mu)
  }

  lemma {:induction false} SumSqDevNonNegative(s: seq<real>, mu: real)
    ensures SumSqDev(s, mu) >= 0.0
  {
    if s != [] {
      SumSqDevNonNegative(s[..|s| - 1], mu);
      var d := s[|s| - 1] - mu;
      assert d * d >= 0.0 by {
        if d < 0.0 { assert d * d == (-d) * (-d); }
      }
    }
  }

  lemma {:induction false} SumOfConstant(s: seq<real>, c: real)
    requires forall i :: 0 <= i < |s| ==> s[i] == c
    ensures Sum(s) == |s| as real * c
    ensures SumSqDev(s, c) == 0.0
  {
    if s != [] {
      SumOfConstant(s[..|s| - 1], c);
    }
  }

  /** `a` is an order-preserving subsequence of `b`. */
  predicate IsSubsequence<T(==)>(a: seq<T>, b: seq<T>)
  {
    if a == [] then true
    else if b == [] then false
    else (a[|a| - 1] == b[|b| - 1] && IsSubsequence(a[..|a| - 1], b[..|b| - 1]))
         || IsSubsequence(a, b[..|b| - 1])
  }

  lemma {:induction false} SubsequenceNoLonger<T>(a: seq<T>, b: seq<T>)
    requires IsSubsequence(a, b)
    ensures |a| <= |b|
  {
    if a != [] {
      if a[|a| - 1] == b[|b| - 1] && IsSubsequence(a[..|a| - 1], b[..|b| - 1]) {
        SubsequenceNoLonger(a[..|a| - 1], b[..|b| - 1]);
      } else {
        SubsequenceNoLonger(a, b[..|b| - 1]);
      }
    }
  }

  lemma SubsequenceExtend<T>(a: seq<T>, b: seq<T>, x: T)
    requires IsSubsequence(a, b)
    ensures IsSubsequence(a, b + [x])
    ensures IsSubsequence(a + [x], b + [x])
  {
    assert (b + [x])[..|b + [x]| - 1] == b;
    assert (a + [x])[..|a + [x]| - 1] == a;
  }

  /** One more element of `b`, kept or not, keeps the subsequence. */
  lemma SubsequenceStep<T>(a: seq<T>, b: seq<T>, x: T, keep: bool)
    requires IsSubsequence(a, b)
    ensures IsSubsequence(a + (if keep then [x] else []), b + [x])
  {
    SubsequenceExtend(a, b, x);
    if !keep {
      assert a + [] == a;
    }
  }
}
