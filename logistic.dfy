/** Logistic regression trained by stochastic gradient descent, and its
    confusion-matrix evaluation (`dot`, `trainLogisticSGD` and
    `evaluateModel` of train_ml.js). `Math.random` becomes parameters: the
    initial weights, and for every epoch the index j drawn at each step of
    the shuffle. The sigmoid is a parameter. */
module Logistic {
  import opened Common
  import S = Scaler

  // ---------------------------------------------------------------------
  // dot
  // ---------------------------------------------------------------------

  /** The first k terms of sum a[i] * b[i]. */
  function DotPrefix(a: seq<real>, b: seq<real>, k: nat): real
    requires k <= |a| && k <= |b|
  {
    if k == 0 then 0.0 else DotPrefix(a, b, k - 1) + a[k - 1] * b[k - 1]
  }

  /** `dot(a, b)`: runs over a's length. */
  function DotProduct(a: seq<real>, b: seq<real>): real
    requires |a| <= |b|
  {
    DotPrefix(a, b, |a|)
  }

  method Dot(a: seq<real>, b: seq<real>) returns (s: real)
    requires |a| <= |b|
    ensures s == DotProduct(a, b)
  {
    s := 0.0;
    var i := 0;
    while i < |a|
      invariant 0 <= i <= |a|
      invariant s == DotPrefix(a, b, i)
    {
      s := s + a[i] * b[i];
      i := i + 1;
    }
  }

  /** The product is symmetric. */
  lemma {:induction false} DotPrefixSymmetric(a: seq<real>, b: seq<real>, k: nat)
    requires k <= |a| && k <= |b|
    ensures DotPrefix(a, b, k) == DotPrefix(b, a, k)
  {
    if k > 0 {
      DotPrefixSymmetric(a, b, k - 1);
    }
  }

  /** Against zero weights every input scores 0. */
  lemma {:induction false} DotPrefixZero(a: seq<real>, b: seq<real>, k: nat)
    requires k <= |a| && k <= |b|
    requires forall i :: 0 <= i < k ==> a[i] == 0.0
    ensures DotPrefix(a, b, k) == 0.0
  {
    if k > 0 {
      DotPrefixZero(a, b, k - 1);
    }
  }

  // ---------------------------------------------------------------------
  // The shuffle
  // ---------------------------------------------------------------------

  /** `Array.from({ length: n }, (_, i) => i)`. */
  function Range(n: nat): (r: seq<int>)
    ensures |r| == n && forall i :: 0 <= i < n ==> r[i] == i
  {
    seq(n, i requires 0 <= i < n => i)
  }

  /** `[s[i], s[j]] = [s[j], s[i]]`. */
  function Swap(s: seq<int>, i: nat, j: nat): (r: seq<int>)
    requires i < |s| && j < |s|
    ensures |r| == |s| && r[i] == s[j] && r[j] == s[i]
    ensures forall k :: 0 <= k < |s| && k != i && k != j ==> r[k] == s[k]
  {
    s[i := s[j]][j := s[i]]
  }

  /** A swap permutes. */
  lemma SwapPermutes(s: seq<int>, i: nat, j: nat)
    requires i < |s| && j < |s|
    ensures multiset(Swap(s, i, j)) == multiset(s)
  {
  }

  /** The draws of one epoch are admissible: for each step i of the
      shuffle, `Math.floor(Math.random() * (i + 1))` lies in [0, i]. */
  predicate Draws(js: seq<int>, n: nat)
  {
    |js| == n && forall i :: 1 <= i < n ==> 0 <= js[i] <= i
  }

  /** `for (i = k; i > 0; i--) swap(i, js[i])` on s. */
  function ShuffleFrom(s: seq<int>, js: seq<int>, k: int): (r: seq<int>)
    requires Draws(js, |s|) && k < |s|
    ensures |r| == |s|
    decreases k
  {
    if k <= 0 then s else ShuffleFrom(Swap(s, k, js[k]), js, k - 1)
  }

  /** The visiting order of one epoch. */
  function Shuffled(n: nat, js: seq<int>): (r: seq<int>)
    requires Draws(js, n)
    ensures |r| == n
  {
    ShuffleFrom(Range(n), js, n - 1)
  }

  /** The shuffle permutes whatever it is given, for any admissible draws. */
  lemma {:induction false} ShufflePermutes(s: seq<int>, js: seq<int>, k: int)
    requires Draws(js, |s|) && k < |s|
    ensures multiset(ShuffleFrom(s, js, k)) == multiset(s)
    decreases k
  {
    if k > 0 {
      SwapPermutes(s, k, js[k]);
      ShufflePermutes(Swap(s, k, js[k]), js, k - 1);
    }
  }

  /** `[a[i], a[j]] = [a[j], a[i]]` on an array. */
  method SwapAt(a: array<int>, i: nat, j: nat)
    requires i < a.Length && j < a.Length
    modifies a
    ensures a[..] == Swap(old(a[..]), i, j)
  {
    a[i], a[j] := a[j], a[i];
  }

  /** The shuffle, in place on `idx`. */
  method ShuffledIndices(n: nat, js: seq<int>) returns (order: seq<int>)
    requires Draws(js, n)
    ensures order == Shuffled(n, js)
  {
    var idx := new int[n](i => i);
    ghost var target := Shuffled(n, js);
    ghost var cur := Range(n);
    assert idx[..] == cur;
    var i := n - 1;
    while i > 0
      invariant -1 <= i < n
      invariant n > 0 ==> i >= 0
      invariant idx.Length == n == |cur|
      invariant idx[..] == cur
      invariant ShuffleFrom(cur, js, i) == target
    {
      ShuffleStep(cur, js, i);
      SwapAt(idx, i, js[i]);
      cur := Swap(cur, i, js[i]);
      i := i - 1;
    }
    return idx[..];
  }

  lemma ShuffleStep(s: seq<int>, js: seq<int>, i: int)
    requires Draws(js, |s|) && 0 < i < |s|
    ensures ShuffleFrom(s, js, i) == ShuffleFrom(Swap(s, i, js[i]), js, i - 1)
  {
  }

  /** Each of 0..n-1 occurs exactly once in Range(n). */
  lemma {:induction false} RangeOnce(n: nat, k: int)
    ensures multiset(Range(n))[k] == if 0 <= k < n then 1 else 0
  {
    if n > 0 {
      RangeOnce(n - 1, k);
      assert Range(n) == Range(n - 1) + [n - 1];
    }
  }

  /** Whatever the draws, every sample index appears exactly once in an
      epoch's order, and nothing else does: each sample is updated once per
      epoch. */
  lemma EachSampleOnce(n: nat, js: seq<int>)
    requires Draws(js, n)
    ensures forall k :: 0 <= k < n ==> multiset(Shuffled(n, js))[k] == 1
    ensures forall i :: 0 <= i < n ==> 0 <= Shuffled(n, js)[i] < n
  {
    ShufflePermutes(Range(n), js, n - 1);
    forall k | 0 <= k < n
      ensures multiset(Shuffled(n, js))[k] == 1
    {
      RangeOnce(n, k);
    }
    forall i | 0 <= i < n
      ensures 0 <= Shuffled(n, js)[i] < n
    {
      var v := Shuffled(n, js)[i];
      assert v in multiset(Shuffled(n, js));
      RangeOnce(n, v);
    }
  }

  // ---------------------------------------------------------------------
  // Training
  // ---------------------------------------------------------------------

  /** `opts.epochs ?? 2000`, `opts.lr ?? 0.01`, `opts.reg ?? 1e-4`. */
  datatype TrainOptions = TrainOptions(epochs: Option<int>, lr: Option<real>, reg: Option<real>)

  const DEFAULT_EPOCHS: int := 2000
  const DEFAULT_LR: real := 0.01
  const DEFAULT_REG: real := 0.0001

  function EpochsOf(opts: TrainOptions): nat
  {
    var e := if opts.epochs.Some? then opts.epochs.value else DEFAULT_EPOCHS;
    if e < 0 then 0 else e
  }

  function LrOf(opts: TrainOptions): real
  {
    if opts.lr.Some? then opts.lr.value else DEFAULT_LR
  }

  function RegOf(opts: TrainOptions): real
  {
    if opts.reg.Some? then opts.reg.value else DEFAULT_REG
  }

  /** `{ w, b }`; `predictProba` is PredictProba over these two. */
  datatype Model = Model(w: seq<real>, b: real)

  /** `sigmoid(dot(w, x) + b)`. */
  function PredictProba(m: Model, x: seq<real>, sigmoid: real -> real): real
    requires |m.w| <= |x|
  {
    sigmoid(DotProduct(m.w, x) + m.b)
  }

  /** One sample's update: with err = p - y, `w[k] -= lr * (err * x[k] +
      reg * w[k])` for every k and `b -= lr * err`. */
  function StepModel(m: Model, x: seq<real>, y: int, lr: real, reg: real, sigmoid: real -> real): (r: Model)
    requires |m.w| <= |x|
    ensures |r.w| == |m.w|
  {
    var err := PredictProba(m, x, sigmoid) - y as real;
    Model(StepWeights(m.w, x, err, lr, reg), m.b - lr * err)
  }

  /** The weight half of the update, for a given error. */
  function StepWeights(w: seq<real>, x: seq<real>, err: real, lr: real, reg: real): (r: seq<real>)
    requires |w| <= |x|
    ensures |r| == |w| && forall k :: 0 <= k < |w| ==> r[k] == w[k] - lr * (err * x[k] + reg * w[k])
  {
    seq(|w|, k requires 0 <= k < |w| => w[k] - lr * (err * x[k] + reg * w[k]))
  }

  /** The rows and labels training accepts: one label per row, every row
      as long as the first. */
  predicate TrainingSet(x: S.Rows, y: seq<int>)
  {
    |y| == |x| && S.Rectangular(x)
  }

  /** The model after the samples order[..k] of one epoch. */
  function RunOrder(m: Model, x: S.Rows, y: seq<int>, order: seq<int>, k: nat,
                    lr: real, reg: real, sigmoid: real -> real): (r: Model)
    requires TrainingSet(x, y) && |x| > 0 && |m.w| == |x[0]|
    requires k <= |order| && forall i :: 0 <= i < |order| ==> 0 <= order[i] < |x|
    ensures |r.w| == |m.w|
  {
    if k == 0 then m
    else
      var i := order[k - 1];
      StepModel(RunOrder(m, x, y, order, k - 1, lr, reg, sigmoid), x[i], y[i], lr, reg, sigmoid)
  }

  /** Admissible draws for the first e epochs of n samples. */
  predicate EpochDraws(draws: seq<seq<int>>, e: nat, n: nat)
  {
    |draws| >= e && forall k :: 0 <= k < e ==> Draws(draws[k], n)
  }

  /** The model after e epochs. */
  function RunEpochs(m: Model, x: S.Rows, y: seq<int>, draws: seq<seq<int>>, e: nat,
                     lr: real, reg: real, sigmoid: real -> real): (r: Model)
    requires TrainingSet(x, y) && |x| > 0 && |m.w| == |x[0]|
    requires EpochDraws(draws, e, |x|)
    ensures |r.w| == |m.w|
  {
    if e == 0 then m
    else
      var prev := RunEpochs(m, x, y, draws, e - 1, lr, reg, sigmoid);
      var order := Shuffled(|x|, draws[e - 1]);
      EachSampleOnce(|x|, draws[e - 1]);
      RunOrder(prev, x, y, order, |order|, lr, reg, sigmoid)
  }

  /** What `trainLogisticSGD` returns or throws (`X[0].length` on an empty X),
      given the initial weights `init`. */
  function TrainLogistic(x: S.Rows, y: seq<int>, opts: TrainOptions, init: seq<real>,
                         draws: seq<seq<int>>, sigmoid: real -> real): (r: Result<Model>)
    requires TrainingSet(x, y)
    requires |x| > 0 ==> |init| == |x[0]| && EpochDraws(draws, EpochsOf(opts), |x|)
    ensures r.Err? <==> |x| == 0
    ensures r.Ok? ==> |r.value.w| == |x[0]|
  {
    if |x| == 0 then Err(EmptyInput)
    else Ok(RunEpochs(Model(init, 0.0), x, y, draws, EpochsOf(opts), LrOf(opts), RegOf(opts), sigmoid))
  }

  /** The update of one sample, in place on `w` and with the new bias returned. */
  method UpdateSample(w: array<real>, b: real, x: seq<real>, y: int, lr: real, reg: real, sigmoid: real -> real)
    returns (b': real)
    requires w.Length <= |x|
    modifies w
    ensures Model(w[..], b') == StepModel(Model(old(w[..]), b), x, y, lr, reg, sigmoid)
  {
    ghost var m := Model(w[..], b);
    var z := Dot(w[..], x);
    z := z + b;
    var p := sigmoid(z);
    var err := p - y as real;
    assert err == PredictProba(m, x, sigmoid) - y as real;
    UpdateWeights(w, x, err, lr, reg);
    b' := b - lr * err;
  }

  /** `for (k...) w[k] -= lr * (err * xi[k] + reg * w[k])`. */
  method UpdateWeights(w: array<real>, x: seq<real>, err: real, lr: real, reg: real)
    requires w.Length <= |x|
    modifies w
    ensures w[..] == StepWeights(old(w[..]), x, err, lr, reg)
  {
    ghost var target := StepWeights(w[..], x, err, lr, reg);
    ghost var w0 := w[..];
    var k := 0;
    while k < w.Length
      invariant 0 <= k <= w.Length
      invariant forall t :: 0 <= t < k ==> w[t] == target[t]
      invariant forall t :: k <= t < w.Length ==> w[t] == w0[t]
    {
      w[k] := w[k] - lr * (err * x[k] + reg * w[k]);
      k := k + 1;
    }
    assert w[..] == target;
  }

  /** `for (const i of idx) { ... }`. */
  method RunEpoch(w: array<real>, b: real, x: S.Rows, y: seq<int>, order: seq<int>,
                  lr: real, reg: real, sigmoid: real -> real)
    returns (b': real)
    requires TrainingSet(x, y) && |x| > 0 && w.Length == |x[0]|
    requires forall i :: 0 <= i < |order| ==> 0 <= order[i] < |x|
    modifies w
    ensures Model(w[..], b') == RunOrder(Model(old(w[..]), b), x, y, order, |order|, lr, reg, sigmoid)
  {
    ghost var m := Model(w[..], b);
    b' := b;
    var k := 0;
    while k < |order|
      invariant 0 <= k <= |order|
      invariant Model(w[..], b') == RunOrder(m, x, y, order, k, lr, reg, sigmoid)
    {
      var i := order[k];
      b' := UpdateSample(w, b', x[i], y[i], lr, reg, sigmoid);
      k := k + 1;
    }
  }

  method TrainLogisticSGD(x: S.Rows, y: seq<int>, opts: TrainOptions, init: seq<real>,
                          draws: seq<seq<int>>, sigmoid: real -> real)
    returns (r: Result<Model>)
    requires TrainingSet(x, y)
    requires |x| > 0 ==> |init| == |x[0]| && EpochDraws(draws, EpochsOf(opts), |x|)
    ensures r == TrainLogistic(x, y, opts, init, draws, sigmoid)
  {
    if |x| == 0 {
      return Err(EmptyInput);
    }
    var nSamples := |x|;
    var nFeatures := |x[0]|;
    var epochs := EpochsOf(opts);
    var lr := LrOf(opts);
    var reg := RegOf(opts);
    var w := new real[nFeatures](k requires 0 <= k < nFeatures => init[k]);
    assert w[..] == init;
    var b := 0.0;
    var ep := 0;
    while ep < epochs
      invariant 0 <= ep <= epochs
      invariant w.Length == nFeatures
      invariant Model(w[..], b) == RunEpochs(Model(init, 0.0), x, y, draws, ep, lr, reg, sigmoid)
    {
      var order := ShuffledIndices(nSamples, draws[ep]);
      EachSampleOnce(nSamples, draws[ep]);
      b := RunEpoch(w, b, x, y, order, lr, reg, sigmoid);
      ep := ep + 1;
    }
    return Ok(Model(w[..], b));
  }

  /** The bias is never regularised, and `reg` only adds the decay term
      `lr * reg * w[k]` to each weight. */
  lemma BiasNotRegularised(m: Model, x: seq<real>, y: int, lr: real, reg1: real, reg2: real, sigmoid: real -> real)
    requires |m.w| <= |x|
    ensures StepModel(m, x, y, lr, reg1, sigmoid).b == StepModel(m, x, y, lr, reg2, sigmoid).b
    ensures forall k :: 0 <= k < |m.w| ==>
      StepModel(m, x, y, lr, reg1, sigmoid).w[k] + lr * reg1 * m.w[k]
      == StepModel(m, x, y, lr, reg2, sigmoid).w[k] + lr * reg2 * m.w[k]
  {
  }

  /** A learning rate of 0 leaves the model where it started, however many
      epochs run. */
  lemma {:induction false} ZeroRateKeepsModel(m: Model, x: S.Rows, y: seq<int>, order: seq<int>, k: nat,
                                              reg: real, sigmoid: real -> real)
    requires TrainingSet(x, y) && |x| > 0 && |m.w| == |x[0]|
    requires k <= |order| && forall i :: 0 <= i < |order| ==> 0 <= order[i] < |x|
    ensures RunOrder(m, x, y, order, k, 0.0, reg, sigmoid) == m
  {
    if k > 0 {
      ZeroRateKeepsModel(m, x, y, order, k - 1, reg, sigmoid);
      var i := order[k - 1];
      assert StepModel(m, x[i], y[i], 0.0, reg, sigmoid).w == m.w;
    }
  }

  // ---------------------------------------------------------------------
  // Evaluation
  // ---------------------------------------------------------------------

  /** `{ tp, tn, fp, fn, acc, precision, recall, f1 }`. */
  datatype Metrics = Metrics(tp: nat, tn: nat, fp: nat, fn: nat, acc: Number, precision: real, recall: real, f1: real)

  datatype Counts = Counts(tp: nat, tn: nat, fp: nat, fn: nat)

  /** `p >= 0.5 ? 1 : 0`. */
  function Predicted(p: real): int
  {
    if p >= 0.5 then 1 else 0
  }

  /** The four counters after the first k samples; a label other than 0 or
      1 moves none of them. */
  function Tally(preds: seq<int>, actual: seq<int>, k: nat): (c: Counts)
    requires k <= |preds| && k <= |actual|
  {
    if k == 0 then Counts(0, 0, 0, 0)
    else TallyStep(Tally(preds, actual, k - 1), preds[k - 1], actual[k - 1])
  }

  /** The four `if`s of one row. */
  function TallyStep(c: Counts, p: int, a: int): Counts
  {
    Counts(c.tp + (if p == 1 && a == 1 then 1 else 0),
           c.tn + (if p == 0 && a == 0 then 1 else 0),
           c.fp + (if p == 1 && a == 0 then 1 else 0),
           c.fn + (if p == 0 && a == 1 then 1 else 0))
  }

  method Classify(tp: nat, tn: nat, fp: nat, fn: nat, pred: int, actual: int)
    returns (tp': nat, tn': nat, fp': nat, fn': nat)
    ensures Counts(tp', tn', fp', fn') == TallyStep(Counts(tp, tn, fp, fn), pred, actual)
  {
    tp', tn', fp', fn' := tp, tn, fp, fn;
    if pred == 1 && actual == 1 { tp' := tp' + 1; }
    if pred == 0 && actual == 0 { tn' := tn' + 1; }
    if pred == 1 && actual == 0 { fp' := fp' + 1; }
    if pred == 0 && actual == 1 { fn' := fn' + 1; }
  }

  /** How many of the first k labels are 0 or 1. */
  function Binary(actual: seq<int>, k: nat): (n: nat)
    requires k <= |actual|
    ensures n <= k
  {
    if k == 0 then 0 else Binary(actual, k - 1) + (if actual[k - 1] == 0 || actual[k - 1] == 1 then 1 else 0)
  }

  /** The metrics of the final counts. */
  function Summarize(c: Counts): (m: Metrics)
    ensures m.tp == c.tp && m.tn == c.tn && m.fp == c.fp && m.fn == c.fn
    ensures m.acc == CountRatio(c.tp + c.tn, c.tp + c.tn + c.fp + c.fn)
    ensures m.precision == Fraction(c.tp, c.tp + c.fp) && m.recall == Fraction(c.tp, c.tp + c.fn)
    ensures m.f1 == F1(m.precision, m.recall)
  {
    var precision := Fraction(c.tp, c.tp + c.fp);
    var recall := Fraction(c.tp, c.tp + c.fn);
    Metrics(c.tp, c.tn, c.fp, c.fn, CountRatio(c.tp + c.tn, c.tp + c.tn + c.fp + c.fn),
            precision, recall, F1(precision, recall))
  }

  /** `precision + recall === 0 ? 0 : 2 * (precision * recall) / (precision + recall)`. */
  function F1(precision: real, recall: real): real
  {
    if precision + recall == 0.0 then 0.0 else 2.0 * (precision * recall) / (precision + recall)
  }

  /** The class predicted for each row. */
  function Predictions(predictProba: seq<real> -> real, x: S.Rows): (r: seq<int>)
    ensures |r| == |x| && forall i :: 0 <= i < |x| ==> r[i] == Predicted(predictProba(x[i]))
  {
    seq(|x|, i requires 0 <= i < |x| => Predicted(predictProba(x[i])))
  }

  /** What `evaluateModel` returns; `y` is read only at the rows of X. */
  function Evaluation(predictProba: seq<real> -> real, x: S.Rows, y: seq<int>): Metrics
    requires |y| >= |x|
  {
    Summarize(Tally(Predictions(predictProba, x), y, |x|))
  }

  method EvaluateModel(predictProba: seq<real> -> real, x: S.Rows, y: seq<int>) returns (m: Metrics)
    requires |y| >= |x|
    ensures m == Evaluation(predictProba, x, y)
  {
    ghost var preds := Predictions(predictProba, x);
    var tp, tn, fp, fn := 0, 0, 0, 0;
    var i := 0;
    while i < |x|
      invariant 0 <= i <= |x|
      invariant Counts(tp, tn, fp, fn) == Tally(preds, y, i)
    {
      var p := predictProba(x[i]);
      var pred := if p >= 0.5 then 1 else 0;
      var actual := y[i];
      tp, tn, fp, fn := Classify(tp, tn, fp, fn, pred, actual);
      i := i + 1;
    }
    return Summarize(Counts(tp, tn, fp, fn));
  }

  /** The counters add up to the number of 0/1 labels, so with labels in
      {0, 1} every row lands in exactly one cell. */
  lemma {:induction false} TallyCoversBinaryLabels(preds: seq<int>, actual: seq<int>, k: nat)
    requires k <= |preds| && k <= |actual|
    requires forall i :: 0 <= i < k ==> preds[i] == 0 || preds[i] == 1
    ensures var c := Tally(preds, actual, k); c.tp + c.tn + c.fp + c.fn == Binary(actual, k)
  {
    if k > 0 {
      TallyCoversBinaryLabels(preds, actual, k - 1);
    }
  }

  lemma {:induction false} AllBinary(actual: seq<int>, k: nat)
    requires k <= |actual|
    requires forall i :: 0 <= i < k ==> actual[i] == 0 || actual[i] == 1
    ensures Binary(actual, k) == k
  {
    if k > 0 {
      AllBinary(actual, k - 1);
    }
  }

  /** With 0/1 labels the four counts sum to |X|: every row lands in
      exactly one cell. */
  lemma ConfusionTotals(predictProba: seq<real> -> real, x: S.Rows, y: seq<int>)
    requires |y| >= |x|
    requires forall i :: 0 <= i < |x| ==> y[i] == 0 || y[i] == 1
    ensures Evaluation(predictProba, x, y).tp + Evaluation(predictProba, x, y).tn
            + Evaluation(predictProba, x, y).fp + Evaluation(predictProba, x, y).fn == |x|
  {
    var preds := Predictions(predictProba, x);
    PredictionsBinary(predictProba, x);
    TallyCoversBinaryLabels(preds, y, |x|);
    AllBinary(y, |x|);
  }

  /** With 0/1 labels accuracy is NaN (0 / 0) exactly when X is empty. */
  lemma AccuracyNaNIffEmpty(predictProba: seq<real> -> real, x: S.Rows, y: seq<int>)
    requires |y| >= |x|
    requires forall i :: 0 <= i < |x| ==> y[i] == 0 || y[i] == 1
    ensures Evaluation(predictProba, x, y).acc.NaN? <==> |x| == 0
  {
    ConfusionTotals(predictProba, x, y);
  }

  /** Whatever the labels, a numeric accuracy lies in [0, 1]. */
  lemma AccuracyOfEvaluation(predictProba: seq<real> -> real, x: S.Rows, y: seq<int>)
    requires |y| >= |x|
    ensures Evaluation(predictProba, x, y).acc.Num? ==> 0.0 <= Evaluation(predictProba, x, y).acc.val <= 1.0
  {
    AccuracyRange(Tally(Predictions(predictProba, x), y, |x|));
  }

  /** Every prediction is a class, 0 or 1. */
  lemma PredictionsBinary(predictProba: seq<real> -> real, x: S.Rows)
    ensures forall i :: 0 <= i < |x| ==> Predictions(predictProba, x)[i] == 0 || Predictions(predictProba, x)[i] == 1
  {
  }

  /** `acc` is NaN exactly when no row was counted, and otherwise in [0, 1]. */
  lemma AccuracyRange(c: Counts)
    ensures Summarize(c).acc.NaN? <==> c.tp + c.tn + c.fp + c.fn == 0
    ensures Summarize(c).acc.Num? ==> 0.0 <= Summarize(c).acc.val <= 1.0
  {
    assert c.tp + c.tn <= c.tp + c.tn + c.fp + c.fn;
  }

  /** Precision, recall and F1 are 0 when their denominators are, and all
      three lie in [0, 1]. */
  lemma MetricBounds(c: Counts)
    ensures var m := Summarize(c);
      && (c.tp + c.fp == 0 ==> m.precision == 0.0)
      && (c.tp + c.fn == 0 ==> m.recall == 0.0)
      && (m.precision + m.recall == 0.0 ==> m.f1 == 0.0)
      && 0.0 <= m.precision <= 1.0 && 0.0 <= m.recall <= 1.0
      && 0.0 <= m.f1 <= 1.0
  {
    var precision := Fraction(c.tp, c.tp + c.fp);
    var recall := Fraction(c.tp, c.tp + c.fn);
    assert 0.0 <= precision <= 1.0 && 0.0 <= recall <= 1.0;
    F1Bounds(precision, recall);
  }

  /** The harmonic mean of two numbers in [0, 1] is in [0, 1]. */
  lemma F1Bounds(p: real, r: real)
    requires 0.0 <= p <= 1.0 && 0.0 <= r <= 1.0
    ensures 0.0 <= F1(p, r) <= 1.0
  {
    if p + r != 0.0 {
      var pr := p * r;
      ScaledDown(p, r);
      ScaledDown(r, p);
      assert r * p == pr;
      assert 0.0 <= pr <= r && pr <= p;
      assert 0.0 <= 2.0 * pr <= p + r;
      QuotientAtMostOne(2.0 * pr, p + r);
    }
  }

  lemma ScaledDown(a: real, b: real)
    requires 0.0 <= a <= 1.0 && 0.0 <= b
    ensures 0.0 <= a * b <= b
  {
    assert b - a * b == (1.0 - a) * b;
  }

  lemma QuotientAtMostOne(q: real, d: real)
    requires 0.0 <= q <= d && d > 0.0
    ensures 0.0 <= q / d <= 1.0
  {
  }
}
