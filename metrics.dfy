/** The distance between the baseline response and a perturbed one (`_compute_metric`), and the
    choice of metric that the engine's constructor makes. */
module Metrics {
  import opened Tensors
  import opened Numerics
  import opened Formatting

  /** The constructor's choice: Jensen-Shannon for classification, pointwise difference otherwise. */
  function MetricFor(task: string): (m: string)
    ensures m == "js" <==> task == Classification
    ensures m == "pd" <==> task != Classification
  {
    if task == Classification then "js" else "pd"
  }

  /** One cell of the tensor library's KL divergence loss without reduction, for a log-probability
      `input` and a probability `target`: target * (log target - input), where 0 * log 0 is 0. It
      vanishes where the input is the target's own logarithm. */
  function KlDivTerm(k: Kernels, input: real, target: real): (r: real)
    ensures target == 0.0 ==> r == 0.0
    ensures input == k.log(target) ==> r == 0.0
  {
    (if target == 0.0 then 0.0 else target * k.log(target)) - target * input
  }

  function JsCell(k: Kernels, pHat: real, pExp: real): real {
    var average := (pHat + pExp) / 2.0;
    (KlDivTerm(k, k.log(average), pHat) + KlDivTerm(k, k.log(average), pExp)) / 2.0
  }

  predicate SameShape(a: Matrix, b: Matrix) {
    a.rows == b.rows && a.cols == b.cols
  }

  predicate SameShape3(a: Tensor3, b: Tensor3) {
    a.d0 == b.d0 && a.d1 == b.d1 && a.d2 == b.d2
  }

  /** "kl": softmax both over axis 1, then KL(p_exp || p_hat) cell by cell. */
  function KlScores(k: Kernels, exp: Matrix, hat: Matrix): (r: Matrix)
    requires ExpPositive(k) && exp.Valid() && hat.Valid() && SameShape(exp, hat)
    ensures r.Valid() && SameShape(r, exp)
  {
    var pHat := SoftmaxRows(k, hat);
    var pExp := SoftmaxRows(k, exp);
    Matrix(exp.rows, exp.cols, seq(exp.rows, b requires 0 <= b < exp.rows =>
      seq(exp.cols, j requires 0 <= j < exp.cols => KlDivTerm(k, k.log(pHat.at[b][j]), pExp.at[b][j]))))
  }

  /** "js": softmax both over axis 1, then the mean of the two KL terms against their average. */
  function JsScores(k: Kernels, exp: Matrix, hat: Matrix): (r: Matrix)
    requires ExpPositive(k) && exp.Valid() && hat.Valid() && SameShape(exp, hat)
    ensures r.Valid() && SameShape(r, exp)
  {
    var pHat := SoftmaxRows(k, hat);
    var pExp := SoftmaxRows(k, exp);
    Matrix(exp.rows, exp.cols, seq(exp.rows, b requires 0 <= b < exp.rows =>
      seq(exp.cols, j requires 0 <= j < exp.cols => JsCell(k, pHat.at[b][j], pExp.at[b][j]))))
  }

  /** "pd": |p_y_hat - p_y_exp| summed over the last axis, giving (batch, horizon). */
  function PdScores(exp: Tensor3, hat: Tensor3): (r: Matrix)
    requires exp.Valid() && hat.Valid() && SameShape3(exp, hat)
    ensures r.Valid() && r.rows == exp.d0 && r.cols == exp.d1
  {
    Matrix(exp.d0, exp.d1, seq(exp.d0, b requires 0 <= b < exp.d0 =>
      seq(exp.d1, t requires 0 <= t < exp.d1 =>
        Sum(seq(exp.d2, c requires 0 <= c < exp.d2 => Abs(hat.at[b][t][c] - exp.at[b][t][c]))))))
  }

  /** `_compute_metric(p_y_exp, p_y_hat)`. The metric name is checked before anything else;
      responses of a kind or shape the metric does not take fail. */
  function ComputeMetric(metric: string, k: Kernels, yExp: Response, yHat: Response): (r: Result<Matrix>)
    requires ExpPositive(k) && yExp.Valid() && yHat.Valid()
    ensures r == Err(UnknownMetric(metric)) <==> metric !in {"kl", "js", "pd"}
    ensures r.Ok? <==>
      || (metric in {"kl", "js"} && yExp.Probs? && yHat.Probs? && SameShape(yExp.p, yHat.p))
      || (metric == "pd" && yExp.Horizon? && yHat.Horizon? && SameShape3(yExp.h, yHat.h))
    ensures r.Ok? ==> r.value.Valid() && r.value.rows == yExp.Batch() && r.value.cols == yExp.Axis1()
  {
    if metric == "kl" then
      if yExp.Probs? && yHat.Probs? && SameShape(yExp.p, yHat.p) then Ok(KlScores(k, yExp.p, yHat.p))
      else Err(ShapeMismatch)
    else if metric == "js" then
      if yExp.Probs? && yHat.Probs? && SameShape(yExp.p, yHat.p) then Ok(JsScores(k, yExp.p, yHat.p))
      else Err(ShapeMismatch)
    else if metric == "pd" then
      if yExp.Horizon? && yHat.Horizon? && SameShape3(yExp.h, yHat.h) then Ok(PdScores(yExp.h, yHat.h))
      else Err(ShapeMismatch)
    else
      Err(UnknownMetric(metric))
  }

  /** The Jensen-Shannon score does not depend on which response is the baseline. */
  lemma JsSymmetric(k: Kernels, a: Response, b: Response)
    requires ExpPositive(k) && a.Valid() && b.Valid()
    ensures ComputeMetric("js", k, a, b) == ComputeMetric("js", k, b, a)
  {
    if a.Probs? && b.Probs? && SameShape(a.p, b.p) {
      var ab := JsScores(k, a.p, b.p);
      var ba := JsScores(k, b.p, a.p);
      var pa := SoftmaxRows(k, a.p);
      var pb := SoftmaxRows(k, b.p);
      forall r, j | 0 <= r < ab.rows && 0 <= j < ab.cols ensures ab.at[r][j] == ba.at[r][j] {
        assert ab.at[r][j] == JsCell(k, pb.at[r][j], pa.at[r][j]);
        assert ba.at[r][j] == JsCell(k, pa.at[r][j], pb.at[r][j]);
        assert (pb.at[r][j] + pa.at[r][j]) / 2.0 == (pa.at[r][j] + pb.at[r][j]) / 2.0;
      }
      MatrixExt(ab, ba);
    }
  }

  /** Every pointwise-difference score is non-negative. */
  lemma PdNonNegative(k: Kernels, a: Response, b: Response)
    requires ExpPositive(k) && a.Valid() && b.Valid()
    ensures var r := ComputeMetric("pd", k, a, b);
      r.Ok? ==> forall i, t | 0 <= i < r.value.rows && 0 <= t < r.value.cols :: r.value.at[i][t] >= 0.0
  {
    var r := ComputeMetric("pd", k, a, b);
    if r.Ok? {
      forall i, t | 0 <= i < r.value.rows && 0 <= t < r.value.cols ensures r.value.at[i][t] >= 0.0 {
        var d := seq(a.h.d2, c requires 0 <= c < a.h.d2 => Abs(b.h.at[i][t][c] - a.h.at[i][t][c]));
        assert r.value.at[i][t] == Sum(d);
        SumNonNegative(d);
      }
    }
  }

  /** Comparing a response with itself scores zero everywhere, whichever metric is used. */
  lemma IdenticalResponsesScoreZero(metric: string, k: Kernels, y: Response)
    requires ExpPositive(k) && y.Valid()
    ensures var r := ComputeMetric(metric, k, y, y);
      r.Ok? ==> forall i, j | 0 <= i < r.value.rows && 0 <= j < r.value.cols :: r.value.at[i][j] == 0.0
  {
    var r := ComputeMetric(metric, k, y, y);
    if r.Ok? {
      forall i, j | 0 <= i < r.value.rows && 0 <= j < r.value.cols ensures r.value.at[i][j] == 0.0 {
        if metric == "pd" {
          var d := seq(y.h.d2, c requires 0 <= c < y.h.d2 => Abs(y.h.at[i][j][c] - y.h.at[i][j][c]));
          assert r.value.at[i][j] == Sum(d);
          forall c | 0 <= c < |d| ensures d[c] == 0.0 {
            var x := y.h.at[i][j][c];
            assert d[c] == Abs(x - x);
          }
          SumZero(d);
        } else {
          var p := SoftmaxRows(k, y.p).at[i][j];
          assert (p + p) / 2.0 == p;
        }
      }
    }
  }

  /** The metric the constructor picks accepts any two responses the formatter produces for the same
      task, as long as they have the same shape. */
  lemma ChosenMetricAcceptsFormattedResponses(task: string, k: Kernels, a: Response, b: Response)
    requires ExpPositive(k) && a.Valid() && b.Valid()
    requires a.Probs? <==> task == Classification
    requires b.Probs? <==> task == Classification
    requires a.Probs? ==> SameShape(a.p, b.p)
    requires a.Horizon? ==> SameShape3(a.h, b.h)
    ensures ComputeMetric(MetricFor(task), k, a, b).Ok?
  {
  }
}
