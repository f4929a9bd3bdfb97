/** How a raw model output becomes the response that the metric compares (`format_output`). */
module Formatting {
  import opened Tensors
  import opened Numerics

  /** What the model callable returns: class logits (batch, classes) or a forecast
      (batch, time, channels). */
  datatype RawOutput = Logits(m: Matrix) | Series(x: Tensor3)

  /** What the metric compares: class probabilities or the forecast horizon. */
  datatype Response = Probs(p: Matrix) | Horizon(h: Tensor3) {
    predicate Valid() {
      match this
      case Probs(p) => p.Valid()
      case Horizon(h) => h.Valid()
    }

    /** The extent of axis 0, the batch. */
    function Batch(): nat {
      match this
      case Probs(p) => p.rows
      case Horizon(h) => h.d0
    }

    /** The extent of axis 1 (`y_original.shape[1]`): the classes, or the horizon steps. */
    function Axis1(): nat {
      match this
      case Probs(p) => p.cols
      case Horizon(h) => h.d1
    }
  }

  predicate RawValid(raw: RawOutput) {
    match raw
    case Logits(m) => m.Valid()
    case Series(x) => x.Valid()
  }

  const Classification: string := "classification"

  /** Start of the Python slice `[start:]` on an axis of length n (negative starts count from the end
      and are clamped at 0; positive starts are clamped at n). */
  function SliceStart(n: nat, start: int): (s: nat)
    ensures s <= n
    ensures 0 <= start <= n ==> s == start
    ensures start < 0 && n + start >= 0 ==> s == n + start
    ensures n + start < 0 ==> s == 0
    ensures start > n ==> s == n
  {
    if start < 0 then (if n + start < 0 then 0 else n + start)
    else if start > n then n else start
  }

  /** `outputs[:, -pred_len:, f_dim:]` with `f_dim = -1` when features is "MS", else 0. */
  function ForecastSlice(x: Tensor3, predLen: int, features: string): (h: Tensor3)
    requires x.Valid()
    ensures h.Valid() && h.d0 == x.d0
  {
    var s := SliceStart(x.d1, -predLen);
    var c := SliceStart(x.d2, if features == "MS" then -1 else 0);
    Tensor3(x.d0, x.d1 - s, x.d2 - c,
      seq(x.d0, b requires 0 <= b < x.d0 =>
        seq(x.d1 - s, t requires 0 <= t < x.d1 - s =>
          seq(x.d2 - c, g requires 0 <= g < x.d2 - c => x.at[b][s + t][c + g]))))
  }

  /** `format_output`: softmax over axis 1 for classification; for every other task the last
      `pred_len` steps and the output channels. An output of the rank the task does not take fails. */
  function FormatOutput(task: string, features: string, predLen: int, k: Kernels, raw: RawOutput)
    : (r: Result<Response>)
    requires ExpPositive(k) && RawValid(raw)
    ensures r.Ok? <==> (task == Classification <==> raw.Logits?)
    ensures r.Ok? ==> r.value.Valid() && (r.value.Probs? <==> task == Classification)
  {
    if task == Classification then
      match raw
      case Logits(m) => Ok(Probs(SoftmaxRows(k, m)))
      case Series(_) => Err(ShapeMismatch)
    else
      match raw
      case Series(x) => Ok(Horizon(ForecastSlice(x, predLen, features)))
      case Logits(_) => Err(ShapeMismatch)
  }

  /** Classification keeps the shape of the logits and turns every row into a distribution. */
  lemma ClassificationGivesDistributions(features: string, predLen: int, k: Kernels, m: Matrix)
    requires ExpPositive(k) && m.Valid()
    ensures var r := FormatOutput(Classification, features, predLen, k, Logits(m));
      && r.Ok? && r.value.Probs?
      && r.value.p.rows == m.rows && r.value.p.cols == m.cols
      && (m.cols > 0 ==> forall b | 0 <= b < m.rows ::
            Sum(r.value.p.at[b]) == 1.0 && forall j | 0 <= j < m.cols :: r.value.p.at[b][j] > 0.0)
  {
    var p := SoftmaxRows(k, m);
    if m.cols > 0 {
      forall b | 0 <= b < m.rows
        ensures Sum(p.at[b]) == 1.0 && forall j | 0 <= j < m.cols :: p.at[b][j] > 0.0
      {
        assert p.at[b] == Softmax(k, m.at[b]);
        SoftmaxIsDistribution(k, m.at[b]);
      }
    }
  }

  /** Forecasting with 0 < pred_len <= length keeps exactly the last pred_len steps; with "MS" only
      the last channel, otherwise every channel, each cell unchanged. */
  lemma ForecastKeepsLastSteps(task: string, features: string, predLen: int, k: Kernels, x: Tensor3)
    requires ExpPositive(k) && x.Valid() && task != Classification
    requires 0 < predLen <= x.d1
    ensures var r := FormatOutput(task, features, predLen, k, Series(x));
      && r.Ok? && r.value.Horizon?
      && r.value.h.d0 == x.d0 && r.value.h.d1 == predLen
      && (features == "MS" && x.d2 > 0 ==>
            r.value.h.d2 == 1
            && forall b, t | 0 <= b < x.d0 && 0 <= t < predLen ::
                 r.value.h.at[b][t][0] == x.at[b][x.d1 - predLen + t][x.d2 - 1])
      && (features != "MS" ==>
            r.value.h.d2 == x.d2
            && forall b, t, g | 0 <= b < x.d0 && 0 <= t < predLen && 0 <= g < x.d2 ::
                 r.value.h.at[b][t][g] == x.at[b][x.d1 - predLen + t][g])
  {
  }

  /** A pred_len of 0 slices `[-0:]`, which is the whole time axis. */
  lemma ZeroPredLenKeepsAllSteps(task: string, features: string, k: Kernels, x: Tensor3)
    requires ExpPositive(k) && x.Valid() && task != Classification
    ensures var r := FormatOutput(task, features, 0, k, Series(x));
      r.Ok? && r.value.Horizon? && r.value.h.d1 == x.d1
  {
  }
}
