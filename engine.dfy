/** The attribution engine (`WinIT`): it keeps the model, the reference data and the options; an
    `attribute` call runs the model once unmasked, then sweeps every input (see module Sweep) and
    returns the post-processed buffers. */
module Engine {
  import opened Tensors
  import opened Numerics
  import opened Formatting
  import opened Metrics
  import opened Sampling
  import opened Postprocess
  import opened Sweep

  /** The options the engine reads from its configuration object. */
  datatype Args = Args(seqLen: nat, taskName: string, seed: int, features: string, predLen: int)

  /** The model callable: the inputs and the additional forward arguments in, one raw output out. */
  type Model = (seq<Tensor3>, seq<Tensor3>) -> RawOutput

  /** The model returns well-formed (rectangular) tensors. */
  ghost predicate ModelWellFormed(model: Model) {
    forall inputs, aux :: RawValid(model(inputs, aux))
  }

  /** One call of `attribute`: the inputs (a bare tensor is a one-element sequence), the additional
      forward arguments, and the indices the random generator draws for every (input, feature). */
  datatype Call = Call(inputs: seq<Tensor3>, aux: seq<Tensor3>, draws: seq<seq<seq<nat>>>)

  /** What `attribute` returns: the bare tensor for one input, otherwise a tuple in input order. */
  datatype Attributions = Single(one: Tensor4) | Several(each: seq<Tensor4>)

  /** The inputs handed to the model at a masking step: input i replaced by its masked clone, every
      other input passed through unchanged. */
  function Perturbed(inputs: seq<Tensor3>, i: nat, f: nat, t: nat, cf: Matrix): (p: seq<Tensor3>)
    requires i < |inputs| && inputs[i].Valid() && cf.Valid()
    requires cf.rows == inputs[i].d0 && inputs[i].d1 <= cf.cols
    ensures |p| == |inputs|
    ensures forall j | 0 <= j < |inputs| && j != i :: p[j] == inputs[j]
    ensures p[i] == Masked(inputs[i], f, t, cf)
  {
    inputs[i := Masked(inputs[i], f, t, cf)]
  }

  class WinIT {
    const model: Model
    const data: RefData
    const args: Args
    const seqLen: nat
    const taskName: string
    const metric: string
    /** The tensor library's exponential and logarithm. */
    const kernels: Kernels

    ghost predicate Valid() {
      && ExpPositive(kernels) && DataValid(data) && ModelWellFormed(model)
      && seqLen == args.seqLen && taskName == args.taskName
      && metric == MetricFor(taskName)
    }

    /** `__init__`: keeps the model, data and options, and picks Jensen-Shannon for classification and
        the pointwise difference for every other task. */
    constructor(model: Model, data: RefData, args: Args, kernels: Kernels)
      requires ExpPositive(kernels) && DataValid(data) && ModelWellFormed(model)
      ensures Valid()
      ensures this.model == model && this.data == data && this.args == args && this.kernels == kernels
      ensures metric == "js" <==> args.taskName == Classification
      ensures metric == "pd" <==> args.taskName != Classification
    {
      this.model := model;
      this.args := args;
      this.seqLen := args.seqLen;
      this.taskName := args.taskName;
      this.data := data;
      this.kernels := kernels;
      this.metric := MetricFor(args.taskName);
    }

    /** What `attribute` demands of a call: rectangular inputs and, for every (input, feature), as
        many drawn indices as `generate_counterfactuals` requests, each inside the pool. */
    ghost predicate CallOk(c: Call)
      requires Valid()
    {
      && (forall i | 0 <= i < |c.inputs| :: c.inputs[i].Valid())
      && |c.draws| == |c.inputs|
      && (forall i | 0 <= i < |c.inputs| :: |c.draws[i]| == c.inputs[i].d2)
      && (forall i, f | 0 <= i < |c.inputs| && 0 <= f < c.inputs[i].d2 ::
            && |c.draws[i][f]| == c.inputs[i].d0 * seqLen
            && DrawsFit(Pool(data, Scope(c, i), f), c.draws[i][f]))
    }

    /** Which pool the counterfactuals of input i come from: the whole data set for a single input,
        the input's own reference data otherwise. */
    function Scope(c: Call, i: nat): (r: Option<nat>)
      ensures r.None? <==> |c.inputs| == 1
      ensures r.Some? ==> r.value == i
    {
      if |c.inputs| == 1 then None else Some(i)
    }

    /** The counterfactuals for feature f of input i: (batch, configured sequence length). */
    function Counterfactuals(c: Call, i: nat, f: nat): (r: Result<Matrix>)
      requires Valid() && CallOk(c) && i < |c.inputs| && f < c.inputs[i].d2
      ensures r.Ok? ==> r.value.Valid() && r.value.rows == c.inputs[i].d0 && r.value.cols == seqLen
    {
      GenerateCounterfactuals(data, Scope(c, i), f, c.inputs[i].d0, seqLen, c.draws[i][f])
    }

    /** Every counterfactual is a value of feature f in the reference data: in the whole data set when
        the call has one input, in input i's own array when it has several. */
    lemma CounterfactualsFromScope(c: Call, i: nat, f: nat)
      requires Valid() && CallOk(c) && i < |c.inputs| && f < c.inputs[i].d2
      ensures var r := Counterfactuals(c, i, f);
        r.Ok? ==>
          if |c.inputs| == 1 then
            && data.Whole? && f < data.x.d2
            && forall b, s | 0 <= b < c.inputs[i].d0 && 0 <= s < seqLen ::
                 InFeature(data.x, f, r.value.at[b][s])
          else
            && data.PerInput? && i < |data.xs| && f < data.xs[i].d2
            && forall b, s | 0 <= b < c.inputs[i].d0 && 0 <= s < seqLen ::
                 InFeature(data.xs[i], f, r.value.at[b][s])
    {
      CounterfactualsComeFromFeature(data, Scope(c, i), f, c.inputs[i].d0, seqLen, c.draws[i][f]);
    }

    /** The unmasked response `y_original`. */
    function BaselineResponse(c: Call): (r: Result<Response>)
      requires Valid()
      ensures r.Ok? ==> r.value.Valid() && (r.value.Probs? <==> taskName == Classification)
    {
      FormatOutput(taskName, args.features, args.predLen, kernels, model(c.inputs, c.aux))
    }

    /** One masking step: format the model's response to the perturbed inputs, score it against the
        baseline, and clip the score; the score must fit the (batch, output) slab of the buffer. */
    function Score(inputsHat: seq<Tensor3>, aux: seq<Tensor3>, y0: Response, batch: nat): (r: Result<Matrix>)
      requires Valid() && y0.Valid()
      ensures r.Ok? ==> r.value.Valid() && r.value.rows == batch && r.value.cols == y0.Axis1()
      ensures r.Ok? ==> forall a, b | 0 <= a < batch && 0 <= b < y0.Axis1() ::
        -ClipBound <= r.value.at[a][b] <= ClipBound
    {
      match FormatOutput(taskName, args.features, args.predLen, kernels, model(inputsHat, aux))
      case Err(e) => Err(e)
      case Ok(yHat) =>
        match ComputeMetric(metric, kernels, y0, yHat)
        case Err(e) => Err(e)
        case Ok(s) => if s.rows == batch then Ok(ClipAll(s)) else Err(ShapeMismatch)
    }

    /** The score of masking feature f of input i from step t on; fails when the counterfactuals or
        the step fail, and when the input is longer than the configured sequence length (the
        counterfactuals have only that many columns, so reading one of them raises). */
    function Step(c: Call, y0: Response, i: nat, f: nat, t: nat): (r: Result<Matrix>)
      requires Valid() && CallOk(c) && y0.Valid() && i < |c.inputs| && f < c.inputs[i].d2
      requires t < c.inputs[i].d1
      ensures r.Ok? ==> r.value.Valid() && r.value.rows == c.inputs[i].d0 && r.value.cols == y0.Axis1()
      ensures r.Ok? ==> c.inputs[i].d1 <= seqLen
    {
      match Counterfactuals(c, i, f)
      case Err(e) => Err(e)
      case Ok(cf) =>
        if !CfFits(c.inputs[i], cf) then Err(ShapeMismatch)
        else Score(Perturbed(c.inputs, i, f, t, cf), c.aux, y0, c.inputs[i].d0)
    }

    /** The counterfactual draw of the sweep of input i, feature by feature. */
    function Sampler(c: Call, i: nat): Sampler
      requires Valid() && CallOk(c) && i < |c.inputs|
    {
      (f: nat) => if f < c.inputs[i].d2 then Counterfactuals(c, i, f) else Err(ShapeMismatch)
    }

    /** The masking step of the sweep of input i: the clone in place of input i, every other input and
        the forward arguments unchanged, scored against the baseline y0. */
    function Scorer(c: Call, y0: Response, i: nat): Scorer
      requires Valid() && y0.Valid() && i < |c.inputs|
    {
      xHat => Score(c.inputs[i := xHat], c.aux, y0, c.inputs[i].d0)
    }

    /** The sweep's step is the engine's step: counterfactuals of feature f, then the score of the
        inputs with input i masked from step t on. */
    lemma StepAgrees(c: Call, y0: Response, i: nat, f: nat, t: nat)
      requires Valid() && CallOk(c) && y0.Valid() && i < |c.inputs| && f < c.inputs[i].d2
      requires t < c.inputs[i].d1
      ensures StepScore(c.inputs[i], y0.Axis1(), Sampler(c, i), Scorer(c, y0, i), f, t) == Step(c, y0, i, f, t)
    {
      assert Sampler(c, i)(f) == Counterfactuals(c, i, f);
    }

    /** Input i is swept without an exception. */
    ghost predicate InputOk(c: Call, y0: Response, i: nat)
      requires Valid() && CallOk(c) && y0.Valid() && i < |c.inputs|
    {
      InputSwept(c.inputs[i], y0.Axis1(), Sampler(c, i), Scorer(c, y0, i))
    }

    /** Input i's buffer before post-processing. */
    function RawBuffer(c: Call, y0: Response, i: nat): (x: Tensor4)
      requires Valid() && CallOk(c) && y0.Valid() && i < |c.inputs|
      ensures x.Valid()
      ensures x.d0 == c.inputs[i].d0 && x.d1 == y0.Axis1() && x.d2 == c.inputs[i].d1 && x.d3 == c.inputs[i].d2
    {
      Raw(c.inputs[i], y0.Axis1(), Sampler(c, i), Scorer(c, y0, i))
    }

    /** An input is swept without an exception exactly when the counterfactuals of every feature are
        drawn and every masking step scores. */
    lemma InputOkMeansEveryStep(c: Call, y0: Response, i: nat)
      requires Valid() && CallOk(c) && y0.Valid() && i < |c.inputs|
      ensures InputOk(c, y0, i) <==>
        forall f | 0 <= f < c.inputs[i].d2 ::
          Counterfactuals(c, i, f).Ok? && forall t | 0 <= t < c.inputs[i].d1 :: Step(c, y0, i, f, t).Ok?
    {
      var x := c.inputs[i];
      forall f | 0 <= f < x.d2
        ensures FeatureSwept(x, y0.Axis1(), Sampler(c, i), Scorer(c, y0, i), f) <==>
          Counterfactuals(c, i, f).Ok? && forall t | 0 <= t < x.d1 :: Step(c, y0, i, f, t).Ok?
      {
        assert Sampler(c, i)(f) == Counterfactuals(c, i, f);
        forall t | 0 <= t < x.d1
          ensures StepScore(x, y0.Axis1(), Sampler(c, i), Scorer(c, y0, i), f, t) == Step(c, y0, i, f, t)
        {
          StepAgrees(c, y0, i, f, t);
        }
      }
      assert InputOk(c, y0, i) == InputSwept(x, y0.Axis1(), Sampler(c, i), Scorer(c, y0, i));
    }

    /** Cell (a, b, t, g) of the raw buffer is cell (a, b) of the score of masking feature g from step
        t on. */
    lemma RawBufferHoldsSteps(c: Call, y0: Response, i: nat, a: nat, b: nat, t: nat, g: nat)
      requires Valid() && CallOk(c) && y0.Valid() && i < |c.inputs|
      requires a < c.inputs[i].d0 && b < y0.Axis1() && t < c.inputs[i].d1 && g < c.inputs[i].d2
      requires Step(c, y0, i, g, t).Ok?
      ensures RawBuffer(c, y0, i).at[a][b][t][g] == Step(c, y0, i, g, t).value.at[a][b]
    {
      StepAgrees(c, y0, i, g, t);
    }

    /** Every attribution `attribute` computes, before `attributions_fn`, lies within twice the clip
        bound: each stored score is clipped, and the difference along time subtracts two of them. */
    lemma AttributionsBounded(c: Call, y0: Response, i: nat)
      requires Valid() && CallOk(c) && y0.Valid() && i < |c.inputs|
      ensures Within(DiffFlip(RawBuffer(c, y0, i)), 2.0 * ClipBound)
    {
      var score := Scorer(c, y0, i);
      forall y
        ensures score(y).Ok? ==>
          forall a, b | 0 <= a < |score(y).value.at| && 0 <= b < |score(y).value.at[a]| ::
            -ClipBound <= score(y).value.at[a][b] <= ClipBound
      {
        assert score(y) == Score(c.inputs[i := y], c.aux, y0, c.inputs[i].d0);
      }
      RawWithin(c.inputs[i], y0.Axis1(), Sampler(c, i), score, ClipBound);
      DiffFlipDoublesBound(RawBuffer(c, y0, i), ClipBound);
    }

    /** The model does not read feature f of input i: changing that feature alone leaves its output
        unchanged. */
    ghost predicate IgnoresFeature(c: Call, i: nat, f: nat)
      requires i < |c.inputs|
    {
      forall y | SameExceptFeature(c.inputs[i], y, f) :: model(c.inputs[i := y], c.aux) == model(c.inputs, c.aux)
    }

    /** A feature the model ignores is attributed nothing at any step: every masked run reproduces the
        baseline, whose distance to itself is zero. */
    lemma IgnoredFeatureGetsZero(c: Call, i: nat, f: nat)
      requires Valid() && CallOk(c) && BaselineResponse(c).Ok? && i < |c.inputs| && f < c.inputs[i].d2
      requires IgnoresFeature(c, i, f)
      ensures var y0 := BaselineResponse(c).value;
        forall a, b, t | 0 <= a < c.inputs[i].d0 && 0 <= b < y0.Axis1() && 0 <= t < c.inputs[i].d1 ::
          DiffFlip(RawBuffer(c, y0, i)).at[a][b][t][f] == 0.0
    {
      var y0 := BaselineResponse(c).value;
      var x := c.inputs[i];
      var score := Scorer(c, y0, i);
      assert c.inputs[i := x] == c.inputs;
      forall y | SameExceptFeature(x, y, f) ensures score(y) == score(x) {
        assert model(c.inputs[i := y], c.aux) == model(c.inputs, c.aux);
      }
      IdenticalResponsesScoreZero(metric, kernels, y0);
      var m := ComputeMetric(metric, kernels, y0, y0);
      if score(x).Ok? {
        assert score(x) == Ok(ClipAll(m.value));
      }
      BlindFeatureGetsZero(x, y0.Axis1(), Sampler(c, i), score, f);
    }

    /** `attribute` returns instead of raising. */
    ghost predicate SweepOk(c: Call)
      requires Valid() && CallOk(c)
    {
      && BaselineResponse(c).Ok?
      && forall i | 0 <= i < |c.inputs| :: InputOk(c, BaselineResponse(c).value, i)
    }

    /** The attributions of every input, swept in order against the baseline y0, each passed through
        `attributions_fn`. */
    ghost function AllAttributions(c: Call, y0: Response, fn: Option<Tensor4 -> Tensor4>): (r: seq<Tensor4>)
      requires Valid() && CallOk(c) && y0.Valid()
      requires forall i | 0 <= i < |c.inputs| :: InputOk(c, y0, i)
      ensures |r| == |c.inputs|
    {
      seq(|c.inputs|, i requires 0 <= i < |c.inputs| => Finish(fn, DiffFlip(RawBuffer(c, y0, i))))
    }

    /** The loop over the inputs of `attribute`, with the draw and the scoring of input i bound to
        this engine, this call and the baseline y0. */
    method SweepInputs(c: Call, y0: Response, fn: Option<Tensor4 -> Tensor4>)
      returns (r: Result<seq<Tensor4>>, ghost runs: seq<seq<seq<Probe>>>)
      requires Valid() && CallOk(c) && y0.Valid()
      ensures r.Ok? <==> forall i | 0 <= i < |c.inputs| :: InputOk(c, y0, i)
      ensures r.Ok? ==> r.value == AllAttributions(c, y0, fn)
      ensures r.Ok? ==> runs == AllRuns(c.inputs)
    {
      var samplers := seq(|c.inputs|, i requires 0 <= i < |c.inputs| => Sampler(c, i));
      var scorers := seq(|c.inputs|, i requires 0 <= i < |c.inputs| => Scorer(c, y0, i));
      r, runs := SweepAll(c.inputs, y0.Axis1(), samplers, scorers, fn);
      forall i | 0 <= i < |c.inputs|
        ensures InputOk(c, y0, i) == InputSwept(c.inputs[i], y0.Axis1(), samplers[i], scorers[i])
      {
      }
    }

    /** What a successful `attribute` returns. */
    ghost function Expected(c: Call, fn: Option<Tensor4 -> Tensor4>): Attributions
      requires Valid() && CallOk(c) && SweepOk(c)
    {
      var all := AllAttributions(c, BaselineResponse(c).value, fn);
      if |all| == 1 then Single(all[0]) else Several(all)
    }

    /** `attribute(inputs, additional_forward_args, attributions_fn)`: the baseline run, then every
        input swept in order; one input gives the bare tensor, any other number a tuple. */
    method Attribute(c: Call, fn: Option<Tensor4 -> Tensor4>) returns (r: Result<Attributions>, ghost probes: seq<Probe>)
      requires Valid() && CallOk(c)
      ensures r.Ok? <==> SweepOk(c)
      ensures r.Ok? ==> r.value == Expected(c, fn)
      ensures r.Ok? ==> probes == [Unmasked] + Schedule(c.inputs, |c.inputs|)
    {
      probes := [Unmasked];
      var y := BaselineResponse(c);
      if y.Err? {
        return Err(y.error), probes;
      }
      var all, runs := SweepInputs(c, y.value, fn);
      probes := probes + Concat(runs);
      assert AllRuns(c.inputs)[..|c.inputs|] == AllRuns(c.inputs);
      if all.Err? {
        return Err(all.error), probes;
      }
      if |all.value| == 1 {
        r := Ok(Single(all.value[0]));
      } else {
        r := Ok(Several(all.value));
      }
    }
  }
}
