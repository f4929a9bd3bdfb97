# WinIT attribution engine — a Dafny model

This project models the WinIT attribution engine (`attrs/winIT.py`, class `WinIT`). WinIT is a
perturbation method for explaining time-series models. It works like this:

- It runs the model once on the unmasked inputs to get a baseline response.
- For every input and every feature, it clones the input. It then walks time from the last step
  down to the first, overwriting one more step of that feature each time with counterfactual
  values drawn from the reference data.
- After each overwrite it reruns the model and scores the new response against the baseline. The
  score is Jensen-Shannon divergence for classification and a pointwise absolute difference
  otherwise. It clips the score to [-1e6, 1e6] and stores it in a zeroed buffer of shape
  (batch, output, time, feature).
- Finally it differences that buffer along time and flips it along time. One input gives back a
  bare tensor; several inputs give back a tuple.

The modules follow the parts of the class:

- `Tensors`: shape-carrying matrices and rank-3/rank-4 tensors, and the `Result` type. Exceptions
  become `Err` values: an unknown metric, a shape mismatch, or a draw from an empty pool.
- `Numerics`: sums, softmax, and the clip. The library's `exp` and `log` are uninterpreted
  functions. The only thing assumed about them is that `exp` is positive.
- `Formatting`: `format_output`.
- `Metrics`: `_compute_metric` and the constructor's choice of metric.
- `Sampling`: `generate_counterfactuals`. The indices the random generator draws are an argument.
- `Postprocess`: the difference-then-flip post-processing. It also has the marginal attribution
  that this post-processing is meant to produce (see "Findings").
- `Sweep`: the two inner loops of `attribute` for one input, and the loop over the inputs.
  - They work over a real `array3` clone and a real `array4` buffer.
  - Scoring and drawing are function values: `Scorer` scores a masked clone, `Sampler` draws a
    feature's counterfactuals.
  - Every method is proved against the spec functions `Masked`, `StepScore`, `Raw` and `Partial`.
  - Ghost `probes`/`runs` outputs record the model invocations in the order they happen.
- `Engine`: the class `WinIT`.
  - The model callable, the reference data, the options and the metric are `const` fields.
  - `Attribute` binds the sweep's `Scorer` and `Sampler` to the model, the call and the baseline,
    and is proved against the ghost function `Expected`.

## Model

| member | source | states |
|---|---|---|
| Engine.WinIT.constructor | attrs/winIT.py:12-23 | keeps model, data and options; the metric is "js" exactly for the classification task and "pd" for every other task |
| Metrics.MetricFor | attrs/winIT.py:20-23 | "js" iff the task is classification, "pd" iff it is not |
| Metrics.ComputeMetric | attrs/winIT.py:25-64 | an unknown metric name (and only that) raises UnknownMetric; the result exists iff the responses have the kind and shape the metric takes; the scores are (batch, axis 1) |
| Metrics.KlDivTerm | attrs/winIT.py:45-54 | one cell of the unreduced KL loss is 0 where the target is 0 and 0 where the input is the target's own logarithm |
| Metrics.KlScores | attrs/winIT.py:41-47 | the KL branch gives one score per (batch, class) cell |
| Metrics.JsScores | attrs/winIT.py:48-55 | the JS branch gives one score per (batch, class) cell |
| Metrics.PdScores | attrs/winIT.py:56-62 | the absolute difference summed over the last axis gives a (batch, horizon) matrix |
| Metrics.JsSymmetric | attrs/winIT.py:48-55 | the JS score is the same with baseline and perturbed response swapped |
| Metrics.PdNonNegative | attrs/winIT.py:56-62 | every pd score is non-negative |
| Metrics.IdenticalResponsesScoreZero | attrs/winIT.py:41-62 | whatever the metric, a response compared with itself scores 0 in every cell |
| Metrics.ChosenMetricAcceptsFormattedResponses | attrs/winIT.py:20-23 | the metric the constructor picks accepts any two same-shaped responses that the formatter produces for that task |
| Numerics.SoftmaxIsDistribution | attrs/winIT.py:79 | softmax gives positive entries that sum to 1 |
| Numerics.SoftmaxRows | attrs/winIT.py:79 | softmax over axis 1 keeps the matrix shape |
| Numerics.Clip | attrs/winIT.py:136 | the clipped score lies in [-1e6, 1e6]; it equals the score when the score already lies there, and a score outside goes to the nearer bound |
| Numerics.ClipAll | attrs/winIT.py:136 | clipping a matrix clips every cell and keeps the shape |
| Numerics.SumNonNegative | attrs/winIT.py:62 | a sum of non-negative terms is non-negative |
| Formatting.SliceStart | attrs/winIT.py:82 | the start of a Python `[start:]` slice: negative starts count from the end, and starts are clamped to the axis |
| Formatting.ForecastSlice | attrs/winIT.py:81-82 | the forecast slice keeps the batch axis |
| Formatting.FormatOutput | attrs/winIT.py:77-83 | succeeds iff the output kind matches the task; classification gives probabilities, any other task gives a horizon |
| Formatting.ClassificationGivesDistributions | attrs/winIT.py:78-79 | classification keeps the logits' shape and turns every row into a distribution |
| Formatting.ForecastKeepsLastSteps | attrs/winIT.py:80-83 | for 0 < pred_len <= length, exactly the last pred_len steps are kept, each cell unchanged; only the last channel is kept for "MS", every channel otherwise |
| Formatting.ZeroPredLenKeepsAllSteps | attrs/winIT.py:82 | pred_len 0 slices `[-0:]` and keeps the whole time axis |
| Sampling.Column | attrs/winIT.py:68-70 | every cell of feature f of the array is an entry of its flattened column |
| Sampling.ColumnMembership | attrs/winIT.py:68 | a value is in the flattened feature column iff some cell of that feature holds it |
| Sampling.ColumnAt | attrs/winIT.py:68 | the flattened column is row-major: cell (a, b) sits at a * width + b |
| Sampling.ColumnLength | attrs/winIT.py:68 | the flattened column has rows * width entries |
| Sampling.Pool | attrs/winIT.py:67-70 | succeeds exactly when the index names an array (none named: the data is one array) that has feature f; the pool is then that array's flattened feature column |
| Sampling.Reshape | attrs/winIT.py:73 | the drawn values laid out as a (batch, seq_len) matrix |
| Sampling.ReshapeFollowsDraws | attrs/winIT.py:72-73 | entry (b, s) of the reshaped draw is the pool value at the (b * seq_len + s)-th drawn index |
| Sampling.ReshapeDrawsFromPool | attrs/winIT.py:72-73 | every entry of the reshaped draw is a pool value |
| Sampling.GenerateCounterfactuals | attrs/winIT.py:66-75 | succeeds iff the pool exists and is non-empty (or nothing is drawn); the result is (batch, configured seq_len), every entry comes from the pool, and entry (b, s) is the pool value at the (b * seq_len + s)-th drawn index |
| Sampling.CounterfactualsComeFromFeature | attrs/winIT.py:66-75 | every counterfactual is a value of that feature somewhere in the array it was drawn from: the whole data set, or the named input's data |
| Sweep.Masked | attrs/winIT.py:122-124 | the clone masked from step t on has the input's shape |
| Sweep.MaskedNothing | attrs/winIT.py:110 | before the first overwrite the clone is the input |
| Sweep.MaskExtends | attrs/winIT.py:122-124 | the mask from step t is the mask from t+1 with column (t, f) overwritten by the counterfactuals, and nothing else changed |
| Sweep.MaskedTouchesOnlyFeature | attrs/winIT.py:124 | masking feature f leaves every other feature of the input unchanged |
| Sweep.CloneInput | attrs/winIT.py:110 | a fresh array holding the input |
| Sweep.WriteColumn | attrs/winIT.py:124 | writing counterfactual column t turns the clone masked from t+1 into the clone masked from t |
| Sweep.StoreSlab | attrs/winIT.py:137 | slab (t, f) of the buffer becomes the score, and every other cell is unchanged |
| Sweep.StepScore | attrs/winIT.py:122-137 | a successful step gives a (batch, output) score that fits the buffer slab |
| Sweep.Raw | attrs/winIT.py:104-106 | the raw buffer has shape (batch, output, time, feature) |
| Sweep.FillStep | attrs/winIT.py:137 | storing the score of step t extends the filled part of feature f down to step t |
| Sweep.NextFeature | attrs/winIT.py:108 | a feature filled down to step 0 is the next feature not yet started |
| Sweep.AllFeaturesFilled | attrs/winIT.py:108-141 | with every feature swept, the buffer holds the score of every (t, f) |
| Sweep.NewBuffer | attrs/winIT.py:104-106 | a fresh zeroed buffer of shape (batch, output, time, feature) |
| Sweep.FeatureSchedule | attrs/winIT.py:122 | one feature's model runs mask from the last step down to step 0 |
| Sweep.FeatureScheduleCount | attrs/winIT.py:122 | in one feature's runs, each step of that feature is masked exactly once, and nothing else is |
| Sweep.InputScheduleCount | attrs/winIT.py:108-122 | in one input's runs, each (feature, step) is masked exactly once, and nothing else is |
| Sweep.InputScheduleSize | attrs/winIT.py:108-122 | one input causes features * steps model runs |
| Sweep.MaskAndStore | attrs/winIT.py:124-137 | one pass of the time loop: the clone gains column t, the result is the step's score, and a successful score fills slab (t, f) |
| Sweep.MaskFromEnd | attrs/winIT.py:122-138 | the time loop succeeds iff every step scores; it leaves feature f filled at every step, and its runs are the feature's schedule |
| Sweep.SweepFeature | attrs/winIT.py:108-141 | one feature succeeds iff its draw succeeds and every step scores; it fills feature f, and its runs are the feature's schedule |
| Sweep.SweepInput | attrs/winIT.py:100-151 | one input succeeds iff every feature is swept; the result is difference-then-flip of the raw buffer, and its runs are the input's schedule |
| Sweep.Finish | attrs/winIT.py:149-151 | without `attributions_fn` the buffer is returned as it is, otherwise `attributions_fn` of it |
| Sweep.SweepAll | attrs/winIT.py:100-151 | the loop over inputs succeeds iff every input is swept; the i-th result is `attributions_fn` of input i's post-processed buffer, and the runs are every input's in order |
| Sweep.ScheduleRunsEachMaskOnce | attrs/winIT.py:100-133 | over the whole sweep, every (input, feature, step) is masked exactly once, and nothing else is |
| Sweep.ScheduleSize | attrs/winIT.py:100-133 | the sweep runs the model the sum over inputs of features * steps times |
| Sweep.RawWithin | attrs/winIT.py:136-137 | scores within a bound give a raw buffer within that bound |
| Sweep.BlindFeatureGetsZero | attrs/winIT.py:122-147 | a feature the scorer cannot see, for an input that scores zero, is attributed 0 at every step |
| Postprocess.DiffTime | attrs/winIT.py:144 | the difference along time keeps the buffer's shape |
| Postprocess.DiffFlip | attrs/winIT.py:144-147 | the post-processing as written keeps the buffer's shape; DiffFlipAt gives each of its cells |
| Postprocess.DiffTimeInPlace | attrs/winIT.py:144 | the in-place subtraction leaves the simultaneous difference: cell t > 0 becomes x[t] - x[t-1] of the old buffer, and cell 0 is kept |
| Postprocess.FlipTimeCopy | attrs/winIT.py:147 | a fresh array holding the buffer with time reversed |
| Postprocess.DiffFlipAt | attrs/winIT.py:144-147 | the returned cell t < T-1 is raw[T-1-t] - raw[T-2-t], and cell T-1 is raw[0] |
| Postprocess.PrefixSumUndoesDiff | attrs/winIT.py:144 | the running sum over time of the differenced series gives back the stored value |
| Postprocess.FlipInvolution | attrs/winIT.py:147 | flipping twice gives back the buffer |
| Postprocess.DiffFlipDoublesBound | attrs/winIT.py:144-147 | difference-then-flip at most doubles the bound on the cells |
| Postprocess.Marginal | attrs/winIT.py:144-147 | the marginal attribution (see Findings) keeps the buffer's shape |
| Postprocess.MarginalSumsToSuffixEffect | attrs/winIT.py:144-147 | the marginal attributions of steps t..T-1 add up to the effect of masking that whole suffix |
| Postprocess.MaskingOrderGivesMarginal | attrs/winIT.py:144-147 | difference-then-flip of a buffer stored in masking order is exactly the marginal attribution |
| Postprocess.MarginalCopy | attrs/winIT.py:144-147 | flip, difference and flip again leave the buffer alone and return its marginal attribution |
| Postprocess.MarginalLocalisesStep | attrs/winIT.py:144-147 | for a model that reacts to one step only, the marginal attribution is the effect at that step and 0 elsewhere |
| Postprocess.DiffFlipMisplacesStep | attrs/winIT.py:144-147 | for the same model, the post-processing as written puts the effect at the last step and its negation at step T-2-s |
| Postprocess.FourStepsAsWritten | attrs/winIT.py:144-147 | the concrete four-step buffer is attributed [-1, 0, 0, 1] as written |
| Postprocess.FourStepsMarginal | attrs/winIT.py:144-147 | the same buffer's marginal attribution is [0, 0, 1, 0] |
| Engine.Perturbed | attrs/winIT.py:126-129 | the model sees the masked clone at the swept input's position and every other input unchanged |
| Engine.WinIT.Scope | attrs/winIT.py:113-120 | no input index is named exactly when the call has one input; otherwise the swept input's own index is |
| Engine.WinIT.Counterfactuals | attrs/winIT.py:113-120 | the counterfactuals of feature f of input i are (batch, configured seq_len) |
| Engine.WinIT.CounterfactualsFromScope | attrs/winIT.py:113-120 | every counterfactual is a value of feature f of the whole data set when the call has one input, and of input i's own reference array when it has several |
| Engine.WinIT.BaselineResponse | attrs/winIT.py:96-98 | the baseline is the formatted response to the unmasked inputs: probabilities exactly for classification |
| Engine.WinIT.Score | attrs/winIT.py:131-136 | a step's score is (batch, axis 1) and every cell lies in [-1e6, 1e6] |
| Engine.WinIT.Step | attrs/winIT.py:113-136 | the score of masking feature f of input i from step t on fits the buffer slab, and there is none when the input is longer than the configured seq_len |
| Engine.WinIT.StepAgrees | attrs/winIT.py:113-136 | the sweep's step with the engine's draw and scorer is the engine's step |
| Engine.WinIT.RawBuffer | attrs/winIT.py:104-106 | input i's raw buffer is (batch, y_original.shape[1], seq_len, features) |
| Engine.WinIT.InputOkMeansEveryStep | attrs/winIT.py:108-137 | an input is swept without an exception iff every feature's counterfactuals are drawn and every masking step scores |
| Engine.WinIT.RawBufferHoldsSteps | attrs/winIT.py:122-137 | raw cell (a, b, t, g) is cell (a, b) of the score of masking feature g from step t on |
| Engine.WinIT.AttributionsBounded | attrs/winIT.py:136-147 | every attribution before `attributions_fn` lies within twice the clip bound |
| Engine.WinIT.IgnoredFeatureGetsZero | attrs/winIT.py:122-147 | a feature the model ignores gets a zero attribution at every step and output |
| Engine.WinIT.AllAttributions | attrs/winIT.py:149-151 | one attribution per input |
| Engine.WinIT.SweepInputs | attrs/winIT.py:100-151 | the loop over inputs succeeds iff every input is swept; it returns every input's post-processed buffer through `attributions_fn`, and runs every input's schedule |
| Engine.WinIT.Attribute | attrs/winIT.py:85-154 | succeeds iff the baseline and every input's sweep succeed; it returns a bare tensor for one input and a tuple in input order otherwise; the model is run unmasked first and then once per (input, feature, step), in sweep order |

## Left out

- The random generator is not modelled. The indices that `np.random.choice` draws are part of the
  call (`Call.draws`). The seeded generator built in the constructor is never used by the source,
  so it is not modelled either.
- Floating point is not modelled: reals stand for tensors of floats, and there is no NaN or
  infinity. `exp` and `log` are uninterpreted. The only assumption is that `exp` is positive
  (`ExpPositive`). The model is assumed to return rectangular tensors (`ModelWellFormed`).
- Classification outputs of rank other than 2 are not modelled. They and any other shape
  mismatch raise `ShapeMismatch`. In particular, the tensor library's broadcasting of a
  one-row score into the buffer is not modelled.
- The in-place difference is modelled as a simultaneous update, which reads the whole old buffer
  first. The tensor library's behaviour on the overlapping slices is taken to be that.
- The "kl" metric is modelled, but the constructor never selects it.
- Metrics.KlScores and Metrics.JsScores state only the shape of their result. Their values go
  through the uninterpreted `log`; symmetry and the zero self-distance are stated separately.
- `attributions_fn` and the model are function values. Nothing is known about `attributions_fn`,
  so the bound and zero-attribution lemmas speak of the buffer before it is applied.
- Memory handling is not modelled: `torch.no_grad`, `del`, `gc.collect` and the device placement.
- `get_name` is not modelled: it is trivial and takes no `self`.
- The commented-out alternative class at the end of the file is not modelled, since it is inactive.
- `models/TimeLLM.py` is not part of this model: the engine treats the model only as a callable.

## Findings

| source | as written | input that shows it | evidently intended | confidence | as-written member | corrected member |
|---|---|---|---|---|---|---|
| attrs/winIT.py:137-147 | The score of masking steps t..T-1 is stored at time index t. The buffer is then differenced and flipped, and that post-processing assumes the score sits at index T-1-t (masking order). As written, the result at time t is raw[T-1-t] - raw[T-2-t]. That is the negated marginal effect of step T-2-t, not the effect of step t. | A four-step series where only step 2 matters, with effect 1: the raw buffer is [1, 1, 1, 0] and the attribution comes out as [-1, 0, 0, 1] | Time-aligned marginal attribution: step t gets raw[t] - raw[t+1], and step T-1 gets raw[T-1]. Storing in masking order (or flipping before differencing) gives exactly this; for the same buffer it is [0, 0, 1, 0]. | high; not executed | Postprocess.FourStepsAsWritten | Postprocess.MaskingOrderGivesMarginal |

`Engine.WinIT.Attribute` follows the code as written (`Postprocess.DiffFlip`). The corrected
post-processing is `Postprocess.MarginalCopy`, proved to return `Postprocess.Marginal`.
`Postprocess.MarginalSumsToSuffixEffect` and `Postprocess.MarginalLocalisesStep` prove the
intended properties of `Postprocess.Marginal`. `Postprocess.DiffFlipMisplacesStep` shows the
as-written error for every single-step model.
