/** The two nested loops of `attribute` for one input: for every feature, clone the input and, from
    the last time step down to the first, mask one more step of that feature with its counterfactual,
    score the model's response and store the score in the (batch, output, time, feature) buffer;
    then difference and flip the buffer along time.

    Running the model and scoring its response against the baseline is a function of the masked
    clone alone (the other inputs, the extra forward arguments and the baseline are fixed for the
    whole sweep), and drawing counterfactuals is a function of the feature alone; the engine hands
    both in as function values. Counterfactuals or scores of the wrong shape raise where the source
    writes them into the clone or the buffer. */
module Sweep {
  import opened Tensors
  import opened Postprocess

  /** The score of the model's response when the clone replaces the swept input. */
  type Scorer = Tensor3 -> Result<Matrix>

  /** The counterfactuals of a feature: a (batch, sequence length) matrix. */
  type Sampler = nat -> Result<Matrix>

  /** A model invocation of the sweep: the unmasked baseline, or input `input` with feature `feature`
      masked from step `from` to the end. */
  datatype Probe = Unmasked | Masking(input: nat, feature: nat, from: nat)

  /** Counterfactuals that fit the input: one row per batch entry and a column for every time step
      (otherwise writing them into the clone raises). */
  predicate CfFits(x: Tensor3, cf: Matrix) {
    cf.Valid() && cf.rows == x.d0 && x.d1 <= cf.cols
  }

  /** A score that fits a (t, f) slab of the buffer: one row per batch entry and one column per
      model output (otherwise storing it raises). */
  predicate SlabFits(m: Matrix, rows: nat, cols: nat) {
    m.Valid() && m.rows == rows && m.cols == cols
  }

  /** The input with feature f masked from step t on: cell (n, s, f) with s >= t holds the
      counterfactual cf[n][s]; every other cell keeps its value. */
  function Masked(x: Tensor3, f: nat, t: nat, cf: Matrix): (m: Tensor3)
    requires x.Valid() && cf.Valid() && cf.rows == x.d0 && x.d1 <= cf.cols
    ensures m.Valid() && m.d0 == x.d0 && m.d1 == x.d1 && m.d2 == x.d2
  {
    Tensor3(x.d0, x.d1, x.d2,
      seq(x.d0, n requires 0 <= n < x.d0 =>
        seq(x.d1, s requires 0 <= s < x.d1 =>
          seq(x.d2, g requires 0 <= g < x.d2 =>
            if g == f && t <= s then cf.at[n][s] else x.at[n][s][g]))))
  }

  /** Before the first step nothing is masked: the clone is the input. */
  lemma MaskedNothing(x: Tensor3, f: nat, cf: Matrix)
    requires x.Valid() && cf.Valid() && cf.rows == x.d0 && x.d1 <= cf.cols
    ensures Masked(x, f, x.d1, cf) == x
  {
    Tensor3Ext(Masked(x, f, x.d1, cf), x);
  }

  /** Masking is cumulative: the mask from step t is the mask from step t+1 with step t of feature f
      overwritten as well, and nothing else changed. */
  lemma MaskExtends(x: Tensor3, f: nat, t: nat, cf: Matrix)
    requires x.Valid() && cf.Valid() && cf.rows == x.d0 && x.d1 <= cf.cols && t < x.d1
    ensures forall n, s, g | 0 <= n < x.d0 && 0 <= s < x.d1 && 0 <= g < x.d2 ::
      Masked(x, f, t, cf).at[n][s][g] ==
        if s == t && g == f then cf.at[n][t] else Masked(x, f, t + 1, cf).at[n][s][g]
  {
  }

  /** Two tensors of one shape that agree everywhere except possibly on feature f. */
  ghost predicate SameExceptFeature(x: Tensor3, y: Tensor3, f: nat) {
    && x.Valid() && y.Valid() && x.d0 == y.d0 && x.d1 == y.d1 && x.d2 == y.d2
    && forall n, s, g | 0 <= n < x.d0 && 0 <= s < x.d1 && 0 <= g < x.d2 && g != f ::
         y.at[n][s][g] == x.at[n][s][g]
  }

  /** Masking feature f touches no other feature. */
  lemma MaskedTouchesOnlyFeature(x: Tensor3, f: nat, t: nat, cf: Matrix)
    requires x.Valid() && cf.Valid() && cf.rows == x.d0 && x.d1 <= cf.cols
    ensures SameExceptFeature(x, Masked(x, f, t, cf), f)
  {
  }

  /** `inputs[input_index].clone()`: a new array holding the input. */
  method CloneInput(x: Tensor3) returns (cloned: array3<real>)
    requires x.Valid()
    ensures fresh(cloned)
    ensures Snapshot3(cloned) == x
  {
    cloned := new real[x.d0, x.d1, x.d2]((n, s, g)
      requires 0 <= n < x.d0 && 0 <= s < x.d1 && 0 <= g < x.d2 => x.at[n][s][g]);
    Tensor3Ext(Snapshot3(cloned), x);
  }

  /** `cloned[:, t, f] = counterfactuals[:, t]`: a clone masked from step t+1 on becomes masked
      from step t on. */
  method WriteColumn(cloned: array3<real>, x: Tensor3, t: nat, f: nat, cf: Matrix)
    requires x.Valid() && cf.Valid() && cf.rows == x.d0 && x.d1 <= cf.cols && t < x.d1
    requires Snapshot3(cloned) == Masked(x, f, t + 1, cf)
    modifies cloned
    ensures Snapshot3(cloned) == Masked(x, f, t, cf)
  {
    ghost var before := Snapshot3(cloned);
    if f < x.d2 {
      forall n | 0 <= n < x.d0 {
        cloned[n, t, f] := cf.at[n][t];
      }
    }
    ColumnWritten(cloned, x, t, f, cf, before);
  }

  lemma ColumnWritten(cloned: array3<real>, x: Tensor3, t: nat, f: nat, cf: Matrix, before: Tensor3)
    requires x.Valid() && cf.Valid() && cf.rows == x.d0 && x.d1 <= cf.cols && t < x.d1
    requires before == Masked(x, f, t + 1, cf)
    requires cloned.Length0 == x.d0 && cloned.Length1 == x.d1 && cloned.Length2 == x.d2
    requires forall n, s, g | 0 <= n < x.d0 && 0 <= s < x.d1 && 0 <= g < x.d2 ::
      cloned[n, s, g] == if s == t && g == f then cf.at[n][t] else before.at[n][s][g]
    ensures Snapshot3(cloned) == Masked(x, f, t, cf)
  {
    MaskExtends(x, f, t, cf);
    Tensor3Ext(Snapshot3(cloned), Masked(x, f, t, cf));
  }

  /** x with slab (t, f) replaced: cell (a, b, t, f) becomes slab[a][b]. */
  function PutSlab(x: Tensor4, t: nat, f: nat, slab: Matrix): (y: Tensor4)
    requires x.Valid() && slab.Valid() && slab.rows == x.d0 && slab.cols == x.d1
    ensures y.Valid() && y.d0 == x.d0 && y.d1 == x.d1 && y.d2 == x.d2 && y.d3 == x.d3
  {
    Tensor4(x.d0, x.d1, x.d2, x.d3,
      seq(x.d0, a requires 0 <= a < x.d0 =>
        seq(x.d1, b requires 0 <= b < x.d1 =>
          seq(x.d2, s requires 0 <= s < x.d2 =>
            seq(x.d3, g requires 0 <= g < x.d3 =>
              if s == t && g == f then slab.at[a][b] else x.at[a][b][s][g])))))
  }

  /** `buffer[:, :, t, f] = slab`. */
  method StoreSlab(buf: array4<real>, t: nat, f: nat, slab: Matrix)
    requires t < buf.Length2 && f < buf.Length3
    requires slab.Valid() && slab.rows == buf.Length0 && slab.cols == buf.Length1
    modifies buf
    ensures Snapshot4(buf) == PutSlab(old(Snapshot4(buf)), t, f, slab)
  {
    ghost var before := Snapshot4(buf);
    forall a, b | 0 <= a < buf.Length0 && 0 <= b < buf.Length1 {
      buf[a, b, t, f] := slab.at[a][b];
    }
    SlabStored(buf, t, f, slab, before);
  }

  lemma SlabStored(buf: array4<real>, t: nat, f: nat, slab: Matrix, before: Tensor4)
    requires before.Valid() && slab.Valid() && slab.rows == before.d0 && slab.cols == before.d1
    requires buf.Length0 == before.d0 && buf.Length1 == before.d1
    requires buf.Length2 == before.d2 && buf.Length3 == before.d3
    requires forall a, b, s, g | 0 <= a < buf.Length0 && 0 <= b < buf.Length1 && 0 <= s < buf.Length2 && 0 <= g < buf.Length3 ::
      buf[a, b, s, g] == if s == t && g == f then slab.at[a][b] else before.at[a][b][s][g]
    ensures Snapshot4(buf) == PutSlab(before, t, f, slab)
  {
    Tensor4Ext(Snapshot4(buf), PutSlab(before, t, f, slab));
  }

  /** The score of masking feature f from step t on: the counterfactuals of f, written into the
      input from step t on, then the score of that input; fails when the draw, the write, the model
      run or the store into the buffer fails. */
  function StepScore(x: Tensor3, width: nat, sample: Sampler, score: Scorer, f: nat, t: nat)
    : (r: Result<Matrix>)
    requires x.Valid()
    ensures r.Ok? ==> SlabFits(r.value, x.d0, width)
  {
    match sample(f)
    case Err(e) => Err(e)
    case Ok(cf) =>
      if !CfFits(x, cf) then Err(ShapeMismatch)
      else
        match score(Masked(x, f, t, cf))
        case Err(e) => Err(e)
        case Ok(m) => if SlabFits(m, x.d0, width) then Ok(m) else Err(ShapeMismatch)
  }

  /** Cell (a, b) of the score of masking feature f from step t on, or 0 where that step fails (a
      successful sweep never meets one). */
  function Cell(x: Tensor3, width: nat, sample: Sampler, score: Scorer, f: nat, t: nat, a: nat, b: nat): real
    requires x.Valid() && a < x.d0 && b < width
  {
    var r := StepScore(x, width, sample, score, f, t);
    if r.Ok? then r.value.at[a][b] else 0.0
  }

  /** Feature f is swept without an exception: its counterfactuals are drawn and every step scores. */
  ghost predicate FeatureSwept(x: Tensor3, width: nat, sample: Sampler, score: Scorer, f: nat)
    requires x.Valid() && f < x.d2
  {
    && sample(f).Ok?
    && forall t | 0 <= t < x.d1 :: StepScore(x, width, sample, score, f, t).Ok?
  }

  /** Every feature of the input is swept without an exception. */
  ghost predicate InputSwept(x: Tensor3, width: nat, sample: Sampler, score: Scorer)
    requires x.Valid()
  {
    forall f | 0 <= f < x.d2 :: FeatureSwept(x, width, sample, score, f)
  }

  /** The buffer before post-processing: cell (a, b, t, g) is the score of masking feature g from
      step t on. */
  function Raw(x: Tensor3, width: nat, sample: Sampler, score: Scorer): (r: Tensor4)
    requires x.Valid()
    ensures r.Valid() && r.d0 == x.d0 && r.d1 == width && r.d2 == x.d1 && r.d3 == x.d2
  {
    Tensor4(x.d0, width, x.d1, x.d2,
      seq(x.d0, a requires 0 <= a < x.d0 =>
        seq(width, b requires 0 <= b < width =>
          seq(x.d1, t requires 0 <= t < x.d1 =>
            seq(x.d2, g requires 0 <= g < x.d2 => Cell(x, width, sample, score, g, t, a, b))))))
  }

  /** The buffer part-way through the sweep: features below f hold their scores, feature f holds
      them from step t on, every other cell is still 0. */
  ghost function Partial(x: Tensor3, width: nat, sample: Sampler, score: Scorer, f: nat, t: nat): (p: Tensor4)
    requires x.Valid()
    ensures p.Valid() && p.d0 == x.d0 && p.d1 == width && p.d2 == x.d1 && p.d3 == x.d2
  {
    Tensor4(x.d0, width, x.d1, x.d2,
      seq(x.d0, a requires 0 <= a < x.d0 =>
        seq(width, b requires 0 <= b < width =>
          seq(x.d1, s requires 0 <= s < x.d1 =>
            seq(x.d2, g requires 0 <= g < x.d2 =>
              if g < f || (g == f && t <= s) then Cell(x, width, sample, score, g, s, a, b) else 0.0)))))
  }

  /** Storing the score of step t extends the filled part of feature f down to t. */
  lemma FillStep(x: Tensor3, width: nat, sample: Sampler, score: Scorer, f: nat, t: nat)
    requires x.Valid() && f < x.d2 && t < x.d1
    requires StepScore(x, width, sample, score, f, t).Ok?
    ensures PutSlab(Partial(x, width, sample, score, f, t + 1), t, f, StepScore(x, width, sample, score, f, t).value)
      == Partial(x, width, sample, score, f, t)
  {
    var slab := StepScore(x, width, sample, score, f, t).value;
    var before := Partial(x, width, sample, score, f, t + 1);
    var after := PutSlab(before, t, f, slab);
    var want := Partial(x, width, sample, score, f, t);
    forall a, b, s, g | 0 <= a < x.d0 && 0 <= b < width && 0 <= s < x.d1 && 0 <= g < x.d2
      ensures after.at[a][b][s][g] == want.at[a][b][s][g]
    {
      if s == t && g == f {
        assert after.at[a][b][s][g] == slab.at[a][b];
        assert want.at[a][b][s][g] == Cell(x, width, sample, score, f, t, a, b);
      } else {
        assert after.at[a][b][s][g] == before.at[a][b][s][g];
      }
    }
    Tensor4Ext(after, want);
  }

  /** A feature filled down to step 0 is the same state as the next feature not yet started. */
  lemma NextFeature(x: Tensor3, width: nat, sample: Sampler, score: Scorer, f: nat)
    requires x.Valid()
    ensures Partial(x, width, sample, score, f, 0) == Partial(x, width, sample, score, f + 1, x.d1)
  {
    Tensor4Ext(Partial(x, width, sample, score, f, 0), Partial(x, width, sample, score, f + 1, x.d1));
  }

  /** With every feature swept, the buffer is the raw buffer. */
  lemma AllFeaturesFilled(x: Tensor3, width: nat, sample: Sampler, score: Scorer)
    requires x.Valid()
    ensures Partial(x, width, sample, score, x.d2, x.d1) == Raw(x, width, sample, score)
  {
    Tensor4Ext(Partial(x, width, sample, score, x.d2, x.d1), Raw(x, width, sample, score));
  }

  /** Every score the scorer returns lies within [-bound, bound]. */
  ghost predicate ScoresWithin(score: Scorer, bound: real) {
    forall y :: score(y).Ok? ==>
      forall a, b | 0 <= a < |score(y).value.at| && 0 <= b < |score(y).value.at[a]| ::
        -bound <= score(y).value.at[a][b] <= bound
  }

  /** Scores within a bound give a raw buffer within that bound (a cell whose step failed is 0). */
  lemma RawWithin(x: Tensor3, width: nat, sample: Sampler, score: Scorer, bound: real)
    requires x.Valid() && 0.0 <= bound && ScoresWithin(score, bound)
    ensures Within(Raw(x, width, sample, score), bound)
  {
    var raw := Raw(x, width, sample, score);
    forall a, b, t, g | 0 <= a < x.d0 && 0 <= b < width && 0 <= t < x.d1 && 0 <= g < x.d2
      ensures -bound <= raw.at[a][b][t][g] <= bound
    {
      assert raw.at[a][b][t][g] == Cell(x, width, sample, score, g, t, a, b);
    }
  }

  /** The scorer does not see feature f of x: every tensor that differs from x at most in feature f
      scores as x itself does. */
  ghost predicate BlindTo(score: Scorer, x: Tensor3, f: nat) {
    forall y | SameExceptFeature(x, y, f) :: score(y) == score(x)
  }

  /** Every cell of m is 0. */
  ghost predicate AllZero(m: Matrix) {
    forall a, b | 0 <= a < |m.at| && 0 <= b < |m.at[a]| :: m.at[a][b] == 0.0
  }

  /** A feature the scorer cannot see, for an input whose own score is zero, gets a zero attribution
      at every step. */
  lemma BlindFeatureGetsZero(x: Tensor3, width: nat, sample: Sampler, score: Scorer, f: nat)
    requires x.Valid() && f < x.d2 && BlindTo(score, x, f)
    requires score(x).Ok? ==> AllZero(score(x).value)
    ensures forall a, b, t | 0 <= a < x.d0 && 0 <= b < width && 0 <= t < x.d1 ::
      DiffFlip(Raw(x, width, sample, score)).at[a][b][t][f] == 0.0
  {
    var raw := Raw(x, width, sample, score);
    forall a, b, t | 0 <= a < x.d0 && 0 <= b < width && 0 <= t < x.d1
      ensures raw.at[a][b][t][f] == 0.0
    {
      assert raw.at[a][b][t][f] == Cell(x, width, sample, score, f, t, a, b);
      if sample(f).Ok? && CfFits(x, sample(f).value) {
        MaskedTouchesOnlyFeature(x, f, t, sample(f).value);
      }
    }
    forall a, b, t | 0 <= a < x.d0 && 0 <= b < width && 0 <= t < x.d1
      ensures DiffFlip(raw).at[a][b][t][f] == 0.0
    {
      DiffFlipAt(raw, a, b, t, f);
    }
  }

  /** `torch.zeros(batch, outputs, time, features)`: the buffer before any feature is swept. */
  method NewBuffer(x: Tensor3, width: nat, sample: Sampler, score: Scorer) returns (buf: array4<real>)
    requires x.Valid()
    ensures fresh(buf)
    ensures Snapshot4(buf) == Partial(x, width, sample, score, 0, x.d1)
  {
    buf := new real[x.d0, width, x.d1, x.d2]((a, b, s, g) => 0.0);
    Tensor4Ext(Snapshot4(buf), Partial(x, width, sample, score, 0, x.d1));
  }

  /** The masking steps of one feature, in the order the sweep runs them: from the last step down to
      step 0. */
  function FeatureSchedule(i: nat, f: nat, steps: nat): (p: seq<Probe>)
    ensures |p| == steps
    ensures forall k | 0 <= k < steps :: p[k] == Masking(i, f, steps - 1 - k)
  {
    seq(steps, k requires 0 <= k < steps => Masking(i, f, steps - 1 - k))
  }

  /** The runs of the time loop over the first n features of input i, one per feature in order. */
  function InputRuns(i: nat, steps: nat, n: nat): (runs: seq<seq<Probe>>)
    ensures |runs| == n
  {
    seq(n, g requires 0 <= g < n => FeatureSchedule(i, g, steps))
  }

  /** One more feature's run. */
  lemma InputRunsGrow(i: nat, steps: nat, f: nat)
    ensures InputRuns(i, steps, f) + [FeatureSchedule(i, f, steps)] == InputRuns(i, steps, f + 1)
  {
  }

  /** The runs one after another. */
  function Flatten(runs: seq<seq<Probe>>): seq<Probe> {
    if runs == [] then [] else Flatten(runs[..|runs| - 1]) + runs[|runs| - 1]
  }

  lemma {:induction false} FeatureScheduleCount(i: nat, f: nat, steps: nat, p: Probe)
    ensures multiset(FeatureSchedule(i, f, steps))[p] ==
      if p.Masking? && p.input == i && p.feature == f && p.from < steps then 1 else 0
  {
    if steps > 0 {
      FeatureScheduleCount(i, f, steps - 1, p);
      assert FeatureSchedule(i, f, steps) == [Masking(i, f, steps - 1)] + FeatureSchedule(i, f, steps - 1);
    }
  }

  /** Each masking step of the first n features of input i is run exactly once, and nothing else
      is. */
  lemma {:induction false} InputScheduleCount(i: nat, steps: nat, n: nat, p: Probe)
    ensures multiset(Flatten(InputRuns(i, steps, n)))[p] ==
      if p.Masking? && p.input == i && p.feature < n && p.from < steps then 1 else 0
  {
    if n > 0 {
      var runs := InputRuns(i, steps, n);
      var earlier := Flatten(InputRuns(i, steps, n - 1));
      var last := FeatureSchedule(i, n - 1, steps);
      InputScheduleCount(i, steps, n - 1, p);
      FeatureScheduleCount(i, n - 1, steps, p);
      assert runs[..n - 1] == InputRuns(i, steps, n - 1);
      assert Flatten(runs) == earlier + last;
      CountConcat(earlier, last, p);
    }
  }

  lemma {:induction false} InputScheduleSize(i: nat, steps: nat, n: nat)
    ensures |Flatten(InputRuns(i, steps, n))| == n * steps
  {
    if n > 0 {
      InputScheduleSize(i, steps, n - 1);
      assert InputRuns(i, steps, n)[..n - 1] == InputRuns(i, steps, n - 1);
      assert n * steps == (n - 1) * steps + steps;
    }
  }

  /** The time loop for feature f: clone the input, draw the counterfactuals, and for t from the
      last step down to 0 mask step t as well, rerun the model, and store the score in slab (t, f).
      `i` is the index of the input, used only to name the probes. */
  method SweepFeature(x: Tensor3, width: nat, sample: Sampler, score: Scorer, ghost i: nat, f: nat,
                      buf: array4<real>)
    returns (r: Result<()>, ghost probes: seq<Probe>)
    requires x.Valid() && f < x.d2
    requires Snapshot4(buf) == Partial(x, width, sample, score, f, x.d1)
    modifies buf
    ensures r.Ok? <==> FeatureSwept(x, width, sample, score, f)
    ensures r.Ok? ==> Snapshot4(buf) == Partial(x, width, sample, score, f, 0)
    ensures r.Ok? ==> probes == FeatureSchedule(i, f, x.d1)
  {
    probes := [];
    var cloned := CloneInput(x);
    var drawn := sample(f);
    if drawn.Err? {
      return Err(drawn.error), probes;
    }
    var cf := drawn.value;
    if x.d1 == 0 {
      return Ok(()), probes;
    }
    if !CfFits(x, cf) {
      assert StepScore(x, width, sample, score, f, x.d1 - 1).Err?;
      return Err(ShapeMismatch), probes;
    }
    MaskedNothing(x, f, cf);
    r, probes := MaskFromEnd(x, width, sample, score, i, f, cf, cloned, buf);
  }

  /** The time loop proper: for t from the last step down to 0, mask step t as well in the clone,
      rerun the model, and store the score in slab (t, f). */
  method MaskFromEnd(x: Tensor3, width: nat, sample: Sampler, score: Scorer, ghost i: nat, f: nat,
                     cf: Matrix, cloned: array3<real>, buf: array4<real>)
    returns (r: Result<()>, ghost probes: seq<Probe>)
    requires x.Valid() && f < x.d2 && sample(f) == Ok(cf) && CfFits(x, cf)
    requires Snapshot3(cloned) == Masked(x, f, x.d1, cf)
    requires Snapshot4(buf) == Partial(x, width, sample, score, f, x.d1)
    modifies cloned, buf
    ensures r.Ok? <==> forall t | 0 <= t < x.d1 :: StepScore(x, width, sample, score, f, t).Ok?
    ensures r.Ok? ==> Snapshot4(buf) == Partial(x, width, sample, score, f, 0)
    ensures r.Ok? ==> probes == FeatureSchedule(i, f, x.d1)
  {
    probes := [];
    var t := x.d1;
    while t > 0
      invariant 0 <= t <= x.d1
      invariant Snapshot3(cloned) == Masked(x, f, t, cf)
      invariant forall s | t <= s < x.d1 :: StepScore(x, width, sample, score, f, s).Ok?
      invariant Snapshot4(buf) == Partial(x, width, sample, score, f, t)
      invariant probes == FeatureSchedule(i, f, x.d1)[..x.d1 - t]
    {
      t := t - 1;
      var scored := MaskAndStore(x, width, sample, score, f, t, cf, cloned, buf);
      probes := probes + [Masking(i, f, t)];
      if scored.Err? {
        return Err(scored.error), probes;
      }
    }
    r := Ok(());
  }

  /** One pass of the time loop: overwrite step t of feature f in the clone, score the clone, and
      store a successful score in slab (t, f) of the buffer. */
  method MaskAndStore(x: Tensor3, width: nat, sample: Sampler, score: Scorer, f: nat, t: nat,
                      cf: Matrix, cloned: array3<real>, buf: array4<real>)
    returns (scored: Result<Matrix>)
    requires x.Valid() && f < x.d2 && t < x.d1 && sample(f) == Ok(cf) && CfFits(x, cf)
    requires Snapshot3(cloned) == Masked(x, f, t + 1, cf)
    requires Snapshot4(buf) == Partial(x, width, sample, score, f, t + 1)
    modifies cloned, buf
    ensures Snapshot3(cloned) == Masked(x, f, t, cf)
    ensures scored == StepScore(x, width, sample, score, f, t)
    ensures scored.Ok? ==> Snapshot4(buf) == Partial(x, width, sample, score, f, t)
  {
    WriteColumn(cloned, x, t, f, cf);
    scored := score(Snapshot3(cloned));
    if scored.Ok? && !SlabFits(scored.value, buf.Length0, buf.Length1) {
      scored := Err(ShapeMismatch);
    }
    if scored.Ok? {
      StoreSlab(buf, t, f, scored.value);
      FillStep(x, width, sample, score, f, t);
    }
  }

  /** One input: a zeroed buffer, every feature swept in order, then the buffer differenced along
      time in place and flipped along time. */
  method SweepInput(x: Tensor3, width: nat, sample: Sampler, score: Scorer, ghost i: nat)
    returns (r: Result<Tensor4>, ghost runs: seq<seq<Probe>>)
    requires x.Valid()
    ensures r.Ok? <==> InputSwept(x, width, sample, score)
    ensures r.Ok? ==> r.value == DiffFlip(Raw(x, width, sample, score))
    ensures r.Ok? ==> runs == InputRuns(i, x.d1, x.d2)
  {
    var buf := NewBuffer(x, width, sample, score);
    runs := [];
    for f := 0 to x.d2
      invariant forall g | 0 <= g < f :: FeatureSwept(x, width, sample, score, g)
      invariant Snapshot4(buf) == Partial(x, width, sample, score, f, x.d1)
      invariant runs == InputRuns(i, x.d1, f)
    {
      var done, more := SweepFeature(x, width, sample, score, i, f, buf);
      if done.Err? {
        return Err(done.error), runs + [more];
      }
      InputRunsGrow(i, x.d1, f);
      runs := runs + [more];
      NextFeature(x, width, sample, score, f);
    }
    AllFeaturesFilled(x, width, sample, score);
    DiffTimeInPlace(buf);
    var flipped := FlipTimeCopy(buf);
    r := Ok(Snapshot4(flipped));
  }

  /** The runs of the sweep of every input, in input order. */
  function AllRuns(inputs: seq<Tensor3>): (runs: seq<seq<seq<Probe>>>)
    ensures |runs| == |inputs|
  {
    seq(|inputs|, j requires 0 <= j < |inputs| => InputRuns(j, inputs[j].d1, inputs[j].d2))
  }

  /** One more input's runs. */
  lemma AllRunsGrow(inputs: seq<Tensor3>, n: nat)
    requires n < |inputs|
    ensures AllRuns(inputs)[..n] + [InputRuns(n, inputs[n].d1, inputs[n].d2)] == AllRuns(inputs)[..n + 1]
  {
  }

  /** The runs of several inputs one after another. */
  function Concat(runs: seq<seq<seq<Probe>>>): seq<Probe> {
    if runs == [] then [] else Concat(runs[..|runs| - 1]) + Flatten(runs[|runs| - 1])
  }

  /** The masking steps of the first n inputs, every feature of each, in the order they run. */
  function Schedule(inputs: seq<Tensor3>, n: nat): seq<Probe>
    requires n <= |inputs|
  {
    Concat(AllRuns(inputs)[..n])
  }

  /** Sum over the first n inputs of features times steps. */
  function SweepCost(inputs: seq<Tensor3>, n: nat): nat
    requires n <= |inputs|
  {
    if n == 0 then 0 else SweepCost(inputs, n - 1) + inputs[n - 1].d2 * inputs[n - 1].d1
  }

  /** The masking steps a sweep over the first n inputs must run. */
  predicate InSweep(inputs: seq<Tensor3>, n: nat, p: Probe)
    requires n <= |inputs|
  {
    p.Masking? && p.input < n && p.feature < inputs[p.input].d2 && p.from < inputs[p.input].d1
  }

  /** Every masking step the sweep must run is run exactly once, and no other one is. */
  lemma {:induction false} ScheduleRunsEachMaskOnce(inputs: seq<Tensor3>, n: nat, p: Probe)
    requires n <= |inputs|
    ensures multiset(Schedule(inputs, n))[p] == if InSweep(inputs, n, p) then 1 else 0
  {
    if n > 0 {
      var x := inputs[n - 1];
      ScheduleStep(inputs, n);
      ScheduleRunsEachMaskOnce(inputs, n - 1, p);
      InputScheduleCount(n - 1, x.d1, x.d2, p);
      CountConcat(Schedule(inputs, n - 1), Flatten(InputRuns(n - 1, x.d1, x.d2)), p);
      InSweepStep(inputs, n, p);
    }
  }

  /** A probe counts in a concatenation as often as in its two parts together. */
  lemma CountConcat(a: seq<Probe>, b: seq<Probe>, p: Probe)
    ensures multiset(a + b)[p] == multiset(a)[p] + multiset(b)[p]
  {
    assert multiset(a + b) == multiset(a) + multiset(b);
  }

  /** The masking steps of n inputs: those of the first n-1, or one of input n-1. */
  lemma InSweepStep(inputs: seq<Tensor3>, n: nat, p: Probe)
    requires 0 < n <= |inputs|
    ensures InSweep(inputs, n, p) <==>
      || InSweep(inputs, n - 1, p)
      || (p.Masking? && p.input == n - 1 && p.feature < inputs[n - 1].d2 && p.from < inputs[n - 1].d1)
    ensures InSweep(inputs, n - 1, p) ==> p.input != n - 1
  {
  }

  /** The schedule of n inputs is that of the first n-1 followed by the runs of input n-1. */
  lemma ScheduleStep(inputs: seq<Tensor3>, n: nat)
    requires 0 < n <= |inputs|
    ensures Schedule(inputs, n) ==
      Schedule(inputs, n - 1) + Flatten(InputRuns(n - 1, inputs[n - 1].d1, inputs[n - 1].d2))
  {
    var all := AllRuns(inputs);
    assert all[..n][..n - 1] == all[..n - 1];
  }

  /** The sweep runs the model once per (input, feature, step). */
  lemma {:induction false} ScheduleSize(inputs: seq<Tensor3>, n: nat)
    requires n <= |inputs|
    ensures |Schedule(inputs, n)| == SweepCost(inputs, n)
  {
    if n > 0 {
      ScheduleSize(inputs, n - 1);
      InputScheduleSize(n - 1, inputs[n - 1].d1, inputs[n - 1].d2);
      ScheduleStep(inputs, n);
    }
  }

  /** `attributions_fn` applied when given. */
  function Finish(fn: Option<Tensor4 -> Tensor4>, x: Tensor4): (r: Tensor4)
    ensures fn.None? ==> r == x
    ensures fn.Some? ==> r == fn.value(x)
  {
    match fn
    case None => x
    case Some(g) => g(x)
  }

  /** `attribute`'s loop over the inputs: every input swept in order with its own counterfactual
      draw and its own scoring, each result passed through `attributions_fn`. */
  method SweepAll(inputs: seq<Tensor3>, width: nat, samplers: seq<Sampler>, scorers: seq<Scorer>,
                  fn: Option<Tensor4 -> Tensor4>)
    returns (r: Result<seq<Tensor4>>, ghost runs: seq<seq<seq<Probe>>>)
    requires |samplers| == |inputs| && |scorers| == |inputs|
    requires forall i | 0 <= i < |inputs| :: inputs[i].Valid()
    ensures r.Ok? <==> forall i | 0 <= i < |inputs| :: InputSwept(inputs[i], width, samplers[i], scorers[i])
    ensures r.Ok? ==> |r.value| == |inputs|
    ensures r.Ok? ==> forall i | 0 <= i < |inputs| ::
      r.value[i] == Finish(fn, DiffFlip(Raw(inputs[i], width, samplers[i], scorers[i])))
    ensures r.Ok? ==> runs == AllRuns(inputs)
  {
    runs := [];
    var attr: seq<Tensor4> := [];
    for i := 0 to |inputs|
      invariant |attr| == i
      invariant forall j | 0 <= j < i :: InputSwept(inputs[j], width, samplers[j], scorers[j])
      invariant forall j | 0 <= j < i :: attr[j] == Finish(fn, DiffFlip(Raw(inputs[j], width, samplers[j], scorers[j])))
      invariant runs == AllRuns(inputs)[..i]
    {
      var one, more := SweepInput(inputs[i], width, samplers[i], scorers[i], i);
      if one.Err? {
        return Err(one.error), runs + [more];
      }
      AllRunsGrow(inputs, i);
      runs := runs + [more];
      attr := attr + [Finish(fn, one.value)];
    }
    r := Ok(attr);
  }
}
