/** Post-processing of a per-input score buffer of shape (batch, output, time, feature): the
    difference along the time axis followed by the flip of that axis, as the sweep applies them, and
    the time-aligned marginal attribution that this post-processing is meant to produce. */
module Postprocess {
  import opened Tensors

  /** `x[:, :, 1:] -= x[:, :, :-1]`: every right-hand side is read from x before anything is
      written, so cell t > 0 becomes x[t] - x[t-1] and cell 0 keeps x[0]. */
  function DiffTime(x: Tensor4): (r: Tensor4)
    requires x.Valid()
    ensures r.Valid() && r.d0 == x.d0 && r.d1 == x.d1 && r.d2 == x.d2 && r.d3 == x.d3
  {
    Tensor4(x.d0, x.d1, x.d2, x.d3,
      seq(x.d0, a requires 0 <= a < x.d0 =>
        seq(x.d1, b requires 0 <= b < x.d1 =>
          seq(x.d2, t requires 0 <= t < x.d2 =>
            seq(x.d3, g requires 0 <= g < x.d3 =>
              if t == 0 then x.at[a][b][t][g] else x.at[a][b][t][g] - x.at[a][b][t - 1][g])))))
  }

  /** `x.flip(dims=(2,))`: a new tensor with the time axis reversed. */
  function FlipTime(x: Tensor4): (r: Tensor4)
    requires x.Valid()
    ensures r.Valid() && r.d0 == x.d0 && r.d1 == x.d1 && r.d2 == x.d2 && r.d3 == x.d3
  {
    Tensor4(x.d0, x.d1, x.d2, x.d3,
      seq(x.d0, a requires 0 <= a < x.d0 =>
        seq(x.d1, b requires 0 <= b < x.d1 =>
          seq(x.d2, t requires 0 <= t < x.d2 =>
            seq(x.d3, g requires 0 <= g < x.d3 => x.at[a][b][x.d2 - 1 - t][g])))))
  }

  /** The sweep's post-processing as written: difference, then flip. */
  function DiffFlip(x: Tensor4): (r: Tensor4)
    requires x.Valid()
    ensures r.Valid() && r.d0 == x.d0 && r.d1 == x.d1 && r.d2 == x.d2 && r.d3 == x.d3
  {
    FlipTime(DiffTime(x))
  }

  /** `buffer[:, :, 1:] -= buffer[:, :, :-1]` on the buffer itself. The update is simultaneous: every
      cell reads the value its left neighbour had before the statement. */
  method DiffTimeInPlace(buf: array4<real>)
    modifies buf
    ensures Snapshot4(buf) == DiffTime(old(Snapshot4(buf)))
  {
    ghost var before := Snapshot4(buf);
    forall a, b, t, g | 0 <= a < buf.Length0 && 0 <= b < buf.Length1 && 1 <= t < buf.Length2 && 0 <= g < buf.Length3 {
      buf[a, b, t, g] := buf[a, b, t, g] - buf[a, b, t - 1, g];
    }
    DiffedSnapshot(before, buf);
  }

  lemma DiffedSnapshot(before: Tensor4, buf: array4<real>)
    requires before.Valid() && before.d0 == buf.Length0 && before.d1 == buf.Length1
    requires before.d2 == buf.Length2 && before.d3 == buf.Length3
    requires forall a, b, t, g | 0 <= a < buf.Length0 && 0 <= b < buf.Length1 && 0 <= t < buf.Length2 && 0 <= g < buf.Length3 ::
      buf[a, b, t, g] == if t == 0 then before.at[a][b][t][g] else before.at[a][b][t][g] - before.at[a][b][t - 1][g]
    ensures Snapshot4(buf) == DiffTime(before)
  {
    ghost var after := Snapshot4(buf);
    ghost var want := DiffTime(before);
    forall a, b, t, g | 0 <= a < buf.Length0 && 0 <= b < buf.Length1 && 0 <= t < buf.Length2 && 0 <= g < buf.Length3
      ensures after.at[a][b][t][g] == want.at[a][b][t][g]
    {
      assert after.at[a][b][t][g] == buf[a, b, t, g];
    }
    Tensor4Ext(after, want);
  }

  /** `buffer.flip(dims=(2,))`: a new array holding the buffer with its time axis reversed. */
  method FlipTimeCopy(buf: array4<real>) returns (out: array4<real>)
    ensures fresh(out)
    ensures Snapshot4(out) == FlipTime(Snapshot4(buf))
  {
    out := new real[buf.Length0, buf.Length1, buf.Length2, buf.Length3];
    forall a, b, t, g | 0 <= a < buf.Length0 && 0 <= b < buf.Length1 && 0 <= t < buf.Length2 && 0 <= g < buf.Length3 {
      out[a, b, t, g] := buf[a, b, buf.Length2 - 1 - t, g];
    }
    FlippedSnapshot(buf, out);
  }

  lemma FlippedSnapshot(buf: array4<real>, out: array4<real>)
    requires out.Length0 == buf.Length0 && out.Length1 == buf.Length1
    requires out.Length2 == buf.Length2 && out.Length3 == buf.Length3
    requires forall a, b, t, g | 0 <= a < buf.Length0 && 0 <= b < buf.Length1 && 0 <= t < buf.Length2 && 0 <= g < buf.Length3 :: out[a, b, t, g] == buf[a, b, buf.Length2 - 1 - t, g]
    ensures Snapshot4(out) == FlipTime(Snapshot4(buf))
  {
    ghost var after := Snapshot4(out);
    ghost var want := FlipTime(Snapshot4(buf));
    forall a, b, t, g | 0 <= a < buf.Length0 && 0 <= b < buf.Length1 && 0 <= t < buf.Length2 && 0 <= g < buf.Length3
      ensures after.at[a][b][t][g] == want.at[a][b][t][g]
    {
      assert after.at[a][b][t][g] == buf[a, b, buf.Length2 - 1 - t, g];
    }
    Tensor4Ext(after, want);
  }

  /** Index formula of difference-then-flip: with T time steps, cell t < T-1 is
      x[T-1-t] - x[T-2-t] and cell T-1 is x[0]. */
  lemma DiffFlipAt(x: Tensor4, a: nat, b: nat, t: nat, g: nat)
    requires x.Valid() && a < x.d0 && b < x.d1 && t < x.d2 && g < x.d3
    ensures DiffFlip(x).at[a][b][t][g] ==
      if t < x.d2 - 1 then x.at[a][b][x.d2 - 1 - t][g] - x.at[a][b][x.d2 - 2 - t][g]
      else x.at[a][b][0][g]
  {
    assert DiffFlip(x).at[a][b][t][g] == DiffTime(x).at[a][b][x.d2 - 1 - t][g];
  }

  /** Every cell of x lies within [-bound, bound]. */
  ghost predicate Within(x: Tensor4, bound: real)
    requires x.Valid()
  {
    forall a, b, t, g | 0 <= a < x.d0 && 0 <= b < x.d1 && 0 <= t < x.d2 && 0 <= g < x.d3 ::
      -bound <= x.at[a][b][t][g] <= bound
  }

  /** Difference-then-flip at most doubles the magnitude of the buffer's cells. */
  lemma DiffFlipDoublesBound(x: Tensor4, bound: real)
    requires x.Valid() && Within(x, bound)
    ensures Within(DiffFlip(x), 2.0 * bound)
  {
    var y := DiffFlip(x);
    forall a, b, t, g | 0 <= a < x.d0 && 0 <= b < x.d1 && 0 <= t < x.d2 && 0 <= g < x.d3
      ensures -2.0 * bound <= y.at[a][b][t][g] <= 2.0 * bound
    {
      DiffFlipAt(x, a, b, t, g);
    }
  }

  /** Running sum over time of one (a, b, g) series, steps 0..t. */
  function PrefixSum(x: Tensor4, a: nat, b: nat, g: nat, t: nat): real
    requires x.Valid() && a < x.d0 && b < x.d1 && t < x.d2 && g < x.d3
  {
    if t == 0 then x.at[a][b][0][g] else PrefixSum(x, a, b, g, t - 1) + x.at[a][b][t][g]
  }

  /** The difference is undone by the running sum: summing the differenced series up to t gives back
      the value stored at t. */
  lemma {:induction false} PrefixSumUndoesDiff(x: Tensor4, a: nat, b: nat, g: nat, t: nat)
    requires x.Valid() && a < x.d0 && b < x.d1 && t < x.d2 && g < x.d3
    ensures PrefixSum(DiffTime(x), a, b, g, t) == x.at[a][b][t][g]
  {
    if t > 0 {
      PrefixSumUndoesDiff(x, a, b, g, t - 1);
    }
  }

  /** Flipping twice gives back the tensor. */
  lemma FlipInvolution(x: Tensor4)
    requires x.Valid()
    ensures FlipTime(FlipTime(x)) == x
  {
    var y := FlipTime(FlipTime(x));
    forall a, b, t, g | 0 <= a < x.d0 && 0 <= b < x.d1 && 0 <= t < x.d2 && 0 <= g < x.d3
      ensures y.at[a][b][t][g] == x.at[a][b][t][g]
    {
      assert y.at[a][b][t][g] == FlipTime(x).at[a][b][x.d2 - 1 - t][g];
    }
    Tensor4Ext(y, x);
  }

  /** The marginal, time-aligned attribution of a buffer x whose cell t holds the effect of masking
      steps t..T-1: cell t < T-1 is the increment x[t] - x[t+1] of additionally masking step t, and
      cell T-1 keeps x[T-1]. */
  function Marginal(x: Tensor4): (r: Tensor4)
    requires x.Valid()
    ensures r.Valid() && r.d0 == x.d0 && r.d1 == x.d1 && r.d2 == x.d2 && r.d3 == x.d3
  {
    Tensor4(x.d0, x.d1, x.d2, x.d3,
      seq(x.d0, a requires 0 <= a < x.d0 =>
        seq(x.d1, b requires 0 <= b < x.d1 =>
          seq(x.d2, t requires 0 <= t < x.d2 =>
            seq(x.d3, g requires 0 <= g < x.d3 =>
              if t < x.d2 - 1 then x.at[a][b][t][g] - x.at[a][b][t + 1][g] else x.at[a][b][t][g])))))
  }

  /** Sum over time of one (a, b, g) series, steps t..T-1. */
  function SuffixSum(x: Tensor4, a: nat, b: nat, g: nat, t: nat): real
    requires x.Valid() && a < x.d0 && b < x.d1 && t < x.d2 && g < x.d3
    decreases x.d2 - t
  {
    if t == x.d2 - 1 then x.at[a][b][t][g] else x.at[a][b][t][g] + SuffixSum(x, a, b, g, t + 1)
  }

  /** The marginal attributions of steps t..T-1 add up to the effect of masking that whole suffix. */
  lemma {:induction false} MarginalSumsToSuffixEffect(x: Tensor4, a: nat, b: nat, g: nat, t: nat)
    requires x.Valid() && a < x.d0 && b < x.d1 && t < x.d2 && g < x.d3
    ensures SuffixSum(Marginal(x), a, b, g, t) == x.at[a][b][t][g]
    decreases x.d2 - t
  {
    if t < x.d2 - 1 {
      MarginalSumsToSuffixEffect(x, a, b, g, t + 1);
    }
  }

  /** Had the buffer been stored in masking order (the effect of masking the last n+1 steps at index
      n, that is at T-1-t), difference-then-flip would give exactly the marginal attribution. */
  lemma MaskingOrderGivesMarginal(x: Tensor4)
    requires x.Valid()
    ensures DiffFlip(FlipTime(x)) == Marginal(x)
  {
    var y := DiffFlip(FlipTime(x));
    var m := Marginal(x);
    forall a, b, t, g | 0 <= a < x.d0 && 0 <= b < x.d1 && 0 <= t < x.d2 && 0 <= g < x.d3
      ensures y.at[a][b][t][g] == m.at[a][b][t][g]
    {
      MaskingOrderCell(x, a, b, t, g);
    }
    Tensor4Ext(y, m);
  }

  lemma MaskingOrderCell(x: Tensor4, a: nat, b: nat, t: nat, g: nat)
    requires x.Valid() && a < x.d0 && b < x.d1 && t < x.d2 && g < x.d3
    ensures DiffFlip(FlipTime(x)).at[a][b][t][g] == Marginal(x).at[a][b][t][g]
  {
    var z := FlipTime(x);
    DiffFlipAt(z, a, b, t, g);
    if t < x.d2 - 1 {
      assert z.at[a][b][x.d2 - 1 - t][g] == x.at[a][b][t][g];
      assert z.at[a][b][x.d2 - 2 - t][g] == x.at[a][b][t + 1][g];
    } else {
      assert z.at[a][b][0][g] == x.at[a][b][x.d2 - 1][g];
    }
  }

  /** The post-processing with the buffer first put into masking order: flip, difference in place,
      flip again. It leaves the buffer alone and returns the marginal attribution of every step. */
  method MarginalCopy(buf: array4<real>) returns (out: array4<real>)
    ensures fresh(out)
    ensures Snapshot4(out) == Marginal(Snapshot4(buf))
  {
    var ordered := FlipTimeCopy(buf);
    DiffTimeInPlace(ordered);
    out := FlipTimeCopy(ordered);
    MaskingOrderGivesMarginal(Snapshot4(buf));
  }

  /** A buffer as the sweep fills it for a model that reacts only to time step s of the feature:
      every suffix mask that covers s has effect c, every other has none. */
  ghost predicate StepBuffer(x: Tensor4, s: nat, c: real)
    requires x.Valid()
  {
    forall a, b, t, g | 0 <= a < x.d0 && 0 <= b < x.d1 && 0 <= t < x.d2 && 0 <= g < x.d3 ::
      x.at[a][b][t][g] == if t <= s then c else 0.0
  }

  /** For such a buffer the marginal attribution is c at step s and zero elsewhere. */
  lemma MarginalLocalisesStep(x: Tensor4, s: nat, c: real)
    requires x.Valid() && s < x.d2 && StepBuffer(x, s, c)
    ensures forall a, b, t, g | 0 <= a < x.d0 && 0 <= b < x.d1 && 0 <= t < x.d2 && 0 <= g < x.d3 ::
      Marginal(x).at[a][b][t][g] == if t == s then c else 0.0
  {
  }

  /** For the same buffer, difference-then-flip as written puts c at the last step and -c at step
      T-2-s, and nothing at step s unless one of those coincides with it. */
  lemma DiffFlipMisplacesStep(x: Tensor4, s: nat, c: real)
    requires x.Valid() && s + 1 < x.d2 && StepBuffer(x, s, c)
    ensures forall a, b, t, g | 0 <= a < x.d0 && 0 <= b < x.d1 && 0 <= t < x.d2 && 0 <= g < x.d3 ::
      DiffFlip(x).at[a][b][t][g] ==
        if t == x.d2 - 1 then c else if t == x.d2 - 2 - s then -c else 0.0
  {
    forall a, b, t, g | 0 <= a < x.d0 && 0 <= b < x.d1 && 0 <= t < x.d2 && 0 <= g < x.d3
      ensures DiffFlip(x).at[a][b][t][g] ==
        if t == x.d2 - 1 then c else if t == x.d2 - 2 - s then -c else 0.0
    {
      DiffFlipAt(x, a, b, t, g);
    }
  }

  /** The four-step buffer of a model that reacts only to step 2 with effect 1: masking steps 0..3,
      1..3 or 2..3 moves the response by 1, masking step 3 alone does not. */
  function FourSteps(): (x: Tensor4)
    ensures x.Valid() && x.d2 == 4
  {
    Tensor4(1, 1, 4, 1, [[[[1.0], [1.0], [1.0], [0.0]]]])
  }

  /** As written, that buffer is attributed [-1, 0, 0, 1]: the effect lands on the last step, and a
      negative effect appears at step 0. */
  lemma FourStepsAsWritten()
    ensures DiffFlip(FourSteps()).at[0][0][0][0] == -1.0
    ensures DiffFlip(FourSteps()).at[0][0][1][0] == 0.0
    ensures DiffFlip(FourSteps()).at[0][0][2][0] == 0.0
    ensures DiffFlip(FourSteps()).at[0][0][3][0] == 1.0
  {
    var x := FourSteps();
    DiffFlipAt(x, 0, 0, 0, 0);
    DiffFlipAt(x, 0, 0, 1, 0);
    DiffFlipAt(x, 0, 0, 2, 0);
    DiffFlipAt(x, 0, 0, 3, 0);
  }

  /** The marginal attribution of the same buffer is [0, 0, 1, 0]: all of the effect at step 2. */
  lemma FourStepsMarginal()
    ensures Marginal(FourSteps()).at[0][0][0][0] == 0.0
    ensures Marginal(FourSteps()).at[0][0][1][0] == 0.0
    ensures Marginal(FourSteps()).at[0][0][2][0] == 1.0
    ensures Marginal(FourSteps()).at[0][0][3][0] == 0.0
  {
  }
}
