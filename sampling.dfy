/** Counterfactual sampling (`generate_counterfactuals`): replacement values for one feature, drawn
    with replacement from that feature's column of the reference data. The random generator is not
    modelled: the indices it draws are an argument. */
module Sampling {
  import opened Tensors

  /** The reference data the engine holds: one (samples, time, feature) array, or one such array per
      model input. */
  datatype RefData = Whole(x: Tensor3) | PerInput(xs: seq<Tensor3>)

  predicate DataValid(data: RefData) {
    match data
    case Whole(x) => x.Valid()
    case PerInput(xs) => forall i | 0 <= i < |xs| :: xs[i].Valid()
  }

  predicate HasFeature(rows: seq<seq<seq<real>>>, f: nat) {
    forall a, b | 0 <= a < |rows| && 0 <= b < |rows[a]| :: f < |rows[a][b]|
  }

  /** `rows[:, :, f].reshape(-1)`: feature column f, flattened in row-major order. Every cell of
      feature f is an entry (ColumnMembership gives the converse, ColumnAt the position). */
  function Column(rows: seq<seq<seq<real>>>, f: nat): (r: seq<real>)
    requires HasFeature(rows, f)
    ensures forall a, b | 0 <= a < |rows| && 0 <= b < |rows[a]| :: rows[a][b][f] in r
  {
    if rows == [] then []
    else
      var head := seq(|rows[0]|, b requires 0 <= b < |rows[0]| => rows[0][b][f]);
      var tail := Column(rows[1..], f);
      assert forall a, b | 1 <= a < |rows| && 0 <= b < |rows[a]| :: rows[a][b][f] in tail by {
        forall a, b | 1 <= a < |rows| && 0 <= b < |rows[a]| ensures rows[a][b][f] in tail {
          assert rows[a][b][f] == rows[1..][a - 1][b][f];
        }
      }
      assert forall b | 0 <= b < |rows[0]| :: rows[0][b][f] == head[b];
      head + tail
  }

  /** A value is in the flattened column exactly when some cell of feature f holds it. */
  lemma {:induction false} ColumnMembership(rows: seq<seq<seq<real>>>, f: nat, v: real)
    requires HasFeature(rows, f)
    ensures v in Column(rows, f) <==>
      exists a, b | 0 <= a < |rows| && 0 <= b < |rows[a]| :: v == rows[a][b][f]
  {
    if rows != [] {
      var head := seq(|rows[0]|, b requires 0 <= b < |rows[0]| => rows[0][b][f]);
      ColumnMembership(rows[1..], f, v);
      assert Column(rows, f) == head + Column(rows[1..], f);
      if v in Column(rows, f) {
        if v in head {
          var b :| 0 <= b < |head| && head[b] == v;
          assert v == rows[0][b][f];
        } else {
          assert v in Column(rows[1..], f);
          var a, b :| 0 <= a < |rows[1..]| && 0 <= b < |rows[1..][a]| && v == rows[1..][a][b][f];
          assert v == rows[a + 1][b][f];
        }
      }
      if exists a, b | 0 <= a < |rows| && 0 <= b < |rows[a]| :: v == rows[a][b][f] {
        var a, b :| 0 <= a < |rows| && 0 <= b < |rows[a]| && v == rows[a][b][f];
        if a == 0 {
          assert head[b] == v;
        } else {
          assert v == rows[1..][a - 1][b][f];
        }
      }
    }
  }

  /** Row-major order: with every row of length width, cell (a, b) sits at a * width + b. */
  lemma {:induction false} ColumnAt(rows: seq<seq<seq<real>>>, f: nat, width: nat, a: nat, b: nat)
    requires HasFeature(rows, f)
    requires forall r | 0 <= r < |rows| :: |rows[r]| == width
    requires a < |rows| && b < width
    ensures |Column(rows, f)| == |rows| * width
    ensures a * width + b < |Column(rows, f)|
    ensures Column(rows, f)[a * width + b] == rows[a][b][f]
  {
    ColumnLength(rows, f, width);
    FlatIndexInRange(a, b, |rows|, width);
    var head := seq(|rows[0]|, c requires 0 <= c < |rows[0]| => rows[0][c][f]);
    var tail := Column(rows[1..], f);
    assert Column(rows, f) == head + tail;
    if a > 0 {
      ColumnAt(rows[1..], f, width, a - 1, b);
      var k := (a - 1) * width + b;
      MulStep(a, width);
      assert a * width + b == |head| + k;
      assert tail[k] == rows[a][b][f];
    }
  }

  /** a * w == w + (a - 1) * w. */
  lemma MulStep(a: nat, w: nat)
    requires a > 0
    ensures a * w == w + (a - 1) * w
  {
  }

  lemma {:induction false} ColumnLength(rows: seq<seq<seq<real>>>, f: nat, width: nat)
    requires HasFeature(rows, f)
    requires forall r | 0 <= r < |rows| :: |rows[r]| == width
    ensures |Column(rows, f)| == |rows| * width
  {
    if rows != [] {
      ColumnLength(rows[1..], f, width);
      assert |rows| * width == width + (|rows| - 1) * width;
    }
  }

  /** (b, s) with b < rows and s < cols lies inside the flat range rows * cols. */
  lemma FlatIndexInRange(b: nat, s: nat, rows: nat, cols: nat)
    requires b < rows && s < cols
    ensures b * cols + s < rows * cols
  {
    assert b * cols + s < b * cols + cols == (b + 1) * cols <= rows * cols;
  }

  /** The array a successful pool is the column of. */
  function Source(data: RefData, inputIndex: Option<nat>): Tensor3
    requires inputIndex.Some? ==> data.PerInput? && inputIndex.value < |data.xs|
    requires inputIndex.None? ==> data.Whole?
  {
    if inputIndex.None? then data.x else data.xs[inputIndex.value]
  }

  /** The input index names an array of the data and the feature index a feature of that array. */
  predicate InScope(data: RefData, inputIndex: Option<nat>, f: nat) {
    match inputIndex
    case None => data.Whole? && f < data.x.d2
    case Some(i) => data.PerInput? && i < |data.xs| && f < data.xs[i].d2
  }

  /** The pool `generate_counterfactuals` draws from: the whole data set's column when no input is
      named, otherwise the named input's reference array. Indexing that does not fit the data raises. */
  function Pool(data: RefData, inputIndex: Option<nat>, f: nat): (r: Result<seq<real>>)
    requires DataValid(data)
    ensures r.Ok? <==> InScope(data, inputIndex, f)
    ensures r.Ok? ==>
      && (inputIndex.Some? ==> data.PerInput? && inputIndex.value < |data.xs|)
      && (inputIndex.None? ==> data.Whole?)
      && f < Source(data, inputIndex).d2
      && r.value == Column(Source(data, inputIndex).at, f)
  {
    match inputIndex
    case None =>
      (match data
       case Whole(x) => if f < x.d2 then Ok(Column(x.at, f)) else Err(ShapeMismatch)
       case PerInput(_) => Err(ShapeMismatch))
    case Some(i) =>
      (match data
       case PerInput(xs) =>
         if i < |xs| && f < xs[i].d2 then Ok(Column(xs[i].at, f)) else Err(ShapeMismatch)
       case Whole(_) => Err(ShapeMismatch))
  }

  /** What the random generator may return: indices into the pool (any sequence when the pool is
      empty, since then nothing can be drawn). */
  predicate DrawsFit(pool: Result<seq<real>>, draws: seq<nat>) {
    pool.Ok? && |pool.value| > 0 ==> forall j | 0 <= j < |draws| :: draws[j] < |pool.value|
  }

  /** The drawn indices laid out as a (batch, seqLen) matrix of pool values. */
  function Reshape(pool: seq<real>, draws: seq<nat>, batch: nat, seqLen: nat): (m: Matrix)
    requires |draws| == batch * seqLen
    requires forall j | 0 <= j < |draws| :: draws[j] < |pool|
    ensures m.Valid() && m.rows == batch && m.cols == seqLen
  {
    Matrix(batch, seqLen, seq(batch, b requires 0 <= b < batch =>
      seq(seqLen, s requires 0 <= s < seqLen =>
        FlatIndexInRange(b, s, batch, seqLen);
        pool[draws[b * seqLen + s]])))
  }

  /** Entry (b, s) of the reshaped matrix is the pool value at the (b * seqLen + s)-th drawn index:
      the row-major layout of `reshape((batch_size, seq_len))`. */
  lemma ReshapeFollowsDraws(pool: seq<real>, draws: seq<nat>, batch: nat, seqLen: nat)
    requires |draws| == batch * seqLen
    requires forall j | 0 <= j < |draws| :: draws[j] < |pool|
    ensures var m := Reshape(pool, draws, batch, seqLen);
      forall b, s | 0 <= b < batch && 0 <= s < seqLen ::
        && b * seqLen + s < |draws|
        && m.at[b][s] == pool[draws[b * seqLen + s]]
  {
    var m := Reshape(pool, draws, batch, seqLen);
    forall b, s | 0 <= b < batch && 0 <= s < seqLen
      ensures b * seqLen + s < |draws| && m.at[b][s] == pool[draws[b * seqLen + s]]
    {
      FlatIndexInRange(b, s, batch, seqLen);
    }
  }

  lemma ReshapeDrawsFromPool(pool: seq<real>, draws: seq<nat>, batch: nat, seqLen: nat)
    requires |draws| == batch * seqLen
    requires forall j | 0 <= j < |draws| :: draws[j] < |pool|
    ensures var m := Reshape(pool, draws, batch, seqLen);
      forall b, s | 0 <= b < batch && 0 <= s < seqLen :: m.at[b][s] in pool
  {
    var m := Reshape(pool, draws, batch, seqLen);
    forall b, s | 0 <= b < batch && 0 <= s < seqLen ensures m.at[b][s] in pool {
      FlatIndexInRange(b, s, batch, seqLen);
      assert m.at[b][s] == pool[draws[b * seqLen + s]];
    }
  }

  /** `generate_counterfactuals(batch_size, input_index, feature_index)` with the drawn indices
      given: a (batch, seqLen) matrix whose entry (b, s) is pool[draws[b * seqLen + s]]. Drawing
      from an empty pool raises. */
  function GenerateCounterfactuals(data: RefData, inputIndex: Option<nat>, f: nat,
                                   batch: nat, seqLen: nat, draws: seq<nat>): (r: Result<Matrix>)
    requires DataValid(data)
    requires |draws| == batch * seqLen
    requires DrawsFit(Pool(data, inputIndex, f), draws)
    ensures var pool := Pool(data, inputIndex, f);
      r.Ok? <==> pool.Ok? && (|pool.value| > 0 || |draws| == 0)
    ensures r.Ok? ==> r.value.Valid() && r.value.rows == batch && r.value.cols == seqLen
    ensures r.Ok? ==> forall b, s | 0 <= b < batch && 0 <= s < seqLen ::
      r.value.at[b][s] in Pool(data, inputIndex, f).value
    ensures r.Ok? ==> var pool := Pool(data, inputIndex, f).value;
      forall b, s | 0 <= b < batch && 0 <= s < seqLen ::
        && b * seqLen + s < |draws|
        && draws[b * seqLen + s] < |pool|
        && r.value.at[b][s] == pool[draws[b * seqLen + s]]
  {
    match Pool(data, inputIndex, f)
    case Err(e) => Err(e)
    case Ok(pool) =>
      if |pool| == 0 && |draws| > 0 then Err(EmptyPool)
      else
        ReshapeDrawsFromPool(pool, draws, batch, seqLen);
        ReshapeFollowsDraws(pool, draws, batch, seqLen);
        Ok(Reshape(pool, draws, batch, seqLen))
  }

  /** Some cell of feature f of x holds v. */
  ghost predicate InFeature(x: Tensor3, f: nat, v: real)
    requires x.Valid() && f < x.d2
  {
    exists n, t | 0 <= n < x.d0 && 0 <= t < x.d1 :: v == x.at[n][t][f]
  }

  /** Every counterfactual value is a value of feature f somewhere in the reference array it was
      drawn from: the whole data set when no input is named, the named input's array otherwise. */
  lemma CounterfactualsComeFromFeature(data: RefData, inputIndex: Option<nat>, f: nat,
                                       batch: nat, seqLen: nat, draws: seq<nat>)
    requires DataValid(data)
    requires |draws| == batch * seqLen
    requires DrawsFit(Pool(data, inputIndex, f), draws)
    ensures var r := GenerateCounterfactuals(data, inputIndex, f, batch, seqLen, draws);
      r.Ok? ==>
        && (inputIndex.Some? ==> data.PerInput? && inputIndex.value < |data.xs|)
        && (inputIndex.None? ==> data.Whole?)
        && var x := Source(data, inputIndex);
           forall b, s | 0 <= b < batch && 0 <= s < seqLen :: InFeature(x, f, r.value.at[b][s])
  {
    var r := GenerateCounterfactuals(data, inputIndex, f, batch, seqLen, draws);
    if r.Ok? {
      assert Pool(data, inputIndex, f).Ok?;
      assert inputIndex.Some? ==> data.PerInput? && inputIndex.value < |data.xs|;
      assert inputIndex.None? ==> data.Whole?;
      var x := Source(data, inputIndex);
      forall b, s | 0 <= b < batch && 0 <= s < seqLen
        ensures InFeature(x, f, r.value.at[b][s])
      {
        assert x.Valid();
        var v := r.value.at[b][s];
        ColumnMembership(x.at, f, v);
        var n, t :| 0 <= n < |x.at| && 0 <= t < |x.at[n]| && v == x.at[n][t][f];
        assert 0 <= n < x.d0 && 0 <= t < x.d1;
      }
    }
  }
}
