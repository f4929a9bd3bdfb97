/** The few numeric kernels the engine needs. The exponential and the logarithm of the tensor
    library are floating-point routines; here they are uninterpreted real functions, and only
    the positivity of the exponential is assumed of them. */
module Numerics {
  import opened Tensors

  datatype Kernels = Kernels(exp: real -> real, log: real -> real)

  /** The one fact about the exponential that softmax needs: it never reaches zero. */
  ghost predicate ExpPositive(k: Kernels) {
    forall x :: k.exp(x) > 0.0
  }

  lemma ExpAt(k: Kernels, y: real)
    requires ExpPositive(k)
    ensures k.exp(y) > 0.0
  {
  }

  function Abs(x: real): (r: real)
    ensures r >= 0.0 && (r == x || r == -x)
  {
    if x < 0.0 then -x else x
  }

  /** Sum of a vector, as the tensor library's sum over one axis. */
  function Sum(v: seq<real>): real {
    if v == [] then 0.0 else v[0] + Sum(v[1..])
  }

  lemma {:induction false} SumNonNegative(v: seq<real>)
    requires forall j | 0 <= j < |v| :: v[j] >= 0.0
    ensures Sum(v) >= 0.0
  {
    if v != [] {
      SumNonNegative(v[1..]);
    }
  }

  lemma {:induction false} SumPositive(v: seq<real>)
    requires |v| > 0
    requires forall j | 0 <= j < |v| :: v[j] > 0.0
    ensures Sum(v) > 0.0
  {
    if |v| > 1 {
      SumPositive(v[1..]);
    }
  }

  lemma {:induction false} SumZero(v: seq<real>)
    requires forall j | 0 <= j < |v| :: v[j] == 0.0
    ensures Sum(v) == 0.0
  {
    if v != [] {
      SumZero(v[1..]);
    }
  }

  /** Dividing every entry by d divides the sum by d. */
  lemma {:induction false} SumDivide(v: seq<real>, w: seq<real>, d: real)
    requires d != 0.0
    requires |w| == |v| && forall j | 0 <= j < |v| :: w[j] == v[j] / d
    ensures Sum(w) == Sum(v) / d
  {
    if v != [] {
      SumDivide(v[1..], w[1..], d);
      calc {
        Sum(w);
        w[0] + Sum(w[1..]);
        v[0] / d + Sum(v[1..]) / d;
        (v[0] + Sum(v[1..])) / d;
      }
    }
  }

  /** exp applied entry by entry. */
  function Exps(k: Kernels, v: seq<real>): (e: seq<real>)
    ensures |e| == |v| && forall j | 0 <= j < |v| :: e[j] == k.exp(v[j])
  {
    seq(|v|, j requires 0 <= j < |v| => k.exp(v[j]))
  }

  lemma ExpsPositive(k: Kernels, v: seq<real>)
    requires ExpPositive(k)
    ensures forall j | 0 <= j < |v| :: Exps(k, v)[j] > 0.0
  {
    var e := Exps(k, v);
    forall j | 0 <= j < |v| ensures e[j] > 0.0 {
      var y := v[j];
      assert e[j] == k.exp(y);
      ExpAt(k, y);
    }
  }

  /** Softmax of one vector: exp(v[j]) / sum of exp(v). */
  function Softmax(k: Kernels, v: seq<real>): (p: seq<real>)
    requires ExpPositive(k)
    ensures |p| == |v|
  {
    var e := Exps(k, v);
    if v == [] then [] else
      ExpsPositive(k, v);
      SumPositive(e);
      seq(|v|, j requires 0 <= j < |v| => e[j] / Sum(e))
  }

  /** Softmax yields a probability distribution: positive entries that sum to one. */
  lemma SoftmaxIsDistribution(k: Kernels, v: seq<real>)
    requires ExpPositive(k) && |v| > 0
    ensures forall j | 0 <= j < |v| :: Softmax(k, v)[j] > 0.0
    ensures Sum(Softmax(k, v)) == 1.0
  {
    var e := Exps(k, v);
    ExpsPositive(k, v);
    SumPositive(e);
    var d := Sum(e);
    var p := Softmax(k, v);
    assert p == seq(|v|, j requires 0 <= j < |v| => e[j] / d);
    forall j | 0 <= j < |v| ensures p[j] > 0.0 {
      QuotientPositive(e[j], d);
    }
    SumDivide(e, p, d);
    QuotientSelf(d);
  }

  lemma QuotientSelf(d: real)
    requires d != 0.0
    ensures d / d == 1.0
  {
  }

  lemma QuotientPositive(x: real, d: real)
    requires x > 0.0 && d > 0.0
    ensures x / d > 0.0
  {
  }

  /** Softmax over axis 1 of a (batch, classes) matrix, row by row. */
  function SoftmaxRows(k: Kernels, m: Matrix): (p: Matrix)
    requires ExpPositive(k) && m.Valid()
    ensures p.Valid() && p.rows == m.rows && p.cols == m.cols
  {
    Matrix(m.rows, m.cols, seq(m.rows, r requires 0 <= r < m.rows => Softmax(k, m.at[r])))
  }

  const ClipBound: real := 1000000.0

  /** The clip to [-1e6, 1e6] applied to every score before it is stored: a score outside the
      range goes to the nearer bound. */
  function Clip(x: real): (r: real)
    ensures -ClipBound <= r <= ClipBound
    ensures -ClipBound <= x <= ClipBound ==> r == x
    ensures x < -ClipBound ==> r == -ClipBound
    ensures x > ClipBound ==> r == ClipBound
  {
    if x < -ClipBound then -ClipBound else if x > ClipBound then ClipBound else x
  }

  function ClipAll(m: Matrix): (c: Matrix)
    requires m.Valid()
    ensures c.Valid() && c.rows == m.rows && c.cols == m.cols
    ensures forall r, j | 0 <= r < m.rows && 0 <= j < m.cols :: c.at[r][j] == Clip(m.at[r][j])
  {
    Matrix(m.rows, m.cols, seq(m.rows, r requires 0 <= r < m.rows =>
      seq(m.cols, j requires 0 <= j < m.cols => Clip(m.at[r][j]))))
  }
}
