/** Dense real tensors of rank 2, 3 and 4 that carry their shape explicitly (so that an empty batch
    still knows its other extents), and the failure outcomes of the attribution engine. */
module Tensors {

  /** Why an operation of the engine raises instead of returning a value. */
  datatype Failure =
    | UnknownMetric(name: string)   // the metric name is none of "kl", "js", "pd"
    | ShapeMismatch                 // tensors whose shapes do not fit the operation
    | EmptyPool                     // a sample was requested from an empty pool of values

  datatype Result<+T> = Ok(value: T) | Err(error: Failure)

  datatype Option<+T> = None | Some(value: T)

  /** A (rows x cols) tensor. */
  datatype Matrix = Matrix(rows: nat, cols: nat, at: seq<seq<real>>) {
    predicate Valid() {
      |at| == rows && forall r | 0 <= r < rows :: |at[r]| == cols
    }
  }

  /** A (d0 x d1 x d2) tensor; an input is (batch, time, feature). */
  datatype Tensor3 = Tensor3(d0: nat, d1: nat, d2: nat, at: seq<seq<seq<real>>>) {
    predicate Valid() {
      && |at| == d0
      && (forall a | 0 <= a < d0 :: |at[a]| == d1)
      && (forall a, b | 0 <= a < d0 && 0 <= b < d1 :: |at[a][b]| == d2)
    }
  }

  /** A (d0 x d1 x d2 x d3) tensor; an attribution is (batch, output, time, feature). */
  datatype Tensor4 = Tensor4(d0: nat, d1: nat, d2: nat, d3: nat, at: seq<seq<seq<seq<real>>>>) {
    predicate Valid() {
      && |at| == d0
      && (forall a | 0 <= a < d0 :: |at[a]| == d1)
      && (forall a, b | 0 <= a < d0 && 0 <= b < d1 :: |at[a][b]| == d2)
      && (forall a, b, c | 0 <= a < d0 && 0 <= b < d1 && 0 <= c < d2 :: |at[a][b][c]| == d3)
    }
  }

  /** Two valid matrices of the same shape that agree cell by cell are equal. */
  lemma MatrixExt(x: Matrix, y: Matrix)
    requires x.Valid() && y.Valid() && x.rows == y.rows && x.cols == y.cols
    requires forall r, c | 0 <= r < x.rows && 0 <= c < x.cols :: x.at[r][c] == y.at[r][c]
    ensures x == y
  {
    forall r | 0 <= r < x.rows ensures x.at[r] == y.at[r] {
    }
  }

  /** Two valid rank-3 tensors of the same shape that agree cell by cell are equal. */
  lemma Tensor3Ext(x: Tensor3, y: Tensor3)
    requires x.Valid() && y.Valid() && x.d0 == y.d0 && x.d1 == y.d1 && x.d2 == y.d2
    requires forall a, b, c | 0 <= a < x.d0 && 0 <= b < x.d1 && 0 <= c < x.d2 :: x.at[a][b][c] == y.at[a][b][c]
    ensures x == y
  {
    forall a | 0 <= a < x.d0 ensures x.at[a] == y.at[a] {
      forall b | 0 <= b < x.d1 ensures x.at[a][b] == y.at[a][b] {
      }
    }
  }

  /** Two valid rank-4 tensors of the same shape that agree cell by cell are equal. */
  lemma Tensor4Ext(x: Tensor4, y: Tensor4)
    requires x.Valid() && y.Valid() && x.d0 == y.d0 && x.d1 == y.d1 && x.d2 == y.d2 && x.d3 == y.d3
    requires forall a, b, c, d | 0 <= a < x.d0 && 0 <= b < x.d1 && 0 <= c < x.d2 && 0 <= d < x.d3 ::
               x.at[a][b][c][d] == y.at[a][b][c][d]
    ensures x == y
  {
    forall a | 0 <= a < x.d0 ensures x.at[a] == y.at[a] {
      forall b | 0 <= b < x.d1 ensures x.at[a][b] == y.at[a][b] {
        forall c | 0 <= c < x.d2 ensures x.at[a][b][c] == y.at[a][b][c] {
        }
      }
    }
  }

  /** The value of a rank-3 array. */
  function Snapshot3(a: array3<real>): (x: Tensor3)
    reads a
    ensures x.Valid() && x.d0 == a.Length0 && x.d1 == a.Length1 && x.d2 == a.Length2
    ensures forall n, s, g | 0 <= n < a.Length0 && 0 <= s < a.Length1 && 0 <= g < a.Length2 ::
      x.at[n][s][g] == a[n, s, g]
  {
    Tensor3(a.Length0, a.Length1, a.Length2,
      seq(a.Length0, n requires 0 <= n < a.Length0 reads a =>
        seq(a.Length1, s requires 0 <= s < a.Length1 reads a =>
          seq(a.Length2, g requires 0 <= g < a.Length2 reads a => a[n, s, g]))))
  }

  /** The value of a rank-4 array. */
  function Snapshot4(a: array4<real>): (x: Tensor4)
    reads a
    ensures x.Valid() && x.d0 == a.Length0 && x.d1 == a.Length1 && x.d2 == a.Length2 && x.d3 == a.Length3
    ensures forall p, q, s, g | 0 <= p < a.Length0 && 0 <= q < a.Length1 && 0 <= s < a.Length2 && 0 <= g < a.Length3 ::
      x.at[p][q][s][g] == a[p, q, s, g]
  {
    Tensor4(a.Length0, a.Length1, a.Length2, a.Length3,
      seq(a.Length0, p requires 0 <= p < a.Length0 reads a =>
        seq(a.Length1, q requires 0 <= q < a.Length1 reads a =>
          seq(a.Length2, s requires 0 <= s < a.Length2 reads a =>
            seq(a.Length3, g requires 0 <= g < a.Length3 reads a => a[p, q, s, g])))))
  }
}
