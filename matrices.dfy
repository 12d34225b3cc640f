/** Dense real vectors and matrices, enough of Eigen's `VectorXd` / `MatrixXd`
    arithmetic for the redundancy-resolution solver: dot products, matrix-vector
    and matrix-matrix products, sums, differences, scaling, zero and identity.
    Every C++ `double` is an exact `real` here. */
module Matrices {

  type Vector = seq<real>

  /** A matrix with its dimensions, as Eigen's dynamic matrices carry them
      (a 0 x n matrix still knows its n). */
  datatype RawMatrix = RawMatrix(rows: nat, cols: nat, entries: seq<seq<real>>)

  type Matrix = m: RawMatrix | |m.entries| == m.rows && forall i :: 0 <= i < m.rows ==> |m.entries[i]| == m.cols
    witness RawMatrix(0, 0, [])

  function Dot(a: Vector, b: Vector): real
    requires |a| == |b|
    decreases |a|
  {
    if |a| == 0 then 0.0 else a[0] * b[0] + Dot(a[1..], b[1..])
  }

  /** The squared Euclidean norm; `v.norm() > t` for `t >= 0` is `SquaredNorm(v) > t * t`. */
  function SquaredNorm(v: Vector): real
  {
    Dot(v, v)
  }

  function Zero(n: nat): (r: Vector)
    ensures |r| == n && forall i :: 0 <= i < n ==> r[i] == 0.0
  {
    seq(n, i => 0.0)
  }

  function Add(u: Vector, v: Vector): (r: Vector)
    requires |u| == |v|
    ensures |r| == |u| && forall i :: 0 <= i < |r| ==> r[i] == u[i] + v[i]
  {
    seq(|u|, i requires 0 <= i < |u| => u[i] + v[i])
  }

  function Sub(u: Vector, v: Vector): (r: Vector)
    requires |u| == |v|
    ensures |r| == |u| && forall i :: 0 <= i < |r| ==> r[i] == u[i] - v[i]
  {
    seq(|u|, i requires 0 <= i < |u| => u[i] - v[i])
  }

  function Scale(k: real, v: Vector): (r: Vector)
    ensures |r| == |v| && forall i :: 0 <= i < |r| ==> r[i] == k * v[i]
  {
    seq(|v|, i requires 0 <= i < |v| => k * v[i])
  }

  /** Eigen's `Identity(rows, cols)`: ones on the main diagonal, also when not square. */
  function Identity(rows: nat, cols: nat): (r: Matrix)
    ensures r.rows == rows && r.cols == cols
    ensures forall i, j :: 0 <= i < rows && 0 <= j < cols ==> r.entries[i][j] == if i == j then 1.0 else 0.0
  {
    RawMatrix(rows, cols, seq(rows, i => seq(cols, j => if i == j then 1.0 else 0.0)))
  }

  function Column(m: Matrix, j: nat): (r: Vector)
    requires j < m.cols
    ensures |r| == m.rows && forall k :: 0 <= k < m.rows ==> r[k] == m.entries[k][j]
  {
    seq(m.rows, k requires 0 <= k < m.rows => m.entries[k][j])
  }

  /** The matrix-vector product `m * v`. */
  function Apply(m: Matrix, v: Vector): (r: Vector)
    requires |v| == m.cols
    ensures |r| == m.rows && forall i :: 0 <= i < m.rows ==> r[i] == Dot(m.entries[i], v)
  {
    seq(m.rows, i requires 0 <= i < m.rows => Dot(m.entries[i], v))
  }

  /** The matrix product `a * b`. */
  function MatMul(a: Matrix, b: Matrix): (r: Matrix)
    requires a.cols == b.rows
    ensures r.rows == a.rows && r.cols == b.cols
    ensures forall i, j :: 0 <= i < a.rows && 0 <= j < b.cols ==> r.entries[i][j] == Dot(a.entries[i], Column(b, j))
  {
    RawMatrix(a.rows, b.cols, seq(a.rows, i requires 0 <= i < a.rows => RowTimes(a.entries[i], b)))
  }

  /** The row vector `x^T * b`. */
  function RowTimes(x: Vector, b: Matrix): (r: Vector)
    requires |x| == b.rows
    ensures |r| == b.cols && forall j :: 0 <= j < b.cols ==> r[j] == Dot(x, Column(b, j))
  {
    seq(b.cols, j requires 0 <= j < b.cols => Dot(x, Column(b, j)))
  }

  /** The matrix difference `a - b`. */
  function MatSub(a: Matrix, b: Matrix): (r: Matrix)
    requires a.rows == b.rows && a.cols == b.cols
    ensures r.rows == a.rows && r.cols == a.cols
    ensures forall i :: 0 <= i < a.rows ==> r.entries[i] == Sub(a.entries[i], b.entries[i])
  {
    RawMatrix(a.rows, a.cols, seq(a.rows, i requires 0 <= i < a.rows => Sub(a.entries[i], b.entries[i])))
  }

  /** Vector sums may be taken in either order. */
  lemma AddSwap(u: Vector, v: Vector, w: Vector)
    requires |u| == |v| == |w|
    ensures Add(Add(u, v), w) == Add(Add(u, w), v)
  {
  }

  // ---------------------------------------------------------------------------
  // Linearity of the dot product and of the matrix-vector product.

  lemma {:induction false} DotZeroLeft(v: Vector)
    ensures Dot(Zero(|v|), v) == 0.0
  {
    if |v| > 0 {
      assert Zero(|v|)[1..] == Zero(|v| - 1);
      DotZeroLeft(v[1..]);
    }
  }

  lemma {:induction false} DotZeroRight(v: Vector)
    ensures Dot(v, Zero(|v|)) == 0.0
  {
    if |v| > 0 {
      assert Zero(|v|)[1..] == Zero(|v| - 1);
      DotZeroRight(v[1..]);
    }
  }

  lemma {:induction false} DotAddLeft(u: Vector, w: Vector, v: Vector)
    requires |u| == |w| == |v|
    ensures Dot(Add(u, w), v) == Dot(u, v) + Dot(w, v)
  {
    if |v| > 0 {
      assert Add(u, w)[1..] == Add(u[1..], w[1..]);
      DotAddLeft(u[1..], w[1..], v[1..]);
    }
  }

  lemma {:induction false} DotAddRight(x: Vector, u: Vector, w: Vector)
    requires |x| == |u| == |w|
    ensures Dot(x, Add(u, w)) == Dot(x, u) + Dot(x, w)
  {
    if |x| > 0 {
      assert Add(u, w)[1..] == Add(u[1..], w[1..]);
      DotAddRight(x[1..], u[1..], w[1..]);
    }
  }

  lemma {:induction false} DotSubLeft(u: Vector, w: Vector, v: Vector)
    requires |u| == |w| == |v|
    ensures Dot(Sub(u, w), v) == Dot(u, v) - Dot(w, v)
  {
    if |v| > 0 {
      assert Sub(u, w)[1..] == Sub(u[1..], w[1..]);
      DotSubLeft(u[1..], w[1..], v[1..]);
    }
  }

  lemma {:induction false} DotScaleLeft(k: real, u: Vector, v: Vector)
    requires |u| == |v|
    ensures Dot(Scale(k, u), v) == k * Dot(u, v)
  {
    if |v| > 0 {
      forall i | 0 <= i < |u| - 1 ensures Scale(k, u)[1..][i] == Scale(k, u[1..])[i] {
        assert u[1..][i] == u[i + 1];
      }
      assert Scale(k, u)[1..] == Scale(k, u[1..]);
      DotScaleLeft(k, u[1..], v[1..]);
    }
  }

  /** Dotting with a row of the identity picks out one entry. */
  lemma {:induction false} DotUnit(n: nat, i: nat, v: Vector)
    requires i < n == |v|
    ensures Dot(Identity(n, n).entries[i], v) == v[i]
  {
    var e := Identity(n, n).entries[i];
    UnitRowDot(e, i, v);
  }

  lemma {:induction false} UnitRowDot(e: Vector, i: nat, v: Vector)
    requires i < |e| == |v|
    requires forall j :: 0 <= j < |e| ==> e[j] == if i == j then 1.0 else 0.0
    ensures Dot(e, v) == v[i]
  {
    if i == 0 {
      assert e[1..] == Zero(|e| - 1);
      DotZeroLeft(v[1..]);
    } else {
      UnitRowDot(e[1..], i - 1, v[1..]);
    }
  }

  lemma ApplyZero(m: Matrix)
    ensures Apply(m, Zero(m.cols)) == Zero(m.rows)
  {
    forall i | 0 <= i < m.rows
      ensures Apply(m, Zero(m.cols))[i] == 0.0
    {
      DotZeroRight(m.entries[i]);
    }
  }

  lemma ApplyAdd(m: Matrix, u: Vector, w: Vector)
    requires |u| == |w| == m.cols
    ensures Apply(m, Add(u, w)) == Add(Apply(m, u), Apply(m, w))
  {
    forall i | 0 <= i < m.rows
      ensures Apply(m, Add(u, w))[i] == Add(Apply(m, u), Apply(m, w))[i]
    {
      DotAddRight(m.entries[i], u, w);
    }
  }

  /** The matrix without its first row. */
  function DropRow(b: Matrix): (r: Matrix)
    requires 0 < b.rows
    ensures r.rows == b.rows - 1 && r.cols == b.cols && r.entries == b.entries[1..]
  {
    RawMatrix(b.rows - 1, b.cols, b.entries[1..])
  }

  /** `x^T b` splits into the first row's share and the rest's. */
  lemma RowTimesSplit(x: Vector, b: Matrix)
    requires |x| == b.rows && 0 < b.rows
    ensures RowTimes(x, b) == Add(Scale(x[0], b.entries[0]), RowTimes(x[1..], DropRow(b)))
  {
    var rest := DropRow(b);
    forall j | 0 <= j < b.cols
      ensures RowTimes(x, b)[j] == Add(Scale(x[0], b.entries[0]), RowTimes(x[1..], rest))[j]
    {
      assert Column(b, j)[1..] == Column(rest, j);
    }
  }

  /** The bilinear identity `(x^T b) v == x^T (b v)`. */
  lemma {:induction false} RowTimesDot(x: Vector, b: Matrix, v: Vector)
    requires |x| == b.rows && |v| == b.cols
    ensures Dot(RowTimes(x, b), v) == Dot(x, Apply(b, v))
    decreases b.rows
  {
    if b.rows == 0 {
      assert RowTimes(x, b) == Zero(b.cols);
      DotZeroLeft(v);
    } else {
      var rest := DropRow(b);
      RowTimesSplit(x, b);
      DotAddLeft(Scale(x[0], b.entries[0]), RowTimes(x[1..], rest), v);
      DotScaleLeft(x[0], b.entries[0], v);
      RowTimesDot(x[1..], rest, v);
      assert Apply(b, v)[1..] == Apply(rest, v);
    }
  }

  /** Applying a product is applying its factors in turn: `(a b) v == a (b v)`. */
  lemma ApplyMatMul(a: Matrix, b: Matrix, v: Vector)
    requires a.cols == b.rows && |v| == b.cols
    ensures Apply(MatMul(a, b), v) == Apply(a, Apply(b, v))
  {
    forall i | 0 <= i < a.rows
      ensures Apply(MatMul(a, b), v)[i] == Apply(a, Apply(b, v))[i]
    {
      assert MatMul(a, b).entries[i] == RowTimes(a.entries[i], b);
      RowTimesDot(a.entries[i], b, v);
    }
  }
}
