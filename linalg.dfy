/**
 * Dense real matrices as row-major sequences of rows, with the handful of
 * numpy operations the engine uses: dot products, transposes, products and
 * the ridge term k + lambda * I.
 */
module LinAlg {

  type Vector = seq<real>
  type Matrix = seq<seq<real>>

  /** `m` has `rows` rows of `cols` entries each. */
  ghost predicate IsMatrix(m: Matrix, rows: nat, cols: nat) {
    |m| == rows && forall i :: 0 <= i < rows ==> |m[i]| == cols
  }

  ghost predicate IsSquare(m: Matrix) {
    IsMatrix(m, |m|, |m|)
  }

  function SameMatrix(m: Matrix): Matrix { m }

  /**
   * An opaque inversion routine (faster_inverse / np.linalg.inv): nothing is
   * known of its result except that a square matrix maps to a square matrix
   * of the same size.
   */
  type Inverter = f: Matrix -> Matrix
    | forall m {:trigger f(m)} :: IsSquare(m) ==> |f(m)| == |m| && IsSquare(f(m))
    witness SameMatrix

  /** The sum of u[i] * v[i] over i < n, accumulated from index 0 upward. */
  function Dot(u: Vector, v: Vector, n: nat): real
    requires n <= |u| && n <= |v|
  {
    if n == 0 then 0.0 else Dot(u, v, n - 1) + u[n - 1] * v[n - 1]
  }

  lemma {:induction false} DotCommutes(u: Vector, v: Vector, n: nat)
    requires n <= |u| && n <= |v|
    ensures Dot(u, v, n) == Dot(v, u, n)
  {
    if n > 0 {
      DotCommutes(u, v, n - 1);
    }
  }

  /** Column j of m, that is m[:, j]. */
  function Column(m: Matrix, j: nat): (c: Vector)
    requires forall i :: 0 <= i < |m| ==> j < |m[i]|
    ensures |c| == |m|
  {
    seq(|m|, i requires 0 <= i < |m| => m[i][j])
  }

  /** m.T for a matrix with `cols` columns. */
  function Transpose(m: Matrix, cols: nat): (t: Matrix)
    requires IsMatrix(m, |m|, cols)
    ensures IsMatrix(t, cols, |m|)
  {
    seq(cols, j requires 0 <= j < cols => Column(m, j))
  }

  /** np.dot(a, b) for a of shape p x q and b of shape q x r. */
  function MatMul(a: Matrix, b: Matrix, q: nat, r: nat): (c: Matrix)
    requires IsMatrix(a, |a|, q) && IsMatrix(b, q, r)
    ensures IsMatrix(c, |a|, r)
  {
    seq(|a|, i requires 0 <= i < |a| =>
      seq(r, j requires 0 <= j < r => Dot(a[i], Column(b, j), q)))
  }

  /** np.dot(m, v) for m with |v| columns. */
  function MatVec(m: Matrix, v: Vector): (w: Vector)
    requires IsMatrix(m, |m|, |v|)
    ensures |w| == |m|
  {
    seq(|m|, i requires 0 <= i < |m| => Dot(m[i], v, |v|))
  }

  /** k + lambda * np.identity(len(k)). */
  function Ridge(k: Matrix, lambd: real): (m: Matrix)
    requires IsSquare(k)
    ensures IsSquare(m) && |m| == |k|
    ensures forall i, j :: 0 <= i < |k| && 0 <= j < |k| ==>
      m[i][j] == if i == j then k[i][j] + lambd else k[i][j]
  {
    seq(|k|, i requires 0 <= i < |k| =>
      seq(|k|, j requires 0 <= j < |k| => k[i][j] + (if i == j then lambd else 0.0)))
  }

  ghost predicate Symmetric(m: Matrix) {
    forall i, j :: 0 <= i < |m| && 0 <= j < |m| && j < |m[i]| && i < |m[j]| ==> m[i][j] == m[j][i]
  }

  /**
   * The Gram matrix b.T * b of a matrix with `cols` columns is square of
   * size `cols`, symmetric, and entry (i, j) is the inner product of
   * columns i and j of b.
   */
  lemma GramIsSymmetric(b: Matrix, cols: nat)
    requires IsMatrix(b, |b|, cols)
    ensures IsMatrix(MatMul(Transpose(b, cols), b, |b|, cols), cols, cols)
    ensures forall i, j :: 0 <= i < cols && 0 <= j < cols ==>
      MatMul(Transpose(b, cols), b, |b|, cols)[i][j] == Dot(Column(b, i), Column(b, j), |b|)
    ensures Symmetric(MatMul(Transpose(b, cols), b, |b|, cols))
  {
    var g := MatMul(Transpose(b, cols), b, |b|, cols);
    forall i, j | 0 <= i < cols && 0 <= j < cols
      ensures g[i][j] == g[j][i]
    {
      DotCommutes(Column(b, i), Column(b, j), |b|);
    }
  }

  /** The identity matrix of size n. */
  function Identity(n: nat): (m: Matrix)
    ensures IsSquare(m) && |m| == n
  {
    seq(n, i requires 0 <= i < n => seq(n, j requires 0 <= j < n => if i == j then 1.0 else 0.0))
  }

  /** x is a right inverse of a: a * x == I. */
  ghost predicate RightInverse(a: Matrix, x: Matrix) {
    IsSquare(a) && IsMatrix(x, |a|, |a|) && MatMul(a, x, |a|, |a|) == Identity(|a|)
  }

  /** A dot product against an all-zero prefix is zero. */
  lemma {:induction false} DotZero(s: Vector, v: Vector, m: nat)
    requires m <= |s| && m <= |v|
    requires forall k :: 0 <= k < m ==> s[k] == 0.0
    ensures Dot(s, v, m) == 0.0
  {
    if m > 0 {
      DotZero(s, v, m - 1);
    }
  }

  /** Dot is linear in its first argument: (u + c * w) . v == u . v + c * (w . v). */
  lemma {:induction false} DotAddScaled(s: Vector, u: Vector, w: Vector, c: real, v: Vector, m: nat)
    requires m <= |s| && m <= |u| && m <= |w| && m <= |v|
    requires forall k :: 0 <= k < m ==> s[k] == u[k] + c * w[k]
    ensures Dot(s, v, m) == Dot(u, v, m) + c * Dot(w, v, m)
  {
    if m > 0 {
      DotAddScaled(s, u, w, c, v, m - 1);
      var k := m - 1;
      assert s[k] * v[k] == u[k] * v[k] + c * (w[k] * v[k]);
    }
  }

  /**
   * Summation order can be exchanged: a . (x v) == (a x) . v, where row k of
   * the row vector a x is the inner product of a with column k of x.
   */
  lemma {:induction false} DotMatVec(a: Vector, x: Matrix, v: Vector, w: Vector, n: nat)
    requires n <= |a| && n <= |x| && IsMatrix(x, |x|, |v|) && |w| == |v|
    requires forall k :: 0 <= k < |v| ==> w[k] == Dot(a, Column(x, k), n)
    ensures Dot(a, MatVec(x, v), n) == Dot(w, v, |v|)
    decreases n
  {
    var m := |v|;
    if n == 0 {
      DotZero(w, v, m);
    } else {
      var w' := seq(m, k requires 0 <= k < m => Dot(a, Column(x, k), n - 1));
      DotMatVec(a, x, v, w', n - 1);
      DotMatVecStep(a, x, v, w, w', n);
    }
  }

  /** The induction step of DotMatVec: from n - 1 rows of x to n. */
  lemma DotMatVecStep(a: Vector, x: Matrix, v: Vector, w: Vector, w': Vector, n: nat)
    requires 0 < n <= |a| && n <= |x| && IsMatrix(x, |x|, |v|) && |w| == |v| && |w'| == |v|
    requires forall k :: 0 <= k < |v| ==> w[k] == Dot(a, Column(x, k), n)
    requires forall k :: 0 <= k < |v| ==> w'[k] == Dot(a, Column(x, k), n - 1)
    requires Dot(a, MatVec(x, v), n - 1) == Dot(w', v, |v|)
    ensures Dot(a, MatVec(x, v), n) == Dot(w, v, |v|)
  {
    var m := |v|;
    ColumnDotStep(a, x, w, w', n, m);
    DotAddScaled(w, w', x[n - 1], a[n - 1], v, m);
    DotStep(a, MatVec(x, v), w, w', v, x[n - 1], n);
  }

  /** The last step of DotMatVec: one more product on each side. */
  lemma DotStep(a: Vector, xv: Vector, w: Vector, w': Vector, v: Vector, row: Vector, n: nat)
    requires 0 < n <= |a| && n <= |xv| && |w| == |v| && |w'| == |v| && |row| == |v|
    requires Dot(a, xv, n - 1) == Dot(w', v, |v|)
    requires xv[n - 1] == Dot(row, v, |v|)
    requires Dot(w, v, |v|) == Dot(w', v, |v|) + a[n - 1] * Dot(row, v, |v|)
    ensures Dot(a, xv, n) == Dot(w, v, |v|)
  {
  }

  /** Extending the inner products with a by one more row of x adds a[n - 1] times that row. */
  lemma ColumnDotStep(a: Vector, x: Matrix, w: Vector, w': Vector, n: nat, m: nat)
    requires 0 < n <= |a| && n <= |x| && IsMatrix(x, |x|, m) && |w| == m && |w'| == m
    requires forall k :: 0 <= k < m ==> w[k] == Dot(a, Column(x, k), n)
    requires forall k :: 0 <= k < m ==> w'[k] == Dot(a, Column(x, k), n - 1)
    ensures forall k :: 0 <= k < m ==> w[k] == w'[k] + a[n - 1] * x[n - 1][k]
  {
    forall k | 0 <= k < m
      ensures w[k] == w'[k] + a[n - 1] * x[n - 1][k]
    {
      assert Column(x, k)[n - 1] == x[n - 1][k];
    }
  }

  /** Matrix products associate with a vector: a (x v) == (a x) v. */
  lemma MatVecAssociates(a: Matrix, x: Matrix, v: Vector, q: nat)
    requires IsMatrix(a, |a|, q) && IsMatrix(x, q, |v|)
    ensures MatVec(a, MatVec(x, v)) == MatVec(MatMul(a, x, q, |v|), v)
  {
    var ax := MatMul(a, x, q, |v|);
    forall i | 0 <= i < |a|
      ensures MatVec(a, MatVec(x, v))[i] == MatVec(ax, v)[i]
    {
      DotMatVec(a[i], x, v, ax[i], q);
    }
  }

  /** Row i of the identity picks entry i: I[i] . v == v[i]. */
  lemma {:induction false} DotIdentityRow(n: nat, i: nat, v: Vector, m: nat)
    requires i < n && m <= n && m <= |v|
    ensures Dot(Identity(n)[i], v, m) == if i < m then v[i] else 0.0
  {
    if m > 0 {
      DotIdentityRow(n, i, v, m - 1);
    }
  }

  /**
   * When x is a right inverse of a, x c solves the system a y == c: this is
   * what an inverse supplied for k_pot + lambda * I buys the solver.
   */
  lemma RightInverseSolves(a: Matrix, x: Matrix, c: Vector)
    requires RightInverse(a, x) && |c| == |a|
    ensures IsMatrix(x, |a|, |c|) && MatVec(a, MatVec(x, c)) == c
  {
    var n := |a|;
    MatVecAssociates(a, x, c, n);
    forall i | 0 <= i < n
      ensures MatVec(Identity(n), c)[i] == c[i]
    {
      DotIdentityRow(n, i, c, n);
    }
  }
}
