/**
 * Leave-one-out cross-validation of KCSD2D.cross_validate: the train/test
 * split of every fold, calc_error's prediction of the held-out electrode,
 * the summed error of one (R, lambda) pair, and the choice of the first
 * minimum of the error matrix in row-major order.
 */
module CrossVal {
  import opened Base
  import opened LinAlg
  import opened Grid
  import opened Kernels

  /** lo, lo + 1, ..., hi - 1. */
  function Interval(lo: nat, hi: nat): (s: seq<nat>)
    requires lo <= hi
    ensures |s| == hi - lo && forall k :: 0 <= k < |s| ==> s[k] == lo + k
  {
    seq(hi - lo, k requires 0 <= k < hi - lo => lo + k)
  }

  /** Python's range(n). */
  function Range(n: nat): (s: seq<nat>)
    ensures |s| == n
  {
    Interval(0, n)
  }

  /** list.remove(x): the list without its first occurrence of x. */
  function RemoveFirst(s: seq<nat>, x: nat): (r: seq<nat>)
    requires x in s
    ensures |r| == |s| - 1
  {
    if s[0] == x then s[1..] else [s[0]] + RemoveFirst(s[1..], x)
  }

  /** remove takes out exactly one occurrence of x and keeps every other element. */
  lemma {:induction false} RemoveFirstRemovesOne(s: seq<nat>, x: nat)
    requires x in s
    ensures multiset(RemoveFirst(s, x)) + multiset{x} == multiset(s)
  {
    assert s == [s[0]] + s[1..];
    if s[0] != x {
      RemoveFirstRemovesOne(s[1..], x);
    }
  }

  lemma {:induction false} RemoveFromInterval(lo: nat, hi: nat, x: nat)
    requires lo <= x < hi
    ensures x in Interval(lo, hi)
    ensures RemoveFirst(Interval(lo, hi), x) == Interval(lo, x) + Interval(x + 1, hi)
    decreases hi - lo
  {
    var s := Interval(lo, hi);
    assert s[0] == lo;
    assert s[1..] == Interval(lo + 1, hi);
    if lo == x {
      assert RemoveFirst(s, x) == s[1..];
      assert Interval(lo, x) == [];
    } else {
      RemoveFromInterval(lo + 1, hi, x);
      assert RemoveFirst(s, x) == [lo] + RemoveFirst(s[1..], x);
      assert Interval(lo, x) == [lo] + Interval(lo + 1, x);
    }
  }

  /** idx_train of fold ii: every electrode index below n_obs except ii, in order. */
  function TrainIndices(n: nat, ii: nat): (t: seq<nat>)
    requires ii < n
    ensures |t| == n - 1 && forall a :: 0 <= a < |t| ==> t[a] < n
  {
    Interval(0, ii) + Interval(ii + 1, n)
  }

  /** idx_train is built as range(n_obs) followed by remove(ii). */
  lemma TrainIndicesIsRemove(n: nat, ii: nat)
    requires ii < n
    ensures ii in Range(n) && RemoveFirst(Range(n), ii) == TrainIndices(n, ii)
  {
    RemoveFromInterval(0, n, ii);
  }

  /**
   * The split of fold ii: idx_train holds n_obs - 1 increasing indices
   * below n_obs, never the test index ii, and together with ii covers
   * every electrode.
   */
  lemma TrainTestSplit(n: nat, ii: nat)
    requires ii < n
    ensures var t := TrainIndices(n, ii);
      && |t| == n - 1
      && (forall a :: 0 <= a < |t| ==> t[a] == if a < ii then a else a + 1)
      && (forall a, b :: 0 <= a < b < |t| ==> t[a] < t[b])
      && (forall a :: 0 <= a < |t| ==> t[a] < n && t[a] != ii)
      && (forall j :: 0 <= j < n ==> j == ii || j in t)
  {
    var t := TrainIndices(n, ii);
    forall j | 0 <= j < n && j != ii
      ensures j in t
    {
      if j < ii {
        assert t[j] == j;
      } else {
        assert t[j - 1] == j;
      }
    }
  }

  /** m[idx]: the rows of m listed in idx. */
  function Rows(m: Matrix, idx: seq<nat>): (r: Matrix)
    requires forall a :: 0 <= a < |idx| ==> idx[a] < |m|
    ensures |r| == |idx| && forall a :: 0 <= a < |idx| ==> r[a] == m[idx[a]]
  {
    seq(|idx|, a requires 0 <= a < |idx| => m[idx[a]])
  }

  /** m[np.ix_(rows, cols)]: the entries of m on the given rows and columns. */
  function Sub(m: Matrix, rows: seq<nat>, cols: seq<nat>, n: nat): (r: Matrix)
    requires IsMatrix(m, n, n)
    requires forall a :: 0 <= a < |rows| ==> rows[a] < n
    requires forall b :: 0 <= b < |cols| ==> cols[b] < n
    ensures IsMatrix(r, |rows|, |cols|)
    ensures forall a, b :: 0 <= a < |rows| && 0 <= b < |cols| ==> r[a][b] == m[rows[a]][cols[b]]
  {
    seq(|rows|, a requires 0 <= a < |rows| =>
      seq(|cols|, b requires 0 <= b < |cols| => m[rows[a]][cols[b]]))
  }

  /** What fold ii of calc_error needs: k_pot, the potentials and the fold's data. */
  ghost predicate FoldInputs(kPot: Matrix, pots: Matrix, n: nat, nt: nat, ii: nat) {
    IsMatrix(kPot, n, n) && IsMatrix(pots, n, nt) && nt > 0 && ii < n
  }

  /**
   * beta_new of fold ii: inv(B_train + lambd * I) * V_train, where B_train
   * is k_pot restricted to the training electrodes and V_train their
   * potentials.
   */
  function FoldWeights(kPot: Matrix, pots: Matrix, n: nat, nt: nat, inverse: Inverter,
                       lambd: real, ii: nat): (beta: Matrix)
    requires FoldInputs(kPot, pots, n, nt, ii)
    ensures IsMatrix(beta, n - 1, nt)
  {
    var train := TrainIndices(n, ii);
    var bNew := Ridge(Sub(kPot, train, train, n), lambd);
    MatMul(inverse(bNew), Rows(pots, train), n - 1, nt)
  }

  /** B_test of fold ii: row ii of k_pot on the training columns. */
  function FoldTestRow(kPot: Matrix, n: nat, ii: nat): (row: Vector)
    requires IsMatrix(kPot, n, n) && ii < n
    ensures |row| == n - 1
  {
    Sub(kPot, [ii], TrainIndices(n, ii), n)[0]
  }

  /**
   * V_est of fold ii: the sum over the training electrodes a of
   * beta_new[a, 0] * B_test[a]. Only the weights of time column 0 enter.
   */
  function FoldPrediction(kPot: Matrix, pots: Matrix, n: nat, nt: nat, inverse: Inverter,
                          lambd: real, ii: nat): real
    requires FoldInputs(kPot, pots, n, nt, ii)
  {
    Dot(Column(FoldWeights(kPot, pots, n, nt, inverse, lambd, ii), 0), FoldTestRow(kPot, n, ii), n - 1)
  }

  /** a * b, named so that facts about a square attach to one term. */
  function Mul(a: real, b: real): real { a * b }

  function Square(x: real): real { Mul(x, x) }

  lemma MulPositive(a: real, b: real)
    requires a > 0.0 && b > 0.0
    ensures Mul(a, b) > 0.0
  {
  }

  lemma MulNegative(a: real, b: real)
    requires a < 0.0 && b < 0.0
    ensures Mul(a, b) > 0.0
  {
    assert (-a) * (-b) == a * b;
    MulPositive(-a, -b);
  }

  /** A square is never negative, and positive unless its root is zero. */
  lemma SquarePositive(x: real)
    ensures Square(x) >= 0.0
    ensures x != 0.0 ==> Square(x) > 0.0
  {
    if x > 0.0 {
      MulPositive(x, x);
    } else if x < 0.0 {
      MulNegative(x, x);
    } else {
      assert Mul(x, x) == 0.0;
    }
  }

  /** The sum of the squares of r[0 .. n - 1]. */
  function SumSquares(r: Vector, n: nat): (s: real)
    requires n <= |r|
    ensures s >= 0.0
  {
    if n == 0 then 0.0
    else
      SquarePositive(r[n - 1]);
      SumSquares(r, n - 1) + Square(r[n - 1])
  }

  lemma {:induction false} SumSquaresZero(r: Vector, n: nat)
    requires n <= |r|
    ensures SumSquares(r, n) == 0.0 <==> forall k :: 0 <= k < n ==> r[k] == 0.0
  {
    if n > 0 {
      SumSquaresZero(r, n - 1);
      SquarePositive(r[n - 1]);
    }
  }

  /** The oracle for the square root of np.linalg.norm. */
  type Root = real -> real

  /** root returns the non-negative square root of every non-negative number. */
  ghost predicate IsRoot(root: Root) {
    forall x :: x >= 0.0 ==> root(x) >= 0.0 && Square(root(x)) == x
  }

  /** V_est - V_test: a prediction minus each time sample of the held-out electrode. */
  function Residual(vEst: real, row: Vector): (r: Vector)
    ensures |r| == |row|
  {
    seq(|row|, t requires 0 <= t < |row| => vEst - row[t])
  }

  /** np.linalg.norm of a residual row: the root of its sum of squares. */
  function Norm(root: Root, r: Vector): real {
    root(SumSquares(r, |r|))
  }

  /** The norm of a residual is zero exactly when the prediction matches every sample. */
  lemma NormOfResidualZero(root: Root, vEst: real, row: Vector)
    requires IsRoot(root)
    ensures Norm(root, Residual(vEst, row)) >= 0.0
    ensures Norm(root, Residual(vEst, row)) == 0.0 <==> forall t :: 0 <= t < |row| ==> row[t] == vEst
  {
    var r := Residual(vEst, row);
    var s := SumSquares(r, |r|);
    SumSquaresZero(r, |r|);
    assert root(s) >= 0.0 && Square(root(s)) == s;
    SquarePositive(root(s));
    assert forall t :: 0 <= t < |row| ==> (r[t] == 0.0 <==> row[t] == vEst);
  }

  /** calc_error's result: the Frobenius norm of the 1 x nt residual of fold ii. */
  function FoldError(kPot: Matrix, pots: Matrix, n: nat, nt: nat, inverse: Inverter,
                     root: Root, lambd: real, ii: nat): real
    requires FoldInputs(kPot, pots, n, nt, ii)
  {
    Norm(root, Residual(FoldPrediction(kPot, pots, n, nt, inverse, lambd, ii), pots[ii]))
  }

  /**
   * A fold's error is never negative, and zero exactly when its prediction
   * equals every time sample of the held-out electrode.
   */
  lemma FoldErrorZero(kPot: Matrix, pots: Matrix, n: nat, nt: nat, inverse: Inverter,
                      root: Root, lambd: real, ii: nat)
    requires FoldInputs(kPot, pots, n, nt, ii) && IsRoot(root)
    ensures FoldError(kPot, pots, n, nt, inverse, root, lambd, ii) >= 0.0
    ensures FoldError(kPot, pots, n, nt, inverse, root, lambd, ii) == 0.0 <==>
      forall t :: 0 <= t < nt ==> pots[ii][t] == FoldPrediction(kPot, pots, n, nt, inverse, lambd, ii)
  {
    NormOfResidualZero(root, FoldPrediction(kPot, pots, n, nt, inverse, lambd, ii), pots[ii]);
  }

  /**
   * The held-out potentials do not enter the prediction of their own fold:
   * potentials that differ only on electrode ii predict the same V_est.
   */
  lemma FoldPredictionIgnoresHeldOut(kPot: Matrix, pots: Matrix, pots': Matrix, n: nat, nt: nat,
                                     inverse: Inverter, lambd: real, ii: nat)
    requires FoldInputs(kPot, pots, n, nt, ii) && FoldInputs(kPot, pots', n, nt, ii)
    requires forall j :: 0 <= j < n && j != ii ==> pots[j] == pots'[j]
    ensures FoldPrediction(kPot, pots, n, nt, inverse, lambd, ii)
         == FoldPrediction(kPot, pots', n, nt, inverse, lambd, ii)
  {
    TrainTestSplit(n, ii);
    var train := TrainIndices(n, ii);
    assert Rows(pots, train) == Rows(pots', train);
  }

  /**
   * Only time column 0 of the training potentials enters the prediction,
   * although the error compares it against every time column.
   */
  lemma FoldPredictionUsesFirstColumn(kPot: Matrix, pots: Matrix, pots': Matrix, n: nat, nt: nat,
                                      inverse: Inverter, lambd: real, ii: nat)
    requires FoldInputs(kPot, pots, n, nt, ii) && FoldInputs(kPot, pots', n, nt, ii)
    requires forall j :: 0 <= j < n ==> pots[j][0] == pots'[j][0]
    ensures FoldPrediction(kPot, pots, n, nt, inverse, lambd, ii)
         == FoldPrediction(kPot, pots', n, nt, inverse, lambd, ii)
  {
    TrainTestSplit(n, ii);
    var train := TrainIndices(n, ii);
    var bNew := Ridge(Sub(kPot, train, train, n), lambd);
    var v, v' := Rows(pots, train), Rows(pots', train);
    assert Column(v, 0) == Column(v', 0);
    var w := MatMul(inverse(bNew), v, n - 1, nt);
    var w' := MatMul(inverse(bNew), v', n - 1, nt);
    assert Column(w, 0) == Column(w', 0);
  }

  /** V_est += beta_new[a, 0] * B_test[:, a] over the training electrodes a, in order. */
  method AccumulatePrediction(beta0: Vector, bTest: Vector, m: nat) returns (vEst: real)
    requires m <= |beta0| && m <= |bTest|
    ensures vEst == Dot(beta0, bTest, m)
  {
    vEst := 0.0;
    for a := 0 to m
      invariant vEst == Dot(beta0, bTest, a)
    {
      vEst := vEst + beta0[a] * bTest[a];
    }
  }

  /**
   * The prediction half of calc_error: beta_new from the training fold,
   * then V_est accumulated over the training electrodes in order.
   */
  method PredictFold(kPot: Matrix, pots: Matrix, n: nat, nt: nat, inverse: Inverter,
                     lambd: real, ii: nat) returns (vEst: real)
    requires FoldInputs(kPot, pots, n, nt, ii)
    ensures vEst == FoldPrediction(kPot, pots, n, nt, inverse, lambd, ii)
  {
    var beta := FoldWeights(kPot, pots, n, nt, inverse, lambd, ii);
    var bTest := FoldTestRow(kPot, n, ii);
    var beta0 := Column(beta, 0);
    vEst := AccumulatePrediction(beta0, bTest, n - 1);
  }

  /**
   * calc_error(lambd, [ii], idx_train): the norm of V_est minus the
   * potentials of the held-out electrode ii.
   */
  method CalcError(kPot: Matrix, pots: Matrix, n: nat, nt: nat, inverse: Inverter, root: Root,
                   lambd: real, ii: nat) returns (err: real)
    requires FoldInputs(kPot, pots, n, nt, ii)
    ensures err == FoldError(kPot, pots, n, nt, inverse, root, lambd, ii)
  {
    var vEst := PredictFold(kPot, pots, n, nt, inverse, lambd, ii);
    err := Norm(root, Residual(vEst, pots[ii]));
  }

  /** The leave-one-out error of one (R, lambda) pair: folds 0 .. k - 1 summed in order. */
  function LooError(kPot: Matrix, pots: Matrix, n: nat, nt: nat, inverse: Inverter, root: Root,
                    lambd: real, k: nat): real
    requires IsMatrix(kPot, n, n) && IsMatrix(pots, n, nt) && nt > 0 && k <= n
  {
    if k == 0 then 0.0
    else
      LooError(kPot, pots, n, nt, inverse, root, lambd, k - 1) +
      FoldError(kPot, pots, n, nt, inverse, root, lambd, k - 1)
  }

  /** With a true square root the summed error is never negative. */
  lemma {:induction false} LooErrorNonNegative(kPot: Matrix, pots: Matrix, n: nat, nt: nat,
                                               inverse: Inverter, root: Root, lambd: real, k: nat)
    requires IsMatrix(kPot, n, n) && IsMatrix(pots, n, nt) && nt > 0 && k <= n && IsRoot(root)
    ensures LooError(kPot, pots, n, nt, inverse, root, lambd, k) >= 0.0
  {
    if k > 0 {
      LooErrorNonNegative(kPot, pots, n, nt, inverse, root, lambd, k - 1);
      FoldErrorZero(kPot, pots, n, nt, inverse, root, lambd, k - 1);
    }
  }

  /** The loop over the folds of one (R, lambda) pair: err += calc_error(...). */
  method SumFoldErrors(kPot: Matrix, pots: Matrix, n: nat, nt: nat, inverse: Inverter, root: Root,
                       lambd: real) returns (err: real)
    requires IsMatrix(kPot, n, n) && IsMatrix(pots, n, nt) && nt > 0
    ensures err == LooError(kPot, pots, n, nt, inverse, root, lambd, n)
  {
    err := 0.0;
    for ii := 0 to n
      invariant err == LooError(kPot, pots, n, nt, inverse, root, lambd, ii)
    {
      var e := CalcError(kPot, pots, n, nt, inverse, root, lambd, ii);
      err := err + e;
    }
  }

  /** The summed leave-one-out error as a function of lambda, for a fixed k_pot. */
  function LooErrorOf(kPot: Matrix, pots: Matrix, n: nat, nt: nat, inverse: Inverter, root: Root): (f: real -> real)
    requires IsMatrix(kPot, n, n) && IsMatrix(pots, n, nt) && nt > 0
  {
    l => LooError(kPot, pots, n, nt, inverse, root, l, n)
  }

  /** One row of errs: the summed leave-one-out error of lambdas[0] .. lambdas[k - 1]. */
  function ErrorRow(kPot: Matrix, pots: Matrix, n: nat, nt: nat, inverse: Inverter, root: Root,
                    lambdas: seq<real>, k: nat): (row: seq<real>)
    requires IsMatrix(kPot, n, n) && IsMatrix(pots, n, nt) && nt > 0 && k <= |lambdas|
    ensures |row| == k
  {
    Tabulate(LooErrorOf(kPot, pots, n, nt, inverse, root), lambdas, k)
  }

  /** Entry j of a row is the error of lambdas[j]. */
  lemma ErrorRowAt(kPot: Matrix, pots: Matrix, n: nat, nt: nat, inverse: Inverter,
                   root: Root, lambdas: seq<real>, k: nat, j: nat)
    requires IsMatrix(kPot, n, n) && IsMatrix(pots, n, nt) && nt > 0 && j < k <= |lambdas|
    ensures ErrorRow(kPot, pots, n, nt, inverse, root, lambdas, k)[j]
         == LooError(kPot, pots, n, nt, inverse, root, lambdas[j], n)
  {
    TabulateAt(LooErrorOf(kPot, pots, n, nt, inverse, root), lambdas, k, j);
  }

  /** The loop over the lambdas of one radius in cross_validate. */
  method ScoreLambdas(kPot: Matrix, pots: Matrix, n: nat, nt: nat, inverse: Inverter, root: Root,
                      lambdas: seq<real>) returns (row: seq<real>)
    requires IsMatrix(kPot, n, n) && IsMatrix(pots, n, nt) && nt > 0
    ensures row == ErrorRow(kPot, pots, n, nt, inverse, root, lambdas, |lambdas|)
  {
    row := [];
    for li := 0 to |lambdas|
      invariant row == ErrorRow(kPot, pots, n, nt, inverse, root, lambdas, li)
    {
      var e := SumFoldErrors(kPot, pots, n, nt, inverse, root, lambdas[li]);
      row := row + [e];
    }
  }

  /**
   * The first k rows of errs in cross_validate: row i scores every lambda
   * with scores[i], the summed leave-one-out error under the kernel of
   * radius i.
   */
  function ErrorMatrix(scores: seq<real -> real>, lambdas: seq<real>, k: nat): (errs: Matrix)
    requires k <= |scores|
    ensures IsMatrix(errs, k, |lambdas|)
  {
    if k == 0 then []
    else ErrorMatrix(scores, lambdas, k - 1) + [Tabulate(scores[k - 1], lambdas, |lambdas|)]
  }

  /** Cell (i, j) of errs is the score of lambdas[j] for radius i. */
  lemma {:induction false} ErrorMatrixAt(scores: seq<real -> real>, lambdas: seq<real>, k: nat, i: nat, j: nat)
    requires i < k <= |scores| && j < |lambdas|
    ensures ErrorMatrix(scores, lambdas, k)[i][j] == scores[i](lambdas[j])
  {
    if i < k - 1 {
      ErrorMatrixAt(scores, lambdas, k - 1, i, j);
    } else {
      TabulateAt(scores[i], lambdas, |lambdas|, j);
    }
  }

  /**
   * The indices j >= lo with s[j] == v, in increasing order (np.where on a
   * flattened array). No index before the first one found holds v.
   */
  function WhereFrom(s: seq<real>, v: real, lo: nat): (w: seq<nat>)
    requires lo <= |s|
    ensures forall a :: 0 <= a < |w| ==> lo <= w[a] < |s| && s[w[a]] == v
    ensures forall a, b :: 0 <= a < b < |w| ==> w[a] < w[b]
    ensures forall j :: lo <= j < |s| && s[j] == v ==> j in w
    ensures |w| > 0 ==> forall j :: lo <= j < w[0] ==> s[j] != v
    decreases |s| - lo
  {
    if lo == |s| then []
    else
      var rest := WhereFrom(s, v, lo + 1);
      if s[lo] == v then [lo] + rest else rest
  }

  /**
   * np.where(errs == np.min(errs)) read off in row-major order: the cell
   * it names first holds the least error, and every cell before it in
   * row-major order holds a strictly larger one.
   */
  function FirstMinCell(errs: Matrix, nR: nat, nL: nat): (p: (nat, nat))
    requires IsMatrix(errs, nR, nL) && nR > 0 && nL > 0
    ensures p.0 < nR && p.1 < nL
    ensures forall r, c :: 0 <= r < nR && 0 <= c < nL ==> errs[p.0][p.1] <= errs[r][c]
    ensures forall r, c :: 0 <= r < nR && 0 <= c < nL && (r < p.0 || (r == p.0 && c < p.1)) ==>
      errs[p.0][p.1] < errs[r][c]
  {
    var flat := Ravel(errs, nR, nL);
    FirstMinFlat(flat);
    var k := WhereFrom(flat, MinOf(flat), 0)[0];
    FirstMinAt(errs, nR, nL, k);
    UnravelC(k, nR, nL)
  }

  /**
   * On a flat sequence, the first index holding the minimum has the least
   * value, and every earlier index a strictly larger one.
   */
  lemma FirstMinFlat(s: seq<real>)
    requires |s| > 0
    ensures var w := WhereFrom(s, MinOf(s), 0);
      && |w| > 0
      && s[w[0]] == MinOf(s)
      && (forall j :: 0 <= j < |s| ==> s[w[0]] <= s[j])
      && (forall j :: 0 <= j < w[0] ==> s[w[0]] < s[j])
  {
    var w := WhereFrom(s, MinOf(s), 0);
    MinOfIsLeast(s);
    var j :| 0 <= j < |s| && s[j] == MinOf(s);
    assert j in w;
  }

  /** Row-major order of cells agrees with the order of their flat indices. */
  lemma RowMajorBefore(r: nat, c: nat, r2: nat, c2: nat, nL: nat)
    requires c < nL && c2 < nL && (r < r2 || (r == r2 && c < c2))
    ensures r * nL + c < r2 * nL + c2
  {
    MulMono(r2, r + 1, nL);
    assert (r + 1) * nL == r * nL + nL;
  }

  /** A flat first minimum is a row-major first minimum of the matrix. */
  lemma FirstMinAt(errs: Matrix, nR: nat, nL: nat, k: nat)
    requires IsMatrix(errs, nR, nL) && k < nR * nL
    requires forall j :: 0 <= j < nR * nL ==> Ravel(errs, nR, nL)[k] <= Ravel(errs, nR, nL)[j]
    requires forall j :: 0 <= j < k ==> Ravel(errs, nR, nL)[k] < Ravel(errs, nR, nL)[j]
    ensures var p := UnravelC(k, nR, nL);
      (forall r, c :: 0 <= r < nR && 0 <= c < nL ==> errs[p.0][p.1] <= errs[r][c]) &&
      (forall r, c :: 0 <= r < nR && 0 <= c < nL && (r < p.0 || (r == p.0 && c < p.1)) ==>
        errs[p.0][p.1] < errs[r][c])
  {
    var p := UnravelC(k, nR, nL);
    RavelAt(errs, nR, nL, p.0, p.1);
    forall r, c | 0 <= r < nR && 0 <= c < nL
      ensures errs[p.0][p.1] <= errs[r][c]
    {
      RavelAt(errs, nR, nL, r, c);
    }
    forall r, c | 0 <= r < nR && 0 <= c < nL && (r < p.0 || (r == p.0 && c < p.1))
      ensures errs[p.0][p.1] < errs[r][c]
    {
      RavelAt(errs, nR, nL, r, c);
      RowMajorBefore(r, c, p.0, p.1, nL);
    }
  }

  /** Cell p is in range and holds the least error of errs. */
  ghost predicate IsMinCell(errs: Matrix, nR: nat, nL: nat, p: (nat, nat))
    requires IsMatrix(errs, nR, nL)
  {
    p.0 < nR && p.1 < nL && forall r, c :: 0 <= r < nR && 0 <= c < nL ==> errs[p.0][p.1] <= errs[r][c]
  }

  /** Cell p comes before cell q in row-major order. */
  predicate CellBefore(p: (nat, nat), q: (nat, nat)) {
    p.0 < q.0 || (p.0 == q.0 && p.1 < q.1)
  }

  /**
   * err_idx = np.where(errs == np.min(errs)): exactly the minimal cells,
   * each once, in row-major order; the first is the one cross_validate picks.
   */
  function MinCells(errs: Matrix, nR: nat, nL: nat): (cells: seq<(nat, nat)>)
    requires IsMatrix(errs, nR, nL) && nR > 0 && nL > 0
    ensures |cells| > 0 && cells[0] == FirstMinCell(errs, nR, nL)
    ensures forall a :: 0 <= a < |cells| ==> IsMinCell(errs, nR, nL, cells[a])
    ensures forall r: nat, c: nat :: IsMinCell(errs, nR, nL, (r, c)) ==> (r, c) in cells
    ensures forall a, b :: 0 <= a < b < |cells| ==> CellBefore(cells[a], cells[b])
  {
    var flat := Ravel(errs, nR, nL);
    var w := WhereFrom(flat, MinOf(flat), 0);
    FirstMinFlat(flat);
    var cells := seq(|w|, a requires 0 <= a < |w| => UnravelC(w[a], nR, nL));
    MinCellsExact(errs, nR, nL, flat, w, cells);
    cells
  }

  /** The flat indices np.where finds, unravelled in C order, are exactly the minimal cells in order. */
  lemma MinCellsExact(errs: Matrix, nR: nat, nL: nat, flat: seq<real>, w: seq<nat>, cells: seq<(nat, nat)>)
    requires IsMatrix(errs, nR, nL) && nR > 0 && nL > 0
    requires flat == Ravel(errs, nR, nL) && w == WhereFrom(flat, MinOf(flat), 0)
    requires |cells| == |w| && forall a :: 0 <= a < |w| ==> w[a] < nR * nL && cells[a] == UnravelC(w[a], nR, nL)
    ensures forall a :: 0 <= a < |cells| ==> IsMinCell(errs, nR, nL, cells[a])
    ensures forall r: nat, c: nat :: IsMinCell(errs, nR, nL, (r, c)) ==> (r, c) in cells
    ensures forall a, b :: 0 <= a < b < |cells| ==> CellBefore(cells[a], cells[b])
  {
    MinCellsMinimal(errs, nR, nL, flat, w, cells);
    MinCellsComplete(errs, nR, nL, flat, w, cells);
    MinCellsOrdered(errs, nR, nL, flat, w, cells);
  }

  lemma MinCellsMinimal(errs: Matrix, nR: nat, nL: nat, flat: seq<real>, w: seq<nat>, cells: seq<(nat, nat)>)
    requires IsMatrix(errs, nR, nL) && nR > 0 && nL > 0
    requires flat == Ravel(errs, nR, nL) && w == WhereFrom(flat, MinOf(flat), 0)
    requires |cells| == |w| && forall a :: 0 <= a < |w| ==> w[a] < nR * nL && cells[a] == UnravelC(w[a], nR, nL)
    ensures forall a :: 0 <= a < |cells| ==> IsMinCell(errs, nR, nL, cells[a])
  {
    MinOfIsLeast(flat);
    forall a | 0 <= a < |cells| ensures IsMinCell(errs, nR, nL, cells[a]) {
      var p := cells[a];
      RavelAt(errs, nR, nL, p.0, p.1);
      forall r, c | 0 <= r < nR && 0 <= c < nL ensures errs[p.0][p.1] <= errs[r][c] {
        RavelAt(errs, nR, nL, r, c);
      }
    }
  }

  lemma MinCellsComplete(errs: Matrix, nR: nat, nL: nat, flat: seq<real>, w: seq<nat>, cells: seq<(nat, nat)>)
    requires IsMatrix(errs, nR, nL) && nR > 0 && nL > 0
    requires flat == Ravel(errs, nR, nL) && w == WhereFrom(flat, MinOf(flat), 0)
    requires |cells| == |w| && forall a :: 0 <= a < |w| ==> w[a] < nR * nL && cells[a] == UnravelC(w[a], nR, nL)
    ensures forall r: nat, c: nat :: IsMinCell(errs, nR, nL, (r, c)) ==> (r, c) in cells
  {
    forall r: nat, c: nat | IsMinCell(errs, nR, nL, (r, c)) ensures (r, c) in cells {
      MinCellListed(errs, nR, nL, flat, w, cells, r, c);
    }
  }

  lemma MinCellListed(errs: Matrix, nR: nat, nL: nat, flat: seq<real>, w: seq<nat>, cells: seq<(nat, nat)>,
                      r: nat, c: nat)
    requires IsMatrix(errs, nR, nL) && nR > 0 && nL > 0
    requires flat == Ravel(errs, nR, nL) && w == WhereFrom(flat, MinOf(flat), 0)
    requires |cells| == |w| && forall a :: 0 <= a < |w| ==> w[a] < nR * nL && cells[a] == UnravelC(w[a], nR, nL)
    requires IsMinCell(errs, nR, nL, (r, c))
    ensures (r, c) in cells
  {
    MinCellFlat(errs, nR, nL, r, c);
    var k := r * nL + c;
    UnravelCOnto(r, c, nR, nL);
    assert k in w;
    var a :| 0 <= a < |w| && w[a] == k;
    assert cells[a] == (r, c);
  }

  /** A minimal cell's entry of the C-order ravel is np.min of the ravel. */
  lemma MinCellFlat(errs: Matrix, nR: nat, nL: nat, r: nat, c: nat)
    requires IsMatrix(errs, nR, nL) && nR > 0 && nL > 0 && IsMinCell(errs, nR, nL, (r, c))
    ensures r * nL + c < nR * nL && Ravel(errs, nR, nL)[r * nL + c] == MinOf(Ravel(errs, nR, nL))
  {
    var flat := Ravel(errs, nR, nL);
    MinOfIsLeast(flat);
    RavelAt(errs, nR, nL, r, c);
    var j :| 0 <= j < |flat| && flat[j] == MinOf(flat);
    var q := UnravelC(j, nR, nL);
    RavelAt(errs, nR, nL, q.0, q.1);
  }

  lemma MinCellsOrdered(errs: Matrix, nR: nat, nL: nat, flat: seq<real>, w: seq<nat>, cells: seq<(nat, nat)>)
    requires IsMatrix(errs, nR, nL) && nR > 0 && nL > 0
    requires flat == Ravel(errs, nR, nL) && w == WhereFrom(flat, MinOf(flat), 0)
    requires |cells| == |w| && forall a :: 0 <= a < |w| ==> w[a] < nR * nL && cells[a] == UnravelC(w[a], nR, nL)
    ensures forall a, b :: 0 <= a < b < |cells| ==> CellBefore(cells[a], cells[b])
  {
    forall a, b | 0 <= a < b < |cells| ensures CellBefore(cells[a], cells[b]) {
      var p, q := cells[a], cells[b];
      if !CellBefore(p, q) && p != q {
        RowMajorBefore(q.0, q.1, p.0, p.1, nL);
      }
    }
  }

  /**
   * The shape of the default np.logspace(-2, -25, 25, base=10.): 25
   * positive values, strictly decreasing from 10^-2 (the values
   * 10^(-2 - 23 k / 24) themselves are floating point).
   */
  ghost predicate IsDefaultLogspace(ls: seq<real>) {
    && |ls| == 25 && ls[0] == 0.01
    && (forall k :: 0 <= k < 25 ==> ls[k] > 0.0)
    && (forall k :: 0 < k < 25 ==> ls[k] < ls[k - 1])
  }

  /** Every default lambda lies in (0, 10^-2]. */
  lemma {:induction false} DefaultLambdaBounds(ls: seq<real>, k: nat)
    requires IsDefaultLogspace(ls) && k < |ls|
    ensures 0.0 < ls[k] <= 0.01
  {
    if k > 0 {
      DefaultLambdaBounds(ls, k - 1);
    }
  }
}
