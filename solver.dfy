/**
 * KCSD2D.values: the ridge-regularised solution. For every time column t
 * the weights beta = k_inv * pots[:, t] combine the columns of the
 * estimation table, one electrode at a time, and the flat grid axis is then
 * reshaped to the (nx, ny) mesh.
 */
module Solver {
  import opened LinAlg
  import opened Kernels

  /** beta = np.dot(k_inv, pots[:, t]). */
  function Beta(kInv: Matrix, pots: Matrix, t: nat): (beta: Vector)
    requires IsMatrix(kInv, |kInv|, |pots|) && forall j :: 0 <= j < |pots| ==> t < |pots[j]|
    ensures |beta| == |kInv|
  {
    MatVec(kInv, Column(pots, t))
  }

  /**
   * With k_inv a right inverse of k_pot + lambd * I, the weights of every
   * time column solve the ridge system (k_pot + lambd * I) beta = pots[:, t].
   */
  lemma BetaSolvesRidgeSystem(kPot: Matrix, lambd: real, kInv: Matrix, pots: Matrix, nt: nat, t: nat)
    requires IsSquare(kPot) && IsMatrix(pots, |kPot|, nt) && t < nt
    requires RightInverse(Ridge(kPot, lambd), kInv)
    ensures IsMatrix(kInv, |pots|, |pots|)
    ensures MatVec(Ridge(kPot, lambd), Beta(kInv, pots, t)) == Column(pots, t)
  {
    RightInverseSolves(Ridge(kPot, lambd), kInv, Column(pots, t));
  }

  /** The flat row of mesh cell (a, b) in an nx x ny mesh: a * ny + b. */
  function CellRow(a: nat, b: nat, nx: nat, ny: nat): (g: nat)
    requires a < nx && b < ny
    ensures g == a * ny + b && g < nx * ny
  {
    MulMono(nx, a + 1, ny);
    assert (a + 1) * ny == a * ny + ny;
    a * ny + b
  }

  /** estimation.reshape(nx, ny, nt) of an (nx * ny) x nt matrix: cell (a, b) is row a * ny + b. */
  function Reshape(flat: Matrix, nx: nat, ny: nat, nt: nat): (out: seq<seq<seq<real>>>)
    requires IsMatrix(flat, nx * ny, nt)
    ensures |out| == nx
    ensures forall a :: 0 <= a < nx ==> |out[a]| == ny
    ensures forall a, b :: 0 <= a < nx && 0 <= b < ny ==> out[a][b] == flat[CellRow(a, b, nx, ny)]
  {
    seq(nx, a requires 0 <= a < nx => seq(ny, b requires 0 <= b < ny => flat[CellRow(a, b, nx, ny)]))
  }

  /** estimation[:, t] += c * table[:, i], the vectorised update of values' inner loop. */
  method AddScaledColumn(est: array2<real>, t: nat, c: real, table: Matrix, cols: nat, i: nat)
    requires t < est.Length1 && IsMatrix(table, est.Length0, cols) && i < cols
    modifies est
    ensures forall g :: 0 <= g < est.Length0 ==> est[g, t] == old(est[g, t]) + c * table[g][i]
    ensures forall g, t' :: 0 <= g < est.Length0 && 0 <= t' < est.Length1 && t' != t ==>
      est[g, t'] == old(est[g, t'])
  {
    for g := 0 to est.Length0
      invariant forall g' :: 0 <= g' < g ==> est[g', t] == old(est[g', t]) + c * table[g'][i]
      invariant forall g', t' :: 0 <= g' < est.Length0 && 0 <= t' < est.Length1 && (t' != t || g' >= g) ==>
        est[g', t'] == old(est[g', t'])
    {
      est[g, t] := est[g, t] + c * table[g][i];
    }
  }

  /**
   * The flat estimation of values: row g, column t is
   * sum_i beta_t[i] * table[g][i], with beta_t the weights of time column t.
   */
  function Estimation(table: Matrix, kInv: Matrix, pots: Matrix, nObs: nat, nt: nat): (flat: Matrix)
    requires IsMatrix(table, |table|, nObs) && IsMatrix(kInv, nObs, nObs) && IsMatrix(pots, nObs, nt)
    ensures IsMatrix(flat, |table|, nt)
  {
    seq(|table|, g requires 0 <= g < |table| =>
      seq(nt, t requires 0 <= t < nt => Dot(Beta(kInv, pots, t), table[g], nObs)))
  }

  /**
   * values('CSD') given k_inv: cell (a, b) at time t is the sum over the
   * electrodes i of beta[i] * table[a * ny + b][i], accumulated in electrode
   * order. The method has no modifies clause, so it changes no state and
   * its result is a function of its inputs alone.
   */
  method Estimate(table: Matrix, kInv: Matrix, pots: Matrix, nObs: nat, nt: nat, nx: nat, ny: nat)
    returns (est: seq<seq<seq<real>>>)
    requires IsMatrix(table, nx * ny, nObs) && IsMatrix(kInv, nObs, nObs) && IsMatrix(pots, nObs, nt)
    ensures est == Reshape(Estimation(table, kInv, pots, nObs, nt), nx, ny, nt)
    ensures forall a, b :: 0 <= a < nx && 0 <= b < ny ==> |est[a][b]| == nt
    ensures forall a, b, t :: 0 <= a < nx && 0 <= b < ny && 0 <= t < nt ==>
      est[a][b][t] == Dot(Beta(kInv, pots, t), table[CellRow(a, b, nx, ny)], nObs)
  {
    ghost var want := Estimation(table, kInv, pots, nObs, nt);
    var ng := nx * ny;
    var flat := FillEstimation(table, kInv, pots, nObs, nt);
    var rows := seq(ng, g requires 0 <= g < ng reads flat =>
      seq(nt, t requires 0 <= t < nt reads flat => flat[g, t]));
    assert rows == want by {
      forall g | 0 <= g < ng
        ensures rows[g] == want[g]
      {
        assert forall t :: 0 <= t < nt ==> rows[g][t] == want[g][t];
      }
    }
    est := Reshape(rows, nx, ny, nt);
  }

  /**
   * The two loops of values: for each time column t, the weights beta of t
   * are added in, one electrode column of the table at a time, to a fresh
   * zero-initialised estimation array.
   */
  method FillEstimation(table: Matrix, kInv: Matrix, pots: Matrix, nObs: nat, nt: nat)
    returns (flat: array2<real>)
    requires IsMatrix(table, |table|, nObs) && IsMatrix(kInv, nObs, nObs) && IsMatrix(pots, nObs, nt)
    ensures fresh(flat) && flat.Length0 == |table| && flat.Length1 == nt
    ensures forall g, t :: 0 <= g < |table| && 0 <= t < nt ==>
      flat[g, t] == Estimation(table, kInv, pots, nObs, nt)[g][t]
  {
    ghost var want := Estimation(table, kInv, pots, nObs, nt);
    var ng := |table|;
    flat := new real[ng, nt]((g, t) => 0.0);
    for t := 0 to nt
      invariant forall g, t' :: 0 <= g < ng && 0 <= t' < t ==> flat[g, t'] == want[g][t']
      invariant forall g, t' :: 0 <= g < ng && t <= t' < nt ==> flat[g, t'] == 0.0
    {
      var beta := Beta(kInv, pots, t);
      for i := 0 to nObs
        invariant forall g, t' :: 0 <= g < ng && 0 <= t' < t ==> flat[g, t'] == want[g][t']
        invariant forall g, t' :: 0 <= g < ng && t < t' < nt ==> flat[g, t'] == 0.0
        invariant forall g :: 0 <= g < ng ==> flat[g, t] == Dot(beta, table[g], i)
      {
        AddScaledColumn(flat, t, beta[i], table, nObs, i);
      }
    }
  }

}
