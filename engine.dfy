/**
 * The KCSD2D engine object. Its constant part is what the constructor
 * fixes (electrodes, potentials, estimation mesh, source grid, basis); its
 * variable part is what update_R, update_lambda, method and
 * cross_validate rewrite in place. Valid() says that every table held is
 * the one the current R and dist_max determine.
 */
module Engine {
  import opened Base
  import opened LinAlg
  import opened Grid
  import opened Lookup
  import opened Kernels
  import opened Solver
  import opened CrossVal

  /**
   * The numerical routines the engine calls but that are not modelled:
   * the forward model b_pot_2d_cont (its h and sigma fixed), the cubic
   * spline through the probed table read at an integer index, the basis
   * functions, Euclidean distance, matrix inversion and the square root.
   */
  datatype Numerics = Numerics(
    forward: (Basis, real, real) -> real,
    spline: (seq<real>, seq<real>, nat) -> real,
    basisAt: BasisAt,
    dist: Distance,
    inverse: Inverter,
    root: Root,
    defaultLambdas: seq<real>)

  /**
   * Lx^2 + Ly^2 of place_basis / update_R for the source grid, with
   * Lx = max(X_src) - min(X_src) + r and likewise for y.
   */
  function DiagonalSquared(src: Lattice, r: real): real
    requires src.Valid() && src.rows > 0 && src.cols > 0
  {
    Square(MaxEntry(src.x) - MinEntry(src.x) + r) + Square(MaxEntry(src.y) - MinEntry(src.y) + r)
  }

  /** The estimation mesh of estimate_at as a lattice of space_X.shape. */
  function MeshLattice(m: Mesh): Lattice {
    Lattice(m.spaceX, m.spaceY, |m.spaceX|, if |m.spaceX| > 0 then |m.spaceX[0]| else 0)
  }

  /**
   * A mesh estimate_at produces is a well-formed lattice of
   * |lin_y| x |lin_x| points, and it only exists for a non-empty electrode set.
   */
  lemma MeshLatticeValid(elePos: seq<Point>, p: GridParams)
    requires EstimateAt(elePos, p).Ok?
    ensures |elePos| > 0 && MeshLattice(EstimateAt(elePos, p).value).Valid()
  {
    EstimateAtMesh(elePos, p);
  }

  class KCSD2D {
    const elePos: seq<Point>
    const pots: Matrix
    const nObs: nat
    const nt: nat
    const mesh: Lattice
    const src: Lattice
    const basis: Basis
    const num: Numerics

    var R: real
    var lambd: real
    var distMax: real
    var distTable: seq<real>
    var bPot: Matrix
    var kPot: Matrix
    var bSrc: Matrix
    var kInterpCross: Matrix
    var errIdx: seq<(nat, nat)>

    /** The shapes the constructor fixes. */
    ghost predicate Shapes() {
      && |elePos| == nObs && nObs > 0
      && IsMatrix(pots, nObs, nt) && nt > 0
      && mesh.Valid() && src.Valid() && src.rows > 0 && src.cols > 0
      && IsDefaultLogspace(num.defaultLambdas)
    }

    /** dist_max = (Lx^2 + Ly^2) ** 0.5. */
    function DistMaxFor(r: real): real
      requires Shapes()
    {
      num.root(DiagonalSquared(src, r))
    }

    /** The forward model at probe index x: the distance (x / dt_len) * dist_max. */
    function Probed(x: real, r: real, dm: real): real {
      num.forward(basis, x / DistTableDensity as real * dm, r)
    }

    /** dist_table before interpolation: the forward model at each probe's distance. */
    function ProbeValues(r: real, dm: real): (p: seq<real>)
      requires dm > 0.0
      ensures |p| == |SparseDistTable(r, dm, DistTableDensity)|
    {
      var xs := SparseDistTable(r, dm, DistTableDensity);
      seq(|xs|, i requires 0 <= i < |xs| => Probed(xs[i], r, dm))
    }

    /** create_lookup's result: the spline through the probes read at 0 .. dt_len - 1. */
    function LookupTable(r: real, dm: real): (t: seq<real>)
      requires dm > 0.0
      ensures |t| == DistTableDensity
    {
      var xs := SparseDistTable(r, dm, DistTableDensity);
      var probed := ProbeValues(r, dm);
      seq(DistTableDensity, k requires 0 <= k < DistTableDensity => num.spline(xs, probed, k))
    }

    /** The distances of update_b_pot: sources in C order against the electrodes. */
    function Distances(): (d: Matrix)
      requires Shapes()
      ensures IsMatrix(d, src.Size(), nObs)
    {
      SourceDistances(src, elePos, num.dist)
    }

    ghost predicate Valid()
      reads this
    {
      && Shapes()
      && distMax == DistMaxFor(R) && distMax > 0.0
      && distTable == LookupTable(R, distMax)
      && bPot == BPot(Distances(), nObs, distTable, distMax)
      && kPot == KPot(bPot, src.Size(), nObs)
      && bSrc == BSrc(mesh, src, num.basisAt, basis, R)
      && kInterpCross == MatMul(bSrc, bPot, src.Size(), nObs)
    }

    /** k_pot for radius r, as update_R(r) leaves it. */
    function KPotFor(r: real): (k: Matrix)
      requires Shapes() && DistMaxFor(r) > 0.0
      ensures IsMatrix(k, nObs, nObs)
    {
      var dm := DistMaxFor(r);
      KPot(BPot(Distances(), nObs, LookupTable(r, dm), dm), src.Size(), nObs)
    }

    /** For each radius of the search, lambda => the summed leave-one-out error with the k_pot update_R leaves. */
    function Scores(radii: seq<real>): (fs: seq<real -> real>)
      requires Shapes() && forall r :: r in radii ==> DistMaxFor(r) > 0.0
      ensures |fs| == |radii|
    {
      seq(|radii|, i requires 0 <= i < |radii| =>
        LooErrorOf(KPotFor(radii[i]), pots, nObs, nt, num.inverse, num.root))
    }

    /** errs of cross_validate for the given radii and lambdas. */
    function ErrorGrid(radii: seq<real>, lambdas: seq<real>): (errs: Matrix)
      requires Shapes() && forall r :: r in radii ==> DistMaxFor(r) > 0.0
      ensures IsMatrix(errs, |radii|, |lambdas|)
    {
      ErrorMatrix(Scores(radii), lambdas, |radii|)
    }

    /**
     * Cell (i, j) of errs is the summed leave-one-out error of lambdas[j]
     * with k_pot rebuilt for radius radii[i].
     */
    lemma ErrorGridAt(radii: seq<real>, lambdas: seq<real>, i: nat, j: nat)
      requires Shapes() && forall r :: r in radii ==> DistMaxFor(r) > 0.0
      requires i < |radii| && j < |lambdas|
      ensures ErrorGrid(radii, lambdas)[i][j]
           == LooError(KPotFor(radii[i]), pots, nObs, nt, num.inverse, num.root, lambdas[j], nObs)
    {
      ErrorMatrixAt(Scores(radii), lambdas, |radii|, i, j);
    }

    /**
     * The engine after __init__ with the estimate mesh, basis and source
     * grid already determined: method() has built every table.
     */
    constructor (elePos: seq<Point>, pots: Matrix, nt: nat, mesh: Lattice, src: Lattice,
                 basis: Basis, rSrc: real, lambd: real, num: Numerics)
      requires |elePos| > 0 && IsMatrix(pots, |elePos|, nt) && nt > 0
      requires mesh.Valid() && src.Valid() && src.rows > 0 && src.cols > 0
      requires num.root(DiagonalSquared(src, rSrc)) > 0.0 && IsDefaultLogspace(num.defaultLambdas)
      ensures this.elePos == elePos && this.pots == pots && this.nObs == |elePos| && this.nt == nt
      ensures this.mesh == mesh && this.src == src && this.basis == basis && this.num == num
      ensures R == rSrc && this.lambd == lambd && errIdx == []
      ensures Valid()
    {
      this.elePos := elePos;
      this.pots := pots;
      this.nObs := |elePos|;
      this.nt := nt;
      this.mesh := mesh;
      this.src := src;
      this.basis := basis;
      this.num := num;
      R := rSrc;
      this.lambd := lambd;
      distMax := 1.0;
      distTable := [];
      bPot := [];
      kPot := [];
      bSrc := [];
      kInterpCross := [];
      errIdx := [];
      new;
      distMax := DistMaxFor(R);
      Rebuild();
    }

    /** create_lookup: probe the forward model at the sparse indices, then interpolate. */
    method CreateLookup()
      requires Shapes() && distMax > 0.0
      modifies this
      ensures R == old(R) && lambd == old(lambd) && distMax == old(distMax) && errIdx == old(errIdx)
      ensures distTable == LookupTable(R, distMax)
      ensures bPot == old(bPot) && kPot == old(kPot) && bSrc == old(bSrc)
      ensures kInterpCross == old(kInterpCross)
    {
      var xs := SparseDistTable(R, distMax, DistTableDensity);
      var probed := Probe(R, distMax);
      distTable := seq(DistTableDensity, k requires 0 <= k < DistTableDensity => num.spline(xs, probed, k));
    }

    /** The loop of create_lookup: the forward model at every probe's distance, in order. */
    method Probe(r: real, dm: real) returns (probed: seq<real>)
      requires dm > 0.0
      ensures probed == ProbeValues(r, dm)
    {
      var xs := SparseDistTable(r, dm, DistTableDensity);
      var probes := new real[|xs|];
      ghost var want := ProbeValues(r, dm);
      for i := 0 to |xs|
        invariant forall j :: 0 <= j < i ==> probes[j] == want[j]
      {
        probes[i] := Probed(xs[i], r, dm);
      }
      probed := probes[..];
    }

    /** update_b_pot: look every source-electrode distance up, then k_pot = b_pot.T b_pot. */
    method UpdateBPot()
      requires Shapes() && distMax > 0.0 && |distTable| > 0
      modifies this
      ensures R == old(R) && lambd == old(lambd) && distMax == old(distMax) && errIdx == old(errIdx)
      ensures distTable == old(distTable) && bSrc == old(bSrc) && kInterpCross == old(kInterpCross)
      ensures bPot == BPot(Distances(), nObs, distTable, distMax)
      ensures kPot == KPot(bPot, src.Size(), nObs)
    {
      bPot := BPot(Distances(), nObs, distTable, distMax);
      kPot := KPot(bPot, src.Size(), nObs);
    }

    /** update_b_src: fill b_src source by source, then k_interp_cross = b_src b_pot. */
    method UpdateBSrc()
      requires Shapes() && IsMatrix(bPot, src.Size(), nObs)
      modifies this
      ensures R == old(R) && lambd == old(lambd) && distMax == old(distMax) && errIdx == old(errIdx)
      ensures distTable == old(distTable) && bPot == old(bPot) && kPot == old(kPot)
      ensures bSrc == BSrc(mesh, src, num.basisAt, basis, R)
      ensures kInterpCross == MatMul(bSrc, bPot, src.Size(), nObs)
    {
      bSrc := FillBSrc(mesh, src, num.basisAt, basis, R);
      kInterpCross := MatMul(bSrc, bPot, src.Size(), nObs);
    }

    /** method(): rebuild the lookup table and the kernels for the current R and dist_max. */
    method Rebuild()
      requires Shapes() && distMax == DistMaxFor(R) && distMax > 0.0
      modifies this
      ensures R == old(R) && lambd == old(lambd) && errIdx == old(errIdx)
      ensures Valid()
    {
      CreateLookup();
      UpdateBPot();
      UpdateBSrc();
    }

    /** update_R: set R and dist_max, then rebuild every table. */
    method UpdateR(r: real)
      requires Shapes() && DistMaxFor(r) > 0.0
      modifies this
      ensures R == r && distMax == DistMaxFor(r) && kPot == KPotFor(r)
      ensures lambd == old(lambd) && errIdx == old(errIdx)
      ensures Valid()
    {
      R := r;
      distMax := DistMaxFor(r);
      Rebuild();
    }

    /** update_lambda: only lambd changes. */
    method UpdateLambda(l: real)
      modifies this
      ensures lambd == l
      ensures R == old(R) && distMax == old(distMax) && distTable == old(distTable)
      ensures bPot == old(bPot) && kPot == old(kPot) && bSrc == old(bSrc)
      ensures kInterpCross == old(kInterpCross) && errIdx == old(errIdx)
      ensures old(Valid()) ==> Valid()
    {
      lambd := l;
    }

    /** With a true square root, dist_max^2 = Lx^2 + Ly^2. */
    lemma DistMaxIsDiagonal()
      requires Shapes() && distMax == DistMaxFor(R) && IsRoot(num.root)
      ensures distMax >= 0.0 && Square(distMax) == DiagonalSquared(src, R)
    {
      SquarePositive(MaxEntry(src.x) - MinEntry(src.x) + R);
      SquarePositive(MaxEntry(src.y) - MinEntry(src.y) + R);
      var d := DiagonalSquared(src, R);
      assert d >= 0.0;
      assert num.root(d) >= 0.0 && Square(num.root(d)) == d;
    }

    /**
     * values('CSD'): cell (a, b) at time t is the sum over electrodes i of
     * beta_t[i] * k_interp_cross[a * ny + b][i], with
     * beta_t = inv(k_pot + lambd I) pots[:, t]. No field is written.
     */
    method Values() returns (est: seq<seq<seq<real>>>)
      requires Valid()
      ensures |est| == mesh.rows && forall a :: 0 <= a < mesh.rows ==> |est[a]| == mesh.cols
      ensures forall a, b :: 0 <= a < mesh.rows && 0 <= b < mesh.cols ==> |est[a][b]| == nt
      ensures forall a, b, t :: 0 <= a < mesh.rows && 0 <= b < mesh.cols && 0 <= t < nt ==>
        est[a][b][t] == Dot(Beta(num.inverse(Ridge(kPot, lambd)), pots, t),
                            kInterpCross[CellRow(a, b, mesh.rows, mesh.cols)], nObs)
    {
      var kInv := num.inverse(Ridge(kPot, lambd));
      est := Estimate(kInterpCross, kInv, pots, nObs, nt, mesh.rows, mesh.cols);
    }
  
    /**
     * The outer loop of cross_validate: for each radius in turn update_R,
     * then score every lambda. errs gets one row per radius and the engine
     * is left at the last radius.
     */
    method ScoreRadii(radii: seq<real>, ls: seq<real>) returns (errs: Matrix)
      requires Valid()
      requires forall r :: r in radii ==> DistMaxFor(r) > 0.0
      modifies this
      ensures lambd == old(lambd) && errIdx == old(errIdx)
      ensures |radii| == 0 ==> R == old(R)
      ensures |radii| > 0 ==> R == radii[|radii| - 1]
      ensures errs == ErrorGrid(radii, ls)
      ensures Valid()
    {
      errs := [];
      ghost var scores := Scores(radii);
      for ri := 0 to |radii|
        invariant Valid()
        invariant ri == 0 ==> R == old(R)
        invariant ri > 0 ==> R == radii[ri - 1]
        invariant lambd == old(lambd) && errIdx == old(errIdx)
        invariant errs == ErrorMatrix(scores, ls, ri)
      {
        UpdateR(radii[ri]);
        assert scores[ri] == LooErrorOf(kPot, pots, nObs, nt, num.inverse, num.root);
        var row := ScoreLambdas(kPot, pots, nObs, nt, num.inverse, num.root, ls);
        errs := errs + [row];
      }
    }

    /**
     * cross_validate: rebuild for every radius, score every lambda by its
     * summed leave-one-out error, keep the first minimal (R, lambda) in
     * row-major order, record every minimal cell in err_idx and leave the
     * engine rebuilt for the choice. Radii default to [R] and lambdas to the
     * default logspace. An empty search fails at np.min, and the engine is
     * then left at the last radius tried.
     */
    method CrossValidate(lambdas: Option<seq<real>>, rs: Option<seq<real>>)
      returns (res: Result<(real, real)>)
      requires Valid()
      requires forall r :: r in rs.GetOr([R]) ==> DistMaxFor(r) > 0.0
      modifies this
      ensures var radii := rs.GetOr([old(R)]);
        var ls := lambdas.GetOr(num.defaultLambdas);
        && (res.Err? <==> |radii| == 0 || |ls| == 0)
        && (res.Err? ==> res.error == EmptySearch && lambd == old(lambd) && errIdx == old(errIdx))
        && (res.Err? && |radii| == 0 ==> R == old(R))
        && (res.Err? && |radii| > 0 ==> R == radii[|radii| - 1])
        && (res.Ok? ==>
              var grid := ErrorGrid(radii, ls);
              var p := FirstMinCell(grid, |radii|, |ls|);
              && res.value == (radii[p.0], ls[p.1])
              && R == radii[p.0] && lambd == ls[p.1]
              && errIdx == MinCells(grid, |radii|, |ls|))
      ensures var radii := rs.GetOr([old(R)]);
        var ls := lambdas.GetOr(num.defaultLambdas);
        |radii| == 1 && |ls| == 1 ==> res == Ok((radii[0], ls[0]))
      ensures lambdas.None? && |rs.GetOr([old(R)])| > 0 ==> res.Ok? && 0.0 < res.value.1 < 1.0
      ensures Valid()
    {
      var radii := rs.GetOr([R]);
      var ls := lambdas.GetOr(num.defaultLambdas);
      var nR, nL := |radii|, |ls|;
      var errs := ScoreRadii(radii, ls);
      if nR == 0 || nL == 0 {
        return Err(EmptySearch);
      }
      var p := FirstMinCell(errs, nR, nL);
      if lambdas.None? {
        DefaultLambdaBounds(ls, p.1);
      }
      errIdx := MinCells(errs, nR, nL);
      UpdateR(radii[p.0]);
      UpdateLambda(ls[p.1]);
      res := Ok((radii[p.0], ls[p.1]));
    }

    /**
     * __init__ from the raw inputs: estimate_at, then place_basis, whose
     * basis check fails after the mesh is built, then method(). The source
     * grid and its R are those make_src_2D returns for the mesh.
     */
    static method Create(elePos: seq<Point>, pots: Matrix, nt: nat, srcType: string, params: GridParams,
                         src: Lattice, rSrc: real, lambd: real, num: Numerics)
      returns (res: Result<KCSD2D>)
      requires IsMatrix(pots, |elePos|, nt) && nt > 0
      requires src.Valid() && src.rows > 0 && src.cols > 0 && num.root(DiagonalSquared(src, rSrc)) > 0.0
      requires IsDefaultLogspace(num.defaultLambdas)
      ensures EstimateAt(elePos, params).Err? ==> res == Err(EstimateAt(elePos, params).error)
      ensures EstimateAt(elePos, params).Ok? && ParseBasis(srcType).Err? ==> res == Err(InvalidBasis)
      ensures res.Ok? <==> EstimateAt(elePos, params).Ok? && ParseBasis(srcType).Ok?
      ensures res.Ok? ==>
        && fresh(res.value) && res.value.Valid()
        && res.value.mesh == MeshLattice(EstimateAt(elePos, params).value)
        && res.value.basis == ParseBasis(srcType).value
        && res.value.src == src && res.value.R == rSrc && res.value.lambd == lambd
        && res.value.elePos == elePos && res.value.pots == pots && res.value.num == num
    {
      var m := EstimateAt(elePos, params);
      if m.Err? {
        return Err(m.error);
      }
      var b := ParseBasis(srcType);
      if b.Err? {
        return Err(b.error);
      }
      MeshLatticeValid(elePos, params);
      var k := new KCSD2D(elePos, pots, nt, MeshLattice(m.value), src, b.value, rSrc, lambd, num);
      return Ok(k);
    }
  }
}
