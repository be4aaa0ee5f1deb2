/**
 * The kernel matrices of KCSD2D: the basis types place_basis accepts, the
 * two orders in which the source grid is enumerated, b_pot and its Gram
 * matrix k_pot (update_b_pot), and b_src with the cross kernel
 * k_interp_cross (update_b_src).
 */
module Kernels {
  import opened Base
  import opened LinAlg
  import opened Grid
  import opened Lookup

  /** The basis source shapes of basis_types. */
  datatype Basis = Gauss | Step | GaussLim

  /** The key under which basis_types lists a basis. */
  function BasisName(b: Basis): string {
    match b
    case Gauss => "gauss"
    case Step => "step"
    case GaussLim => "gauss_lim"
  }

  /**
   * place_basis' check of source_type: a known name selects its basis, and
   * any other name raises.
   */
  function ParseBasis(name: string): (r: Result<Basis>)
    ensures r.Ok? <==> exists b: Basis :: BasisName(b) == name
    ensures r.Ok? ==> BasisName(r.value) == name
    ensures r.Err? ==> r.error == InvalidBasis
  {
    if name == "gauss" then assert BasisName(Gauss) == name; Ok(Gauss)
    else if name == "step" then assert BasisName(Step) == name; Ok(Step)
    else if name == "gauss_lim" then assert BasisName(GaussLim) == name; Ok(GaussLim)
    else
      assert forall b: Basis :: BasisName(b) != name;
      Err(InvalidBasis)
  }

  /** Multiplying by a natural number keeps the order of the factors. */
  lemma MulMono(a: int, b: int, d: nat)
    ensures a >= b ==> a * d >= b * d
  {
    if a >= b {
      assert a * d == b * d + (a - b) * d;
    }
  }

  /** Euclidean division of q * d + r by d gives back q and r. */
  lemma DivModUnique(q: nat, r: nat, d: nat)
    requires r < d
    ensures (q * d + r) / d == q && (q * d + r) % d == r
  {
    var n := q * d + r;
    var q', r' := n / d, n % d;
    assert q' * d + r' == n;
    MulMono(q, q' + 1, d);
    MulMono(q', q + 1, d);
    assert (q' + 1) * d == q' * d + d && (q + 1) * d == q * d + d;
  }

  /** Below a product, the quotient by one factor is below the other. */
  lemma QuotientBelow(i: nat, d: nat, e: nat)
    requires i < d * e
    ensures d > 0 && i / d < e && i % d < d
  {
    assert d != 0;
    MulMono(i / d, e, d);
    assert d * (i / d) + i % d == i;
  }

  /**
   * np.unravel_index(i, (nsx, nsy), order='F'): the first index varies
   * fastest. The pair lies on the grid and ravels back to i.
   */
  function UnravelF(i: nat, nsx: nat, nsy: nat): (p: (nat, nat))
    requires i < nsx * nsy
    ensures p.0 < nsx && p.1 < nsy
    ensures p.0 + p.1 * nsx == i
  {
    QuotientBelow(i, nsx, nsy);
    (i % nsx, i / nsx)
  }

  /** Every grid position is reached by UnravelF from exactly ix + iy * nsx. */
  lemma UnravelFOnto(ix: nat, iy: nat, nsx: nat, nsy: nat)
    requires ix < nsx && iy < nsy
    ensures ix + iy * nsx < nsx * nsy
    ensures UnravelF(ix + iy * nsx, nsx, nsy) == (ix, iy)
  {
    assert ix + iy * nsx < nsx + iy * nsx == (iy + 1) * nsx <= nsy * nsx;
    DivModUnique(iy, ix, nsx);
  }

  /**
   * The C order of ndarray.ravel and reshape: the last index varies
   * fastest. The pair lies on the grid and ravels back to k.
   */
  function UnravelC(k: nat, nsx: nat, nsy: nat): (p: (nat, nat))
    requires k < nsx * nsy
    ensures p.0 < nsx && p.1 < nsy
    ensures p.0 * nsy + p.1 == k
  {
    QuotientBelow(k, nsy, nsx);
    (k / nsy, k % nsy)
  }

  /** Every grid position is reached by UnravelC from exactly ix * nsy + iy. */
  lemma UnravelCOnto(ix: nat, iy: nat, nsx: nat, nsy: nat)
    requires ix < nsx && iy < nsy
    ensures ix * nsy + iy < nsx * nsy
    ensures UnravelC(ix * nsy + iy, nsx, nsy) == (ix, iy)
  {
    assert ix * nsy + iy < ix * nsy + nsy == (ix + 1) * nsy <= nsx * nsy;
    DivModUnique(ix, iy, nsy);
  }

  /**
   * The two orders disagree on every grid of at least 2 x 2 sources: flat
   * index 1 is source (1, 0) in F order and source (0, 1) in C order.
   */
  lemma OrdersDiffer(nsx: nat, nsy: nat)
    requires nsx >= 2 && nsy >= 2
    ensures UnravelF(1, nsx, nsy) == (1, 0) && UnravelC(1, nsx, nsy) == (0, 1)
  {
    UnravelFOnto(1, 0, nsx, nsy);
    UnravelCOnto(0, 1, nsx, nsy);
  }

  /** On a grid with a single row or a single column the two orders agree. */
  lemma OrdersAgreeOnLine(i: nat, nsx: nat, nsy: nat)
    requires i < nsx * nsy && (nsx == 1 || nsy == 1)
    ensures UnravelF(i, nsx, nsy) == UnravelC(i, nsx, nsy)
  {
    var (fx, fy) := UnravelF(i, nsx, nsy);
    var (cx, cy) := UnravelC(i, nsx, nsy);
    if nsx == 1 {
      assert fx == 0 && cx == 0;
    } else {
      assert fy == 0 && cy == 0;
    }
  }

  /** ndarray.ravel() of an nsx x nsy matrix: entry (ix, iy) goes to ix * nsy + iy. */
  function Ravel(m: Matrix, nsx: nat, nsy: nat): (r: Vector)
    requires IsMatrix(m, nsx, nsy)
    ensures |r| == nsx * nsy
  {
    seq(nsx * nsy, k requires 0 <= k < nsx * nsy =>
      var p := UnravelC(k, nsx, nsy); m[p.0][p.1])
  }

  lemma RavelAt(m: Matrix, nsx: nat, nsy: nat, ix: nat, iy: nat)
    requires IsMatrix(m, nsx, nsy) && ix < nsx && iy < nsy
    ensures ix * nsy + iy < nsx * nsy && Ravel(m, nsx, nsy)[ix * nsy + iy] == m[ix][iy]
  {
    UnravelCOnto(ix, iy, nsx, nsy);
  }

  /**
   * A grid of points given by its coordinate matrices, both rows x cols:
   * the source grid X_src / Y_src, or the estimation mesh space_X / space_Y.
   */
  datatype Lattice = Lattice(x: Matrix, y: Matrix, rows: nat, cols: nat) {
    ghost predicate Valid() {
      IsMatrix(x, rows, cols) && IsMatrix(y, rows, cols)
    }

    function Size(): nat { rows * cols }
  }

  /** The oracle for distance.cdist: the Euclidean distance of (x1, y1) and (x2, y2). */
  type Distance = (real, real, real, real) -> real

  /**
   * distance.cdist(src.T, ele_pos): row k is the source at position k of the
   * C-order ravel of X_src / Y_src, column e the electrode e
   * (SourceDistanceAt).
   */
  function SourceDistances(src: Lattice, elePos: seq<Point>, dist: Distance): (d: Matrix)
    requires src.Valid()
    ensures IsMatrix(d, src.Size(), |elePos|)
  {
    var xs := Ravel(src.x, src.rows, src.cols);
    var ys := Ravel(src.y, src.rows, src.cols);
    seq(src.Size(), k requires 0 <= k < src.Size() =>
      seq(|elePos|, e requires 0 <= e < |elePos| => dist(xs[k], ys[k], elePos[e].0, elePos[e].1)))
  }

  /** Row ix * nsy + iy of the distance matrix belongs to source (ix, iy). */
  lemma SourceDistanceAt(src: Lattice, elePos: seq<Point>, dist: Distance, ix: nat, iy: nat, e: nat)
    requires src.Valid() && ix < src.rows && iy < src.cols && e < |elePos|
    ensures ix * src.cols + iy < src.Size()
    ensures SourceDistances(src, elePos, dist)[ix * src.cols + iy][e]
      == dist(src.x[ix][iy], src.y[ix][iy], elePos[e].0, elePos[e].1)
  {
    RavelAt(src.x, src.rows, src.cols, ix, iy);
    RavelAt(src.y, src.rows, src.cols, ix, iy);
  }

  /**
   * b_pot = generated_potential(dists): every entry is read from the table;
   * a source on an electrode reads its first entry and one at least
   * dist_max away (with an unwrapped index) its last.
   */
  function BPot(dists: Matrix, nObs: nat, table: seq<real>, distMax: real): (b: Matrix)
    requires IsMatrix(dists, |dists|, nObs) && |table| > 0 && distMax > 0.0
    ensures IsMatrix(b, |dists|, nObs)
    ensures forall k, e :: 0 <= k < |dists| && 0 <= e < nObs ==> b[k][e] in table
    ensures forall k, e :: 0 <= k < |dists| && 0 <= e < nObs && dists[k][e] == 0.0 ==>
      b[k][e] == table[0]
    ensures forall k, e :: 0 <= k < |dists| && 0 <= e < nObs ==>
      (dists[k][e] >= distMax && RoundHalfEven(Scaled(|table|, dists[k][e], distMax)) < 0x1_0000 ==>
         b[k][e] == table[|table| - 1])
  {
    seq(|dists|, k requires 0 <= k < |dists| =>
      seq(nObs, e requires 0 <= e < nObs => GeneratedPotential(table, dists[k][e], distMax)))
  }

  /**
   * k_pot = b_pot.T * b_pot: an n_obs x n_obs symmetric matrix whose entry
   * (i, j) is the inner product of the potentials of all sources at
   * electrodes i and j.
   */
  function KPot(bPot: Matrix, n: nat, nObs: nat): (k: Matrix)
    requires IsMatrix(bPot, n, nObs)
    ensures IsMatrix(k, nObs, nObs) && Symmetric(k)
    ensures forall i, j :: 0 <= i < nObs && 0 <= j < nObs ==>
      k[i][j] == Dot(Column(bPot, i), Column(bPot, j), n)
  {
    GramIsSymmetric(bPot, nObs);
    MatMul(Transpose(bPot, nObs), bPot, n, nObs)
  }

  /**
   * The oracle for a basis function: its value at (x, y) for the element of
   * radius R centred on (xs, ys).
   */
  type BasisAt = (Basis, real, real, real, real, real) -> real

  /**
   * Entry (g, i) of b_src: the basis of source i, taken in F order,
   * evaluated at mesh point g, taken in the C order of the reshape to
   * (ng, n).
   */
  function BSrcEntry(mesh: Lattice, src: Lattice, basisAt: BasisAt, basis: Basis, r: real,
                     g: nat, i: nat): real
    requires mesh.Valid() && src.Valid() && g < mesh.Size() && i < src.Size()
  {
    var p := UnravelC(g, mesh.rows, mesh.cols);
    var s := UnravelF(i, src.rows, src.cols);
    basisAt(basis, mesh.x[p.0][p.1], mesh.y[p.0][p.1], src.x[s.0][s.1], src.y[s.0][s.1], r)
  }

  /** b_src after the reshape: one row per mesh point, one column per source (BSrcAt). */
  function BSrc(mesh: Lattice, src: Lattice, basisAt: BasisAt, basis: Basis, r: real): (b: Matrix)
    requires mesh.Valid() && src.Valid()
    ensures IsMatrix(b, mesh.Size(), src.Size())
  {
    seq(mesh.Size(), g requires 0 <= g < mesh.Size() =>
      seq(src.Size(), i requires 0 <= i < src.Size() => BSrcEntry(mesh, src, basisAt, basis, r, g, i)))
  }

  /**
   * Row a * ngy + b of b_src is mesh point (a, b), and column ix + iy * nsx
   * is source (ix, iy).
   */
  lemma BSrcAt(mesh: Lattice, src: Lattice, basisAt: BasisAt, basis: Basis, r: real,
               a: nat, b: nat, ix: nat, iy: nat)
    requires mesh.Valid() && src.Valid()
    requires a < mesh.rows && b < mesh.cols && ix < src.rows && iy < src.cols
    ensures a * mesh.cols + b < mesh.Size() && ix + iy * src.rows < src.Size()
    ensures BSrc(mesh, src, basisAt, basis, r)[a * mesh.cols + b][ix + iy * src.rows]
      == basisAt(basis, mesh.x[a][b], mesh.y[a][b], src.x[ix][iy], src.y[ix][iy], r)
  {
    UnravelCOnto(a, b, mesh.rows, mesh.cols);
    UnravelFOnto(ix, iy, src.rows, src.cols);
  }

  /**
   * update_b_src's loop: for each source i, in F order, the column
   * b_src[:, :, i] is the basis over the whole mesh; the result is then
   * read as an (ng, n) matrix.
   */
  method FillBSrc(mesh: Lattice, src: Lattice, basisAt: BasisAt, basis: Basis, r: real)
    returns (bs: Matrix)
    requires mesh.Valid() && src.Valid()
    ensures bs == BSrc(mesh, src, basisAt, basis, r)
  {
    ghost var want := BSrc(mesh, src, basisAt, basis, r);
    var ng, n := mesh.Size(), src.Size();
    var cells := new real[ng, n];
    for i := 0 to n
      invariant forall g, j :: 0 <= g < ng && 0 <= j < i ==> cells[g, j] == want[g][j]
    {
      for g := 0 to ng
        invariant forall g', j :: 0 <= g' < ng && 0 <= j < i ==> cells[g', j] == want[g'][j]
        invariant forall g' :: 0 <= g' < g ==> cells[g', i] == want[g'][i]
      {
        cells[g, i] := BSrcEntry(mesh, src, basisAt, basis, r, g, i);
      }
    }
    bs := seq(ng, g requires 0 <= g < ng reads cells =>
      seq(n, i requires 0 <= i < n reads cells => cells[g, i]));
    forall g | 0 <= g < ng
      ensures bs[g] == want[g]
    {
      assert forall i :: 0 <= i < n ==> bs[g][i] == want[g][i];
    }
  }

  /**
   * b_pot's rows and b_src's columns do not enumerate the sources alike.
   * On a grid of at least 2 x 2 sources, term 1 of every k_interp_cross
   * entry multiplies the basis of source (1, 0) by the potential of source
   * (0, 1).
   */
  lemma CrossKernelPairsDifferentSources(mesh: Lattice, src: Lattice, basisAt: BasisAt,
                                         basis: Basis, r: real, elePos: seq<Point>,
                                         dist: Distance, a: nat, b: nat, e: nat)
    requires mesh.Valid() && src.Valid() && src.rows >= 2 && src.cols >= 2
    requires a < mesh.rows && b < mesh.cols && e < |elePos|
    ensures a * mesh.cols + b < mesh.Size()
    ensures BSrc(mesh, src, basisAt, basis, r)[a * mesh.cols + b][1]
      == basisAt(basis, mesh.x[a][b], mesh.y[a][b], src.x[1][0], src.y[1][0], r)
    ensures SourceDistances(src, elePos, dist)[1][e]
      == dist(src.x[0][1], src.y[0][1], elePos[e].0, elePos[e].1)
  {
    BSrcAt(mesh, src, basisAt, basis, r, a, b, 1, 0);
    SourceDistanceAt(src, elePos, dist, 0, 1, e);
  }
}
