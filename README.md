# KCSD2D kernel current-source-density engine, modelled in Dafny

This project models `KCSD2D`, the two-dimensional kernel CSD estimator. The
model uses exact `real` arithmetic. It covers:

- the estimation grid built by `estimate_at`;
- the `place_basis` checks and `dist_max`;
- the lookup table: the sparse probe indices of `sparse_dist_table` and
  the nearest-index lookup of `generated_potential`;
- `update_b_pot` (distances, `b_pot` and its Gram matrix `k_pot`);
- `update_b_src` (`b_src` in Fortran order and `k_interp_cross`);
- the ridge solution computed by `values`;
- the state changes made by `update_R` and `update_lambda`;
- leave-one-out cross-validation: `calc_error`, `cross_validate` and the
  first-minimum choice over `errs`.

The engine object is the class `Engine.KCSD2D`.

- What `__init__` fixes is held in `const` fields: the electrodes, the
  potentials, the estimation mesh, the source grid, the basis and the
  numerical routines.
- `R`, `lambd`, `dist_max`, `dist_table`, `b_pot`, `k_pot`, `b_src`,
  `k_interp_cross` and `err_idx` are `var` fields. The methods rewrite them.
- `Valid()` says that every table held is the one the current `R` and
  `dist_max` determine.
  - The constructor establishes it. `UpdateR` establishes it from any
    state with the shapes fixed, and `Rebuild` (the source's `method()`)
    from any such state whose `dist_max` matches `R`.
  - `UpdateLambda` preserves it, and so do `ScoreRadii` and `CrossValidate`.
  - `CreateLookup`, `UpdateBPot` and `UpdateBSrc` are stages of `Rebuild`.
    Each rebuilds its own tables and leaves the others as they were, so
    none of them preserves `Valid()` alone.

The numerics are parameters of the engine, fields of `Engine.Numerics`:

- the forward model `b_pot_2d_cont`;
- the cubic spline;
- the basis functions;
- the Euclidean distance;
- the matrix inverse, `Inverter`;
- the square root, `Root`.

The loops of the source are methods with loop invariants, each proved
equal to a specification function:

- `Engine.KCSD2D.Probe`
- `Kernels.FillBSrc`
- `Solver.FillEstimation`
- `CrossVal.AccumulatePrediction`
- `CrossVal.SumFoldErrors`
- `CrossVal.ScoreLambdas`
- `Engine.KCSD2D.ScoreRadii`

The lemmas state what the source promises.

Modules, in dependency order:

| module | file | content |
|---|---|---|
| `Base` | base.dfy | errors, `Option`, `Result`, tabulation |
| `LinAlg` | linalg.dfy | vectors, matrices, products, the ridge matrix |
| `Grid` | grid.dfy | `estimate_at` |
| `Lookup` | lookup.dfy | `sparse_dist_table`, `np.unique`, rounding, `generated_potential` |
| `Kernels` | kernels.dfy | basis names, `unravel_index` in both orders, `b_pot`, `k_pot`, `b_src` |
| `Solver` | solver.dfy | `values` |
| `CrossVal` | crossval.dfy | `calc_error`, the fold loops, the error matrix, the first minimum |
| `Engine` | engine.dfy | the `KCSD2D` class |

The model follows these details of the code as written:

- **Middle probe run.** It steps by `dense_step` (3), not `denser_step`.
- **Last probe run.** It starts at `border2 + 1 + sparse_step/2`. This is
  Python 2 integer division, so the offset is 4.
- **Sample count.** `(max - min)/gd + 1` is truncated toward zero, as
  `np.linspace` does with a float count.
  - A zero spacing is an error, `ZeroSpacing`.
  - A negative count is an error, `NegativeCount`.
  - Both points take numpy from 1.10 up to (not including) 1.18, the
    versions the Python 2 code ran on. Before 1.10 a negative count gives
    an empty array; from 1.18 on a float count raises `TypeError` instead
    of being truncated.
- **Empty electrode set.** The default bounds `np.min` and `np.max` are
  evaluated even when a bound is given, so an empty electrode set fails.
- **Rounding.** `np.round` rounds half to even.
- **Table index.** The scaled index is cast to `np.uint16` before it is
  clamped into the table, so it wraps around modulo 65536.
  - `Lookup.TableIndexWrapsAround` exhibits a distance far beyond
    `dist_max` that reads entry 0.
- **Source orders.** `b_pot` rows follow the C-order ravel of
  `X_src`. `b_src` columns follow F-order `unravel_index`.
  - `Kernels.CrossKernelPairsDifferentSources` shows that, in
    `k_interp_cross = b_src b_pot`, column 1 of `b_src` and row 1 of `b_pot`
    belong to different sources.
- **Prediction.** `calc_error` predicts with the weights of time column 0
  only (`beta_new[ii, 0]`). It then takes the norm of the residual over
  every time column.

## Model

| member | source | states |
|---|---|---|
| Grid.MinOf | KCSD2D.py:57-60 | np.min of a non-empty sequence, folded from the left; its meaning is stated by Grid.MinOfIsLeast |
| Grid.MaxOf | KCSD2D.py:57-60 | np.max of a non-empty sequence, folded from the left; its meaning is stated by Grid.MaxOfIsGreatest |
| Grid.Trunc | KCSD2D.py:65-69 | int() of the sample count truncates toward zero, bracketing the real value on each side of zero |
| Grid.MinOfIsLeast | KCSD2D.py:57-60 | np.min of a non-empty sequence is one of its elements and below every element |
| Grid.MaxOfIsGreatest | KCSD2D.py:57-60 | np.max of a non-empty sequence is one of its elements and above every element |
| Grid.MinEntryIsLeast | KCSD2D.py:93-94 | np.min over the whole source grid is one of its entries and below every entry |
| Grid.MaxEntryIsGreatest | KCSD2D.py:93-94 | np.max over the whole source grid is one of its entries and above every entry |
| Grid.Linspace | KCSD2D.py:68-69 | linspace returns exactly the requested number of samples |
| Grid.LinspaceShape | KCSD2D.py:68-69 | a linspace starts at min, ends at max and has constant step (max - min)/(n - 1) |
| Grid.Axis | KCSD2D.py:62-69 | an axis fails exactly when gd is zero or the count (max - min)/gd + 1 is negative, and otherwise has that many samples |
| Grid.AxisCovers | KCSD2D.py:62-69 | with gd > 0 and min <= max the axis exists, has trunc((max - min)/gd) + 1 samples, starts at min and ends at max unless the span is below one step |
| Grid.DefaultSpacingGives101 | KCSD2D.py:62-66 | the default spacing of 1% of a positive span gives 101 samples |
| Grid.Meshgrid | KCSD2D.py:71 | space_X and space_Y are |lin_y| x |lin_x| with space_X[j][i] = lin_x[i] and space_Y[j][i] = lin_y[j] |
| Grid.GridBounds | KCSD2D.py:57-60 | a given bound is used as is, a missing one is the electrode minimum or maximum, and no electrodes means an error |
| Grid.EstimateAt | KCSD2D.py:49-72 | estimate_at: bounds, spacings, both axes and the meshgrid, or the first error; its meaning is stated by Grid.EstimateAtMesh |
| Grid.EstimateAtMesh | KCSD2D.py:49-72 | estimate_at fails exactly on no electrodes or a failing axis, and otherwise is the meshgrid of the two axes |
| Grid.DemoMeshIs81By81 | KCSD2D.py:367-370 | bounds [-2, 2] with gdX = gdY = 0.05 give an 81 x 81 mesh |
| Lookup.Ceil | KCSD2D.py:155-164 | the ceiling used for arange lengths lies in [x, x + 1) |
| Lookup.ARange | KCSD2D.py:155-164 | np.arange element k is start + k * step, with ceil((stop - start)/step) elements, or none when stop <= start |
| Lookup.ARangeBelowStop | KCSD2D.py:155-164 | every arange element is below stop, and the run is strictly increasing |
| Lookup.ARangeMember | KCSD2D.py:155-164 | start + k * step is in the arange exactly when it is below stop |
| Lookup.Insert | KCSD2D.py:166 | inserting into a strictly increasing sequence keeps it strictly increasing and adds exactly the new element |
| Lookup.Unique | KCSD2D.py:166 | np.unique is strictly increasing, so duplicate-free, with the same elements as its input |
| Lookup.HeadIsLeast | KCSD2D.py:166 | the first element of a strictly increasing sequence is its least |
| Lookup.LastIsGreatest | KCSD2D.py:166 | the last element of a strictly increasing sequence is its greatest |
| Lookup.IncreasingDeterminedByElements | KCSD2D.py:166 | two strictly increasing sequences with the same elements are equal |
| Lookup.SparseProbes | KCSD2D.py:149-165 | the probes before np.unique: the three aranges and the border points in the order they are appended; their membership is stated by Lookup.SparseDistTableMember |
| Lookup.SparseDistTable | KCSD2D.py:142-167 | xs is strictly increasing and holds exactly the probes of the three aranges and the borders |
| Lookup.SparseDistTableMember | KCSD2D.py:149-166 | y is in xs exactly when it is in arange(0, border1, 3), arange(border1 + 1, border2, 3) or arange(border2 + 5, dt_len, 9), or is border1, border2, border2 + 1 or dt_len + 1 |
| Lookup.SparseDistTableHoldsBorders | KCSD2D.py:152-165 | xs contains border1, border2, border2 + 1 and dt_len + 1, and 0 when R >= 0 |
| Lookup.BorderSign | KCSD2D.py:152-153 | both borders are non-negative for R >= 0 |
| Lookup.BordersBelowLength | KCSD2D.py:152-153 | with 1.3 R <= dist_max both borders are at most dt_len |
| Lookup.SparseDistTableEndsAtLength | KCSD2D.py:149-166 | with 1.3 R <= dist_max the last and largest element of xs is dt_len + 1 |
| Lookup.SparseDistTableExample | KCSD2D.py:149-166 | R = 1, dist_max = 10, dt_len = 100 give borders 9 and 13; 10 is probed but not 11 (the middle run steps by 3), and the last run starts at 13 + 1 + 4 = 18 (integer 9/2), so 17 is not probed |
| Lookup.RoundHalfEven | KCSD2D.py:258 | np.round is within 1/2 of its argument, and ties go to the even integer |
| Lookup.RoundMonotone | KCSD2D.py:258 | rounding never decreases as its argument grows |
| Lookup.ToUint16 | KCSD2D.py:258 | np.uint16 gives a value in [0, 65536) congruent to its argument modulo 65536, so it keeps values already in range |
| Lookup.TableIndex | KCSD2D.py:257-259 | the clamped index is always a valid index of the table |
| Lookup.TableIndexAtZero | KCSD2D.py:257-259 | distance 0 reads index 0 |
| Lookup.ScaleMonotone | KCSD2D.py:258 | dt_len * dist / dist_max grows with dist and is non-negative for non-negative dist |
| Lookup.ScaleAtLeast | KCSD2D.py:258 | beyond dist_max the scaled distance is at least dt_len |
| Lookup.RoundAtLeast | KCSD2D.py:258 | rounding a value at least n gives at least n |
| Lookup.TableIndexBeyondRange | KCSD2D.py:257-259 | a distance of at least dist_max reads the last index, when the rounded index fits in uint16 |
| Lookup.TableIndexMonotone | KCSD2D.py:257-259 | a larger distance never reads a smaller index, when the rounded index fits in uint16 |
| Lookup.TableIndexWrapsAround | KCSD2D.py:258-259 | the uint16 cast makes a distance 655.36 times dist_max read index 0 of a 100-entry table |
| Lookup.GeneratedPotential | KCSD2D.py:246-261 | the potential is an entry of the table, dist 0 reads the first entry, and beyond dist_max (unwrapped) reads the last |
| Kernels.ParseBasis | KCSD2D.py:82-85 | a source_type is accepted exactly when it names a basis, which is then the one chosen; otherwise InvalidBasis |
| Kernels.UnravelF | KCSD2D.py:219 | F-order unravel_index gives (i_x, i_y) in range with i_x + i_y * nsx = i |
| Kernels.UnravelFOnto | KCSD2D.py:217-219 | every source (i_x, i_y) is reached by exactly the index i_x + i_y * nsx, so the F order is a bijection |
| Kernels.UnravelC | KCSD2D.py:196 | the C-order position k is (k / nsy, k % nsy), in range with row * nsy + col = k |
| Kernels.UnravelCOnto | KCSD2D.py:196 | every source (i_x, i_y) sits at exactly the C-order position i_x * nsy + i_y |
| Kernels.OrdersDiffer | KCSD2D.py:196-219 | on a grid of at least 2 x 2 sources, index 1 is source (1, 0) in F order and (0, 1) in C order |
| Kernels.OrdersAgreeOnLine | KCSD2D.py:196-219 | on a single row or column of sources the two orders agree |
| Kernels.Ravel | KCSD2D.py:196 | ravel of an nsx x nsy matrix has nsx * nsy entries |
| Kernels.RavelAt | KCSD2D.py:196 | ravel puts entry (i_x, i_y) at position i_x * nsy + i_y |
| Kernels.SourceDistances | KCSD2D.py:196-197 | the cdist matrix has one row per source and one column per electrode |
| Kernels.SourceDistanceAt | KCSD2D.py:196-197 | row i_x * nsy + i_y, column e is the distance of source (i_x, i_y) to electrode e |
| Kernels.BPot | KCSD2D.py:198 | b_pot has the shape of dists, every entry is a table entry, a zero distance reads the first entry and one beyond dist_max (unwrapped) the last |
| Kernels.KPot | KCSD2D.py:199 | k_pot = b_pot.T b_pot is n_obs x n_obs, symmetric, with entry (i, j) the inner product of columns i and j of b_pot |
| Kernels.BSrc | KCSD2D.py:216-227 | b_src is ng x n |
| Kernels.BSrcAt | KCSD2D.py:216-227 | entry (a * ngy + b, i_x + i_y * nsx) is the basis of source (i_x, i_y) at mesh point (a, b) |
| Kernels.FillBSrc | KCSD2D.py:216-227 | the loop over the sources fills exactly b_src |
| Kernels.CrossKernelPairsDifferentSources | KCSD2D.py:196-228 | column 1 of b_src is source (1, 0) while row 1 of b_pot is source (0, 1) |
| LinAlg.Dot | KCSD2D.py:131-133 | the n-term inner product sum of a[i] * b[i]; its algebra is stated by LinAlg.DotCommutes, LinAlg.DotZero and LinAlg.DotAddScaled |
| LinAlg.DotCommutes | KCSD2D.py:199 | the inner product is symmetric |
| LinAlg.Column | KCSD2D.py:133 | a column has one entry per row |
| LinAlg.Transpose | KCSD2D.py:199 | the transpose of an r x c matrix is c x r |
| LinAlg.MatMul | KCSD2D.py:199 | np.dot of a (p x q) and a (q x r) matrix is p x r |
| LinAlg.MatVec | KCSD2D.py:131 | np.dot of a matrix and a vector has one entry per row |
| LinAlg.Ridge | KCSD2D.py:120-121 | k_pot + lambd * I is square of the same size, adding lambd on the diagonal only |
| LinAlg.GramIsSymmetric | KCSD2D.py:199 | b.T b is square, its entries are inner products of columns, and it is symmetric |
| LinAlg.Identity | KCSD2D.py:120-121 | np.identity(n) is n x n |
| LinAlg.DotZero | KCSD2D.py:119-131 | helper of the ridge solve: an inner product with the zero vector is zero (the base case of LinAlg.DotMatVec) |
| LinAlg.DotAddScaled | KCSD2D.py:119-131 | helper of the ridge solve: adding c times a vector distributes over the inner product (the linearity step of LinAlg.DotMatVecStep) |
| LinAlg.DotMatVec | KCSD2D.py:131-133 | a (x v) = (columnwise a x) v |
| LinAlg.DotMatVecStep | KCSD2D.py:131-133 | the induction step of DotMatVec: one more row of x |
| LinAlg.DotStep | KCSD2D.py:131-133 | the n-term inner product extends the n - 1-term one by one product |
| LinAlg.ColumnDotStep | KCSD2D.py:131-133 | one more row adds a[n - 1] * x[n - 1][k] to each column product |
| LinAlg.MatVecAssociates | KCSD2D.py:131 | a (x v) = (a x) v |
| LinAlg.DotIdentityRow | KCSD2D.py:120-121 | row i of the identity picks entry i |
| LinAlg.RightInverseSolves | KCSD2D.py:119-125 | when k_inv is a right inverse of A, A (k_inv c) = c |
| Solver.Beta | KCSD2D.py:131 | beta = k_inv pots[:, t] has one weight per electrode |
| Solver.BetaSolvesRidgeSystem | KCSD2D.py:119-131 | when k_inv inverts k_pot + lambd I, beta solves (k_pot + lambd I) beta = pots[:, t] |
| Solver.CellRow | KCSD2D.py:134 | cell (a, b) of the reshape is flat row a * ny + b < nx * ny |
| Solver.Reshape | KCSD2D.py:134 | reshape(nx, ny, nt) gives shape nx x ny with out[a][b] = flat[a * ny + b] |
| Solver.AddScaledColumn | KCSD2D.py:133 | estimation[:, t] += c * table[:, i] changes column t by exactly that and no other column |
| Solver.Estimation | KCSD2D.py:128-133 | the flat estimation is |table| x nt |
| Solver.FillEstimation | KCSD2D.py:128-133 | the nested loops leave estimation[g, t] = sum over i of beta_t[i] * table[g][i] |
| Solver.Estimate | KCSD2D.py:126-134 | values: out[a][b][t] = sum over i of beta_t[i] * table[a * ny + b][i], of shape nx x ny x nt |
| CrossVal.Interval | KCSD2D.py:345 | lo .. hi - 1 in order |
| CrossVal.Range | KCSD2D.py:345 | range(n) has n entries |
| CrossVal.RemoveFirst | KCSD2D.py:346 | list.remove drops one element |
| CrossVal.RemoveFirstRemovesOne | KCSD2D.py:346 | list.remove removes exactly one occurrence of its argument and keeps every other element |
| CrossVal.RemoveFromInterval | KCSD2D.py:345-346 | removing x from lo .. hi - 1 leaves lo .. x - 1 followed by x + 1 .. hi - 1 |
| CrossVal.TrainIndices | KCSD2D.py:344-346 | idx_train has n_obs - 1 entries, all electrode indices |
| CrossVal.TrainIndicesIsRemove | KCSD2D.py:344-346 | range(n_obs) with ii removed is 0 .. ii - 1 followed by ii + 1 .. n_obs - 1 |
| CrossVal.TrainTestSplit | KCSD2D.py:344-346 | idx_train is strictly increasing, excludes ii, and with idx_test = [ii] covers every electrode |
| CrossVal.Rows | KCSD2D.py:318-319 | pots[idx] picks the listed rows in order |
| CrossVal.Sub | KCSD2D.py:317-324 | k_pot[np.ix_(rows, cols)] is the listed rows and columns |
| CrossVal.FoldWeights | KCSD2D.py:317-323 | beta_new is (n_obs - 1) x nt |
| CrossVal.FoldTestRow | KCSD2D.py:324 | B_test has n_obs - 1 entries |
| CrossVal.FoldPrediction | KCSD2D.py:323-327 | V_est of fold ii: the inner product of beta_new[:, 0] and B_test; its properties are stated by CrossVal.FoldPredictionIgnoresHeldOut and CrossVal.FoldPredictionUsesFirstColumn |
| CrossVal.Norm | KCSD2D.py:328 | np.linalg.norm: the root of the sum of squares; stated by CrossVal.NormOfResidualZero |
| CrossVal.FoldError | KCSD2D.py:315-329 | calc_error of fold ii: the norm of V_est - V_test; stated by CrossVal.FoldErrorZero and CrossVal.CalcError |
| CrossVal.LooError | KCSD2D.py:341-348 | the summed error of the first k folds; stated by CrossVal.LooErrorNonNegative and CrossVal.SumFoldErrors |
| CrossVal.SumSquares | KCSD2D.py:328 | a sum of squares is non-negative |
| CrossVal.SumSquaresZero | KCSD2D.py:328 | a sum of squares is zero exactly when every term is zero |
| CrossVal.SquarePositive | KCSD2D.py:328 | a square is non-negative, and positive for a non-zero number |
| CrossVal.Residual | KCSD2D.py:328 | V_est - V_test has one entry per time column |
| CrossVal.NormOfResidualZero | KCSD2D.py:328 | with a true square root the norm is non-negative, and zero exactly when V_est equals every sample |
| CrossVal.FoldErrorZero | KCSD2D.py:315-329 | a fold's error is non-negative, and zero exactly when its prediction matches the held-out electrode at every time |
| CrossVal.FoldPredictionIgnoresHeldOut | KCSD2D.py:317-327 | potentials that differ only at the held-out electrode give the same prediction |
| CrossVal.FoldPredictionUsesFirstColumn | KCSD2D.py:323-327 | potentials that agree on time column 0 give the same prediction |
| CrossVal.AccumulatePrediction | KCSD2D.py:325-327 | the V_est loop computes the inner product of beta_new[:, 0] and B_test |
| CrossVal.PredictFold | KCSD2D.py:317-327 | V_est is the prediction of fold ii |
| CrossVal.CalcError | KCSD2D.py:315-329 | calc_error returns the norm of the fold's residual |
| CrossVal.LooErrorNonNegative | KCSD2D.py:341-348 | the summed leave-one-out error is non-negative |
| CrossVal.SumFoldErrors | KCSD2D.py:341-348 | the loop over ii sums the error of every fold |
| CrossVal.ErrorRow | KCSD2D.py:340-349 | one row of errs has one entry per lambda |
| CrossVal.ErrorRowAt | KCSD2D.py:340-349 | entry j of a row is the summed error for lambdas[j] |
| CrossVal.ScoreLambdas | KCSD2D.py:340-349 | the loop over lambdas builds that row |
| CrossVal.ErrorMatrix | KCSD2D.py:335-349 | errs is |Rs| x |lambdas| |
| CrossVal.ErrorMatrixAt | KCSD2D.py:335-349 | errs[i][j] is the score of radius i at lambdas[j] |
| CrossVal.WhereFrom | KCSD2D.py:350 | np.where lists, increasingly, exactly the positions holding the value |
| CrossVal.FirstMinCell | KCSD2D.py:350-354 | the chosen cell is minimal and every cell before it in row-major order is strictly larger |
| CrossVal.FirstMinFlat | KCSD2D.py:350-354 | on the ravelled errs, the first position np.where returns holds the minimum and comes before every other minimal position |
| CrossVal.RowMajorBefore | KCSD2D.py:350-354 | a cell earlier in row-major order has a smaller flat index |
| CrossVal.FirstMinAt | KCSD2D.py:350-354 | the first minimal flat index unravels to a minimal cell before which every cell is strictly larger |
| CrossVal.MinCells | KCSD2D.py:350-351 | err_idx lists exactly the minimal cells of errs, each in range, strictly increasing in row-major order, the first being the first minimum |
| CrossVal.MinCellsExact | KCSD2D.py:350-351 | the flat positions np.where finds, unravelled in C order, are all minimal, include every minimal cell and are in row-major order |
| CrossVal.DefaultLambdaBounds | KCSD2D.py:331-332 | every value of the default logspace, 10^-2 down to 10^-25, lies in (0, 10^-2] |
| Engine.DiagonalSquared | KCSD2D.py:93-94 | Lx^2 + Ly^2 with Lx = max(X_src) - min(X_src) + R and likewise for y; stated by Engine.KCSD2D.DistMaxIsDiagonal |
| Engine.MeshLatticeValid | KCSD2D.py:49-72 | a mesh estimate_at produces is a well-formed lattice, and it exists only for non-empty electrodes |
| Engine.KCSD2D.DistMaxFor | KCSD2D.py:293-298 | dist_max = (Lx^2 + Ly^2) ** 0.5 for radius r; stated by Engine.KCSD2D.DistMaxIsDiagonal |
| Engine.KCSD2D.ProbeValues | KCSD2D.py:177-184 | one probed value per sparse index |
| Engine.KCSD2D.LookupTable | KCSD2D.py:177-185 | dist_table has dist_table_density = 100 entries |
| Engine.KCSD2D.Distances | KCSD2D.py:196-197 | one distance per source and electrode |
| Engine.KCSD2D.KPotFor | KCSD2D.py:293-299 | the k_pot update_R leaves is n_obs x n_obs |
| Engine.KCSD2D.ErrorGrid | KCSD2D.py:335-349 | errs is |Rs| x |lambdas| |
| Engine.KCSD2D.ErrorGridAt | KCSD2D.py:335-349 | errs[i][j] is the summed leave-one-out error of lambdas[j] with k_pot rebuilt for Rs[i] |
| Engine.KCSD2D.constructor | KCSD2D.py:40-47 | the engine holds its inputs, R is the radius make_src_2D returns, and every table is built for it |
| Engine.KCSD2D.CreateLookup | KCSD2D.py:137-186 | dist_table becomes the spline through the forward model at the sparse probes, read at 0 .. 99, and nothing else changes |
| Engine.KCSD2D.Probe | KCSD2D.py:180-184 | the probe loop evaluates the forward model at (x / dt_len) * dist_max for every probe, in order |
| Engine.KCSD2D.UpdateBPot | KCSD2D.py:188-201 | b_pot and k_pot become the lookup of every distance and its Gram matrix, and nothing else changes |
| Engine.KCSD2D.UpdateBSrc | KCSD2D.py:203-229 | b_src and k_interp_cross = b_src b_pot are rebuilt, and nothing else changes |
| Engine.KCSD2D.Rebuild | KCSD2D.py:98-104 | method() leaves R and lambd and makes every table consistent with them |
| Engine.KCSD2D.UpdateR | KCSD2D.py:293-300 | R and dist_max = root(Lx^2 + Ly^2) are set, every table is rebuilt, lambd is unchanged |
| Engine.KCSD2D.UpdateLambda | KCSD2D.py:304-307 | only lambd changes, so a consistent engine stays consistent |
| Engine.KCSD2D.DistMaxIsDiagonal | KCSD2D.py:93-95 | with a true square root, dist_max is non-negative and dist_max^2 = Lx^2 + Ly^2 |
| Engine.KCSD2D.Values | KCSD2D.py:106-135 | out[a][b][t] = sum over i of beta_t[i] * k_interp_cross[a * ny + b][i], with beta_t = inv(k_pot + lambd I) pots[:, t]; no field changes |
| Engine.KCSD2D.ScoreRadii | KCSD2D.py:337-349 | the loop over Rs builds errs row by row and leaves the engine at the last R |
| Engine.KCSD2D.CrossValidate | KCSD2D.py:309-359 | returns the (R, lambda) of the first minimal cell of errs in row-major order, records err_idx, leaves R and lambd at the choice; an empty search fails; a single R and a single lambda are returned exactly; the default lambdas with any non-empty Rs succeed with 0 < lambda < 1 |
| Engine.KCSD2D.Create | KCSD2D.py:40-47 | __init__ fails with the estimate_at error, or with InvalidBasis after the mesh is built, and otherwise builds a consistent engine whose R is the one make_src_2D returns |

## Left out

- The forward model `b_pot_2d_cont` (`dblquad` and `arcsinh`): floating-point numerics, taken as the oracle `Numerics.forward` with `h` and `sigma` fixed.
- `interpolate_dist_table`: the cubic `interp1d` spline is the oracle `Numerics.spline`, read at the integers 0 .. dt_len - 1.
- `faster_inverse`, `np.linalg.inv` and the `LinAlgError` fallback: a foreign module, taken as the oracle `Inverter`. It only promises a square result; `Solver.BetaSolvesRidgeSystem` assumes it is a right inverse.
- `distance.cdist` and the `** 0.5` of `dist_max` and `np.linalg.norm`: these need a square root, so they are the oracles `Distance` and `Root` (`IsRoot` states a true square root).
- The basis functions and `basis_types`: KCSD2D_Helpers.py is not part of this model. The basis is `Gauss`, `Step` or `GaussLim` under the keys `gauss`, `step` and `gauss_lim`, and its values are the oracle `BasisAt`.
- `make_src_2D`: not part of this model. The source grid and the `R` it returns are inputs of `Engine.KCSD2D.Create`.
- `KCSD2D_params` and `CSD.validate`: not part of this model. The defaults they set, and the input checks, are not modelled.
- The `'POT'` mode of `values` and `update_b_interp_pot`: `k_interp_pot` is never computed, because the call is commented out.
- The invalid-mode branch of `values`: it only prints and then fails on an unbound name, so only `'CSD'` is modelled.
- The default `np.logspace(-2, -25, 25, base=10.)`: its values 10^(-2 - 23k/24) are floating-point powers, so it is the input `Numerics.defaultLambdas`, constrained by `CrossVal.IsDefaultLogspace` to 25 positive, strictly decreasing values starting at 10^-2. The constructor and `Create` require this of their `Numerics`.
- The default `src_type='gauss'` of `__init__`: `Engine.KCSD2D.Create` takes the basis name as an ordinary argument.
- The `dist_table_density=100` parameter of `create_lookup`: its only caller, `method()`, uses the default, so it is the constant `Lookup.DistTableDensity`.
- The return values of `create_lookup`, `update_b_pot` and `update_b_src`: they are the fields just written, and the methods state those fields.
- `errs`: built as a sequence of rows rather than as a preallocated `np.zeros` array.
- The `lambdas == None` and `Rs == None` tests: they are modelled as `Option`, not through numpy's comparison of an array with `None`.
- Floating-point rounding: everything is exact `real` arithmetic, except the modelled `np.round` tie rule and the `uint16` cast.
- Printing, plotting and the demonstration driver: only the demo's grid parameters are modelled (`Grid.DemoMeshIs81By81`).
- Engine.KCSD2D.UpdateR: requires `dist_max > 0` for the new radius, because the source divides by `dist_max` in `sparse_dist_table` and `generated_potential`. `Engine.KCSD2D.constructor`, `Engine.KCSD2D.Create`, `Engine.KCSD2D.ScoreRadii` and `Engine.KCSD2D.CrossValidate` carry the same requirement.
- Engine.KCSD2D.Values: requires at least one electrode and one time column, as the engine's `Valid()` does. The source's cross-validation reads time column 0, so it needs the same.
- Lookup.TableIndexBeyondRange: "beyond `dist_max` reads the last entry" holds only while the rounded index fits in `uint16`. `Lookup.TableIndexWrapsAround` shows the wrap otherwise. The same side condition is on `Lookup.TableIndexMonotone`, `Lookup.GeneratedPotential` and `Kernels.BPot`.
