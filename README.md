# Sparse BOP-DMD: a Dafny model of its discrete skeleton

PyDMD's sparse-mode BOP-DMD fits `X ≈ Φ(α, t)·B` to snapshot data, where B
has sparse columns ("modes"). It alternates two steps:

- an accelerated proximal-gradient solve for B;
- a Levenberg–Marquardt step for the eigenvalues α.

Around those numerics sits a discrete skeleton, and this project models it.

**`pydmd/sbopdmd_utils.py` (module `SbopdmdUtils`).** The skeleton there is:

- the regularizer norms: `L0_norm`, `L1_norm`, `L2_norm`, `L2_norm_squared`;
- `sign` and the proximal operators: `hard_threshold`, `soft_threshold`, `group_lasso` and the two scaled variants;
- `split_B` and `get_nonzero_cols`.

The loop of `accelerated_prox_grad` is in module `AcceleratedProxGrad`.

**`pydmd/sbopdmd.py`.** The skeleton there is:

- `SparseBOPDMD` (module `SparseBopdmd`):
  - the constructor's validation and the filling of the regularizer parameters;
  - the preset dispatch of `mode_regularizer` and `mode_prox`;
  - the `mask` of inactive features;
  - the input checks of `fit`.
- `SparseBOPDMDOperator`:
  - the damping search and scale clamp of `_compute_alpha_levmarq` (module `LevenbergMarquardt`);
  - the `_variable_projection` loop (module `SparseOperator`). This covers the sample-size rule, the update of the sampled columns only, and the converged / stalled / exhausted ending.

**Representation.**

- A complex entry is a pair of reals (module `Matrices`), and a matrix is a sequence of rows.
- Dafny's reals have no square root. Squared magnitudes are exact; the modulus |x| of an entry and the 2-norm of a column or row come in as given values, and the predicates `IsModulus` and `IsNorm` say that they are the right ones.
- All dense linear algebra enters as function-valued fields of the datatypes `AcceleratedProxGrad.Problem`, `LevenbergMarquardt.LmData` and `SparseOperator.Numerics`. This includes Φ, the objectives, the gradients, the QR/lstsq step, `_push_eigenvalues` and the random draw.
- The requirements on those fields are stated as predicates:
  - shapes are kept;
  - β_f > 0;
  - the draw returns the requested number of distinct valid indices.

**Shape of the model.** Each operation that the source writes as a loop or an in-place assignment is:

- a specification function;
- a method that runs the source's loop or assignment, proved equal to that function;
- lemmas that state the function's properties.

The pure operations are functions with lemmas. The file `test_scenarios.dfy` restates the l0, l1 and l2 cases of `tests/test_sbopdmd.py` on the model and proves them.

## Model

| member | source | states |
|---|---|---|
| SbopdmdUtils.CountNonzeroIsCard | pydmd/sbopdmd_utils.py:9-13 | The nonzero count of a row is the size of the set of its nonzero positions. |
| SbopdmdUtils.L0NormCounts | pydmd/sbopdmd_utils.py:9-13 | L0_norm(X) is the number of positions (i, j) with X[i][j] ≠ 0. |
| SbopdmdUtils.L0NormBound | pydmd/sbopdmd_utils.py:9-13 | For a rows×cols matrix, L0_norm lies between 0 and rows·cols. |
| SbopdmdUtils.L0NormZero | pydmd/sbopdmd_utils.py:9-13 | L0_norm(X) = 0 exactly when X is the zero matrix. |
| SbopdmdUtils.L1Norm | pydmd/sbopdmd_utils.py:16-20 | Σ\|x\| over the given entry moduli is ≥ 0, and it is 0 exactly when X is zero. |
| SbopdmdUtils.RowModuliSum | pydmd/sbopdmd_utils.py:16-20 | For one row, the sum of the entry moduli is ≥ 0, and it is 0 exactly when the row is zero. |
| SbopdmdUtils.L2Norm | pydmd/sbopdmd_utils.py:23-27 | The sum of the given column 2-norms is ≥ 0, and it is 0 exactly when X is zero. |
| SbopdmdUtils.NormVanishes | pydmd/sbopdmd_utils.py:23-27 | A vector's 2-norm is 0 exactly when the vector is zero. |
| SbopdmdUtils.ZeroColumns | pydmd/sbopdmd_utils.py:23-27 | A rectangular matrix is zero exactly when each of its columns is zero. |
| SbopdmdUtils.L2NormSquared | pydmd/sbopdmd_utils.py:30-34 | Σ\|x\|² is ≥ 0, and it is 0 exactly when X is zero. |
| SbopdmdUtils.Sign | pydmd/sbopdmd_utils.py:37-46 | sign(X) has X's shape, and each entry is the sign of the matching entry of X. |
| SbopdmdUtils.SignEntryUnit | pydmd/sbopdmd_utils.py:37-46 | sign(0) = 0. For x ≠ 0, sign(x) has modulus 1 and \|x\|·sign(x) = x. |
| SbopdmdUtils.SoftThresholded | pydmd/sbopdmd_utils.py:59-65 | soft_threshold keeps X's shape and acts entry by entry. |
| SbopdmdUtils.SoftEntryMultiple | pydmd/sbopdmd_utils.py:59-65 | A nonzero entry becomes f·x with f = max(\|x\|−γ, 0)/\|x\| ≥ 0, so its direction is never flipped. |
| SbopdmdUtils.SoftEntryModulus | pydmd/sbopdmd_utils.py:59-65 | A nonzero entry's result has modulus max(\|x\|−γ, 0). |
| SbopdmdUtils.SoftEntryVanishes | pydmd/sbopdmd_utils.py:59-65 | For γ ≥ 0, an entry becomes 0 exactly when \|x\| ≤ γ. |
| SbopdmdUtils.SoftThresholdZeroes | pydmd/sbopdmd_utils.py:59-65 | For γ ≥ 0, entry (i, j) of soft_threshold(X, γ) is 0 exactly when \|X[i][j]\| ≤ γ. |
| SbopdmdUtils.SoftThresholdIdentity | pydmd/sbopdmd_utils.py:59-65 | soft_threshold(X, 0) = X. |
| SbopdmdUtils.SoftThresholdCompose | pydmd/sbopdmd_utils.py:59-65 | For a, b ≥ 0, soft_threshold(soft_threshold(X, a), b) = soft_threshold(X, a + b), using the moduli max(\|x\|−a, 0) of the first result. |
| SbopdmdUtils.HardThresholded | pydmd/sbopdmd_utils.py:49-56 | hard_threshold keeps X's shape and acts entry by entry. |
| SbopdmdUtils.HardThreshold | pydmd/sbopdmd_utils.py:49-56 | The copy-and-assign method yields the same shape. Each entry is 0 when \|x\|² < 2γ and the input entry otherwise. |
| SbopdmdUtils.HardThresholdIdentity | pydmd/sbopdmd_utils.py:49-56 | For γ ≤ 0, hard_threshold returns X unchanged. |
| SbopdmdUtils.HardThresholdIdempotent | pydmd/sbopdmd_utils.py:49-56 | Applying hard_threshold twice with the same γ equals applying it once. |
| SbopdmdUtils.HardThresholdSparsifies | pydmd/sbopdmd_utils.py:49-56 | hard_threshold never raises L0_norm. |
| SbopdmdUtils.GroupLassoOf | pydmd/sbopdmd_utils.py:68-82 | group_lasso keeps X's shape. |
| SbopdmdUtils.AdjustNorms | pydmd/sbopdmd_utils.py:73-75 | Norms below γ are replaced by 1.0, and the others are kept. |
| SbopdmdUtils.ClearColumns | pydmd/sbopdmd_utils.py:78-79 | Each row has the small columns cleared and keeps the rest. |
| SbopdmdUtils.ScaleColumns | pydmd/sbopdmd_utils.py:80 | Each row's entry j is multiplied by factor j, which is right-multiplication by a diagonal matrix. |
| SbopdmdUtils.GroupLasso | pydmd/sbopdmd_utils.py:68-82 | The in-place method computes group_lasso for γ > 0. |
| SbopdmdUtils.GroupLassoEntry | pydmd/sbopdmd_utils.py:68-82 | An entry in a column of norm ≤ γ becomes 0. Otherwise it is multiplied by 1 − γ/norm. |
| SbopdmdUtils.GroupLassoColumn | pydmd/sbopdmd_utils.py:68-82 | A column of norm ≤ γ becomes the zero column. Otherwise the column is (1 − γ/norm) times the input column. |
| SbopdmdUtils.AdjustedNorm | pydmd/sbopdmd_utils.py:73-75 | The divisor is positive for γ > 0, so no column is divided by zero. |
| SbopdmdUtils.GroupLassoZeroesColumn | pydmd/sbopdmd_utils.py:68-82 | For γ > 0, a result column is zero exactly when its input norm is ≤ γ. |
| SbopdmdUtils.GroupLassoShrinksColumn | pydmd/sbopdmd_utils.py:68-82 | Each result column has norm max(norm − γ, 0). |
| SbopdmdUtils.ThresholdScale | pydmd/sbopdmd_utils.py:85-112 | The scale 1/(1 + 2γβ) exists exactly when the denominator is nonzero, and its product with the denominator is 1. |
| SbopdmdUtils.ThresholdScaleBounds | pydmd/sbopdmd_utils.py:85-112 | For γ, β ≥ 0, the scale exists and lies in (0, 1]. |
| SbopdmdUtils.ThresholdScaleUnit | pydmd/sbopdmd_utils.py:85-112 | For β = 0, the scale is 1. |
| SbopdmdUtils.ScaledThresholdsReduce | pydmd/sbopdmd_utils.py:85-112 | For β = 0, the scaled variants equal hard_threshold(X, γα) and soft_threshold(X, γα). |
| SbopdmdUtils.ScaledHardEntry | pydmd/sbopdmd_utils.py:85-97 | scaled_hard_threshold zeroes entry x exactly when \|x\|² < 2·γα·(1 + 2γβ), and otherwise returns s·x. |
| SbopdmdUtils.ScaledSoftZeroes | pydmd/sbopdmd_utils.py:100-112 | For γ, β ≥ 0 and γα ≥ 0, scaled_soft_threshold zeroes an entry exactly when \|x\| ≤ γα. |
| SbopdmdUtils.ZeroModesDividedByZero | pydmd/sbopdmd_utils.py:121-128 | For B = [[0]], the source's guard 0 < 10·eps·max(b) is false, so the divisor stays 0. |
| SbopdmdUtils.DivisorsNonzero | pydmd/sbopdmd_utils.py:121-128 | With the corrected guard, every divisor is > 0. |
| SbopdmdUtils.DegenerateAgrees | pydmd/sbopdmd_utils.py:124 | When max(b) > 0, the corrected guard and the source's guard pick the same rows. |
| SbopdmdUtils.ReplaceSmall | pydmd/sbopdmd_utils.py:124-125 | The in-place replacement of the small amplitudes by 1.0 yields the divisors. |
| SbopdmdUtils.DivideRows | pydmd/sbopdmd_utils.py:128 | Row k of diag(1/b)·B is B[k] scaled by 1/b[k]. |
| SbopdmdUtils.ClearSmall | pydmd/sbopdmd_utils.py:129-130 | The degenerate rows get a zero mode and amplitude 0. All other rows are kept. |
| SbopdmdUtils.SplitB | pydmd/sbopdmd_utils.py:115-132 | The in-place method computes the split that the specification function describes. |
| SbopdmdUtils.SplitRows | pydmd/sbopdmd_utils.py:115-132 | A degenerate row gets amplitude 0 and a zero mode. Any other row k gets amplitude b[k] > 0, a mode of norm 1, and b[k]·mode = B[k]. |
| SbopdmdUtils.NormalizedRow | pydmd/sbopdmd_utils.py:128 | B[k]/b[k] has norm 1, and multiplying it by b[k] restores B[k]. |
| SbopdmdUtils.BelowTolModulus | pydmd/sbopdmd_utils.py:140 | The squared comparison \|x\|² < tol² is the same as \|x\| < tol. |
| SbopdmdUtils.ClearedBelow | pydmd/sbopdmd_utils.py:139-140 | Clearing the entries below tol keeps the shape. |
| SbopdmdUtils.ClearedActive | pydmd/sbopdmd_utils.py:139-142 | A column of the cleared copy is nonzero exactly when the input has an entry there that is nonzero and not below tol. |
| SbopdmdUtils.ActiveColsUpToSpec | pydmd/sbopdmd_utils.py:142 | np.nonzero of the column flags is strictly increasing, below n, and contains exactly the active columns. |
| SbopdmdUtils.NonzeroColsSpec | pydmd/sbopdmd_utils.py:135-142 | get_nonzero_cols returns strictly increasing in-range indices, exactly the columns holding an entry with \|x\| ≥ tol. |
| SbopdmdUtils.ClearBelowTol | pydmd/sbopdmd_utils.py:139-140 | The copy-and-assign loop computes the cleared copy. The caller's matrix is a value and is unchanged. |
| SbopdmdUtils.ColumnAny | pydmd/sbopdmd_utils.py:142 | The scan of one column returns np.any along axis 0. |
| SbopdmdUtils.GetNonzeroCols | pydmd/sbopdmd_utils.py:135-142 | The method computes get_nonzero_cols. |
| AcceleratedProxGrad.Step | pydmd/sbopdmd_utils.py:200-220 | One iteration keeps the shapes of X and Y, appends one objective, and appends err to the error history. |
| AcceleratedProxGrad.RunLengths | pydmd/sbopdmd_utils.py:200-225 | The loop only appends. Both histories grow together and never past max_iter, by at least one entry once the loop is entered. |
| AcceleratedProxGrad.RunStops | pydmd/sbopdmd_utils.py:198-227 | From a state with err ≥ tol, the loop runs at least once. It stops with err < tol or after max_iter iterations, with err the last recorded error and every earlier error ≥ tol. |
| AcceleratedProxGrad.ProxGradHistories | pydmd/sbopdmd_utils.py:187-227 | For max_iter ≥ 1, the result has 1 ≤ len(obj_hist) = len(err_hist) ≤ max_iter, stops on err < tol or at max_iter, and every error before the last is ≥ tol. |
| AcceleratedProxGrad.ProxGradShape | pydmd/sbopdmd_utils.py:187-227 | The returned X has X0's shape. |
| AcceleratedProxGrad.MomentumGrows | pydmd/sbopdmd_utils.py:203 | For t ≥ 1, t_new > t. |
| AcceleratedProxGrad.StepMomentum | pydmd/sbopdmd_utils.py:203-220 | t stays ≥ 1. It is 1 after a restart, is otherwise t_new > t, and the extrapolation weight (t−1)/t_new lies in [0, 1). |
| AcceleratedProxGrad.RestartOnlyWhenWorse | pydmd/sbopdmd_utils.py:217-220 | t departs from t_new only when restarts are on, iter_count > 1 and obj_hist[k−1] < obj_hist[k], and then t = 1. |
| AcceleratedProxGrad.RunMomentum | pydmd/sbopdmd_utils.py:200-225 | t stays ≥ 1 for the whole loop. |
| AcceleratedProxGrad.ProxGrad | pydmd/sbopdmd_utils.py:145-227 | The while loop over the history arrays returns the specification's result. With a negative max_iter it returns an error, and with max_iter = 0 it returns the index error. |
| LevenbergMarquardt.ClampScale | pydmd/sbopdmd.py:196-197 | Each scale lies in [1e-6, 1]. It equals the norm when the norm lies in that range, and the nearer bound otherwise. |
| LevenbergMarquardt.ScalesOf | pydmd/sbopdmd.py:192-197 | There are IA scales. |
| LevenbergMarquardt.SearchFromSpec | pydmd/sbopdmd.py:227-247 | From index j on, the search returns the step of the first improving damping value, or alpha_0 when none improves. |
| LevenbergMarquardt.LevMarqSpec | pydmd/sbopdmd.py:192-247 | The scales lie in [1e-6, 1]. The result is the step of the first j ∈ 0..maxlam whose objective is strictly smaller than the current one, or else alpha_0. |
| LevenbergMarquardt.NoDampingValues | pydmd/sbopdmd.py:227-247 | For maxlam < 0, no value is tried and alpha_0 is returned. |
| LevenbergMarquardt.DampingIncreases | pydmd/sbopdmd.py:229 | For init_lambda > 0 and lamup > 1, the damping values init_lambda·lamup^j strictly increase with j. |
| LevenbergMarquardt.LevMarqScales | pydmd/sbopdmd.py:192-197 | The scale loop fills the scales of the specification. |
| LevenbergMarquardt.LevMarq | pydmd/sbopdmd.py:171-247 | The early-exit damping loop returns the specification's result. |
| SparseOperator.Restrict | pydmd/sbopdmd.py:321 | B[:, S] is a rows×\|S\| matrix. |
| SparseOperator.WriteColumnsSpec | pydmd/sbopdmd.py:319-322 | After B_new[:, S] = C, column j holds C's matching column when j ∈ S, and B's column j otherwise. |
| SparseOperator.IndexOfDistinct | pydmd/sbopdmd.py:320 | For distinct indices, the position of S[k] in S is k. |
| SparseOperator.Truncate | pydmd/sbopdmd.py:308 | int() truncates toward zero: for x ≥ 0 the result r satisfies 0 ≤ r ≤ x < r + 1, and for x < 0 it satisfies r − 1 < x ≤ r ≤ 0. |
| SparseOperator.SampleSizeRule | pydmd/sbopdmd.py:306-309 | For ratio ≥ 0, the sample size is min(\|valid\|, ⌊N·ratio⌋). |
| SparseOperator.SampleSizeAtMostFeatures | pydmd/sbopdmd.py:306-309 | For 0 < ratio ≤ 1, at most N features are sampled. |
| SparseOperator.ValidFeatures | pydmd/sbopdmd.py:299-303 | The valid features are column indices below N. |
| SparseOperator.ComputeB | pydmd/sbopdmd.py:132-153 | _compute_B keeps the shape of the sampled block. |
| SparseOperator.UpdateOf | pydmd/sbopdmd.py:297-339 | An iteration keeps B's shape. |
| SparseOperator.VpStep | pydmd/sbopdmd.py:297-343 | An iteration records exactly one objective and one error and keeps B's shape. |
| SparseOperator.VpStepSampling | pydmd/sbopdmd.py:299-322 | valid is the nonzero columns of B with masking, and 0..N−1 without. A negative size is exactly the failing draw. The sample is size distinct valid features. The sampled columns of B_new hold _compute_B's result, and every other column equals B's. |
| SparseOperator.RunAfterFailure | pydmd/sbopdmd.py:312-322 | A failure inside an iteration ends the loop with that failure. |
| SparseOperator.VpFinal | pydmd/sbopdmd.py:297-377 | The state the loop stops in keeps B's shape and has between \|s.objs\| and maxiter recorded iterations. |
| SparseOperator.VpLast | pydmd/sbopdmd.py:297-377 | The state the last iteration started from keeps B's shape and has between \|s.objs\| and maxiter recorded iterations. |
| SparseOperator.VpFinalExtends | pydmd/sbopdmd.py:297-377 | The final all_obj and all_err extend the starting ones, to at most maxiter entries. |
| SparseOperator.VpFinalEarlier | pydmd/sbopdmd.py:354-377 | Every iteration before the last had err ≥ tol and did not pass the stall test. |
| SparseOperator.VpRunResult | pydmd/sbopdmd.py:297-387 | The results are the final state's B and alpha and its _unmasked_features. converged holds exactly when an iteration ran and the last error is < tol. An unconverged result before maxiter iterations ended on a stall. A failure is that of the iteration started in the final state. |
| SparseOperator.VpRunTermination | pydmd/sbopdmd.py:297-387 | The conjunction of VpFinalExtends, VpFinalEarlier and VpRunResult: the whole termination rule on the state the loop stops in. |
| SparseOperator.VpLastStep | pydmd/sbopdmd.py:297-343 | When any iteration ran, the final state is what one iteration makes of the state the last iteration started from. |
| SparseOperator.VpRunLastIteration | pydmd/sbopdmd.py:299-303 | With masking, the final _unmasked_features are the valid features of the B that the last iteration started from. |
| SparseOperator.VariableProjectionEnds | pydmd/sbopdmd.py:279-387 | From the initial state and for maxiter ≥ 0, at most maxiter iterations run. converged means the last one had error < tol. An unconverged result before maxiter ended on a stall, and no earlier iteration converged or stalled. |
| SparseOperator.IncreaseStalls | pydmd/sbopdmd.py:358-361 | An objective increase from a previous objective ≥ 0 counts as stalled, for eps_stall ≥ 0. |
| SparseOperator.NoIterations | pydmd/sbopdmd.py:279-297 | For maxiter = 0, the loop returns the initial B and pushed alpha with converged = false. |
| SparseOperator.AssignColumns | pydmd/sbopdmd.py:319-322 | The column assignment loop computes B_new. |
| SparseOperator.Sample | pydmd/sbopdmd.py:299-316 | The method computes the valid features and the sample size, and draws in-range indices. |
| SparseOperator.Iteration | pydmd/sbopdmd.py:297-339 | The method computes the iteration's valid features and its update. |
| SparseOperator.Record | pydmd/sbopdmd.py:338-361 | Storing into all_obj and all_err writes entry itr only. It reports converged = err < tol, and stalled by the signed test against the stored previous objective. |
| SparseOperator.SparseBOPDMDOperator.constructor | pydmd/sbopdmd.py:90-120 | The settings are stored, and _unmasked_features starts as None. |
| SparseOperator.SparseBOPDMDOperator.Advance | pydmd/sbopdmd.py:297-377 | One pass of the for loop either stops with the loop's result or leaves state from which the loop's result is unchanged. |
| SparseOperator.SparseBOPDMDOperator.VariableProjection | pydmd/sbopdmd.py:249-387 | The method returns the result of _variable_projection and leaves _unmasked_features as the loop sets it. |
| SparseBopdmd.ConfigCheckSpec | pydmd/sbopdmd.py:511-525 | Construction fails with the preset error exactly for a string outside {l0, l1, l2, l02, l12}. It fails with the missing-prox error exactly for a function regularizer with mode_prox None. Otherwise it succeeds. |
| SparseBopdmd.FilledParamsSpec | pydmd/sbopdmd.py:527-539 | Both keys are present and the caller's values are kept. A missing lambda is 1.0 and a missing lambda_2 is 1e-6. No other key is added. The warning fires exactly when the caller gave another key. |
| SparseBopdmd.SparseBOPDMD.constructor | pydmd/sbopdmd.py:505-539 | The parameters dictionary is filled in place. The warned flag records the extra keys. |
| SparseBopdmd.NewSparseBOPDMD | pydmd/sbopdmd.py:467-539 | __init__ raises exactly when the checks fail, with the first failing check's error. Otherwise it returns a new object with the filled parameters. |
| SparseBopdmd.ModeRegularizerCounts | pydmd/sbopdmd.py:541-571 | "l0" is λ times the number of nonzero entries of X. "l02" and "l12" are "l0" and "l1" plus λ2·L2². A name outside the five presets gives None. |
| SparseBopdmd.ModeRegularizerNonnegative | pydmd/sbopdmd.py:541-571 | For λ > 0 and λ2 ≥ 0, every preset regularizer is ≥ 0, and it is 0 exactly on the zero matrix. |
| SparseBopdmd.HardKeepsZeros | pydmd/sbopdmd_utils.py:49-56 | hard_threshold keeps the shape and maps 0 entries to 0. |
| SparseBopdmd.SoftKeepsZeros | pydmd/sbopdmd_utils.py:59-65 | soft_threshold keeps the shape and maps 0 entries to 0. |
| SparseBopdmd.GroupKeepsZeros | pydmd/sbopdmd_utils.py:68-82 | group_lasso keeps the shape and maps 0 entries to 0. |
| SparseBopdmd.ScaledHardKeepsZeros | pydmd/sbopdmd_utils.py:85-97 | When the scale exists, scaled_hard_threshold keeps the shape and maps 0 entries to 0. |
| SparseBopdmd.ScaledSoftKeepsZeros | pydmd/sbopdmd_utils.py:100-112 | When the scale exists, scaled_soft_threshold keeps the shape and maps 0 entries to 0. |
| SparseBopdmd.ModeProxPreset | pydmd/sbopdmd.py:573-605 | For λ > 0, λ2 ≥ 0 and t > 0, every preset mode_prox succeeds and keeps X's zero entries. |
| SparseBopdmd.MaskSpec | pydmd/sbopdmd.py:607-620 | The mask exists exactly when the indices are in range. It then has length n, holds 0.0 at the active features and 1.0 elsewhere, and is all zeros when the active features are None. |
| SparseBopdmd.Mask | pydmd/sbopdmd.py:616-617 | The method writing zeros into ones computes the mask. |
| SparseBopdmd.ValidFeaturesBelow | pydmd/sbopdmd.py:299-303 | The valid features are below n_features. |
| SparseBopdmd.RunKeepsIndices | pydmd/sbopdmd.py:297-387 | _unmasked_features stays within range throughout the loop. |
| SparseBopdmd.MaskAfterVariableProjection | pydmd/sbopdmd.py:607-620 | After _variable_projection, the mask of the recorded features exists. |
| SparseBopdmd.Squeeze | pydmd/sbopdmd.py:635 | squeeze drops the unit axes. |
| SparseBopdmd.SqueezeKeeps | pydmd/sbopdmd.py:635 | squeeze leaves a shape without unit axes unchanged. |
| SparseBopdmd.SqueezeIdempotent | pydmd/sbopdmd.py:635 | Squeezing twice equals squeezing once. |
| SparseBopdmd.FitCheckSpec | pydmd/sbopdmd.py:635-674 | fit accepts exactly when the squeezed t is 1-D with as many points as X has columns, and proj_basis and init_alpha are absent or of the required shape. The errors come in the source's order. |
| SparseBopdmd.SingleTimePointRejected | pydmd/sbopdmd.py:635-647 | A one-point time vector squeezes to 0-D, and len() of it fails. |
| TestScenarios.L0Regularizer | tests/test_sbopdmd.py:7-19 | For "l0" with λ = 5, mode_regularizer(A) = 5·count_nonzero(A) = 5·8. |
| TestScenarios.L0Prox | tests/test_sbopdmd.py:22-25 | mode_prox(A, 1.0) for "l0" is 100·[[-1, 0, 0, 0, 1], [-1j, 0, 0, 0, 1j]]. |
| TestScenarios.L1Regularizer | tests/test_sbopdmd.py:28-37 | For "l1", mode_regularizer(A) = 5·Σ\|A\| = 5·404. |
| TestScenarios.L1Prox | tests/test_sbopdmd.py:40-43 | mode_prox(A, 1.0) for "l1" is 95·[[-1, 0, 0, 0, 1], [-1j, 0, 0, 0, 1j]]. |
| TestScenarios.L2Regularizer | tests/test_sbopdmd.py:46-57 | For "l2", mode_regularizer(A) = 5·L2_norm(A), with L2_norm(A) = 2·100√2 + 2·√2. |
| TestScenarios.L2Prox | tests/test_sbopdmd.py:59-63 | mode_prox(A, 1.0) for "l2" is a·[[-1, 0, 0, 0, 1], [-1j, 0, 0, 0, 1j]], with a = 100·(1 − 5/‖[100, 100]‖). |
| TestScenarios.RejectedConfigurations | pydmd/sbopdmd.py:511-525 | An unsupported preset and a function regularizer without mode_prox are refused, and "l12" is accepted. |

## Left out

- Dense linear algebra is not modelled. This covers matrix products, the SVD, QR with pivoting, lstsq, pinv and the spectral norm β_f. These enter as functions in `Problem`, `LmData` and `Numerics`. Their correctness belongs to NumPy and SciPy.
- The exponential basis Φ/dΦ, `_push_eigenvalues`, `compute_operator`, `_single_trial_compute_operator`, the bagging ensemble of the parent classes, `Snapshots`, `compute_rank` and `compute_svd` are not modelled. They are foreign calls. `fit` receives the rank and the shapes as inputs.
- Square roots are not modelled, because Dafny's reals have none:
  - entry moduli and column or row norms are given values, tied to the entries by `IsModulus` and `IsNorm`;
  - the momentum update's sqrt is a parameter that `WellFormed` requires to be the square root.
- Floating point is not modelled: rounding, NaN and inf. All arithmetic is exact. `eps` and the `1e-16` tolerance keep their source values as exact reals.
- The random generator is the `choose` field of `Numerics`. It is required to return distinct valid indices of the requested count; which indices it picks is left open.
- Verbose printing and plotting are left out. For `warnings.warn`, only the fact that it fires is modelled, as the flag `extraParamsWarned`.
- AcceleratedProxGrad.WellFormed requires β_f > 0. The source computes β_f = ‖Φ(α, t)‖₂², which is 0 only for a zero basis. NumPy would then divide by zero and produce inf, and the model does not follow that.
- group_lasso with γ ≤ 0 is left out. NumPy would compute 0/0 on a zero column. `ModeProx` returns the error `GroupStepNotPositive` for the "l2" preset with λ·t ≤ 0, and the group-lasso members require γ > 0.
- The scaled variants' `1/(1 + 2γβ)` with a zero denominator behaves differently in Python depending on the number types. With Python floats it raises ZeroDivisionError. On the solver path t = 1/beta_f is a numpy.float64, so it gives inf with a RuntimeWarning instead. In both cases the model returns `None` or `ScaleDivisionByZero`; it does not model the inf value.
- A negative `max_iter` or `maxiter` makes `np.empty` raise. The model returns the errors `NegativeSize` and `NegativeIterations`. A negative sample size makes `choice` raise, and the model returns `NegativeSampleSize`. With `max_iter = 0`, the first store into `obj_hist` raises, and the model returns `IndexOutOfRange`.
- SparseBopdmd.SparseBOPDMD.constructor: the source fills the caller's own `regularizer_params` dictionary in place, so the caller sees the defaults too. The model builds a new map and does not capture that aliasing.
- SparseBopdmd.MaskSpec: the final `reshape` to `snapshots_shape` is not modelled. The mask is the flat vector.
- The custom regularizer and prox functions are applied as given. Nothing is proved about them.
- The time-vector check of `fit` works on shapes only. `t` itself is not modelled.
- The `use_proj` branch of `_variable_projection` is not modelled separately. The B handed to Levenberg–Marquardt comes through the `lmInput` field of `Numerics`.
- `test_l02` and `test_l12` raise NotImplementedError and assert nothing, so they have no counterpart.
- TestScenarios.L2Regularizer and TestScenarios.L2Prox take 100√2 and √2 as variables r and s with r² = 20000 and s² = 2, because Dafny's reals have no square root.

## Findings

| source | as written | input that shows it | evidently intended | confidence | as-written member | corrected member |
|---|---|---|---|---|---|---|
| pydmd/sbopdmd_utils.py:124 | A row is "small" when `b < 10·eps·max(b)`. An all-zero B gives max(b) = 0, so no row is small, `b` keeps its 0 and `1/b` divides by zero, making the modes NaN. | B = [[0]] (also any B whose rows are all zero) | A zero-amplitude row should be treated as small: zero mode, amplitude 0. For B ≠ 0 the two guards agree. | not executed | SbopdmdUtils.DivisorsAsWritten, SbopdmdUtils.ZeroModesDividedByZero | SbopdmdUtils.Divisors, SbopdmdUtils.DivisorsNonzero, SbopdmdUtils.SplitB |
