/**
 * The variable-projection loop of SparseBOPDMDOperator (pydmd/sbopdmd.py):
 * feature sampling, the update of the sampled columns of B by accelerated
 * proximal gradient, the Levenberg–Marquardt step for alpha, and the
 * converged / stalled / exhausted termination. Everything numerical about
 * H, t, Phi and dPhi is a parameter.
 */
module SparseOperator {
  import opened Matrices
  import SbopdmdUtils
  import AcceleratedProxGrad
  import LevenbergMarquardt

  type Vector = seq<Complex>

  // ---------------------------------------------------------------------
  // Columns of B
  // ---------------------------------------------------------------------

  /** Every index in S names one of n columns. */
  predicate ColumnsIn(S: seq<nat>, n: nat) {
    forall k :: 0 <= k < |S| ==> S[k] < n
  }

  /** B[:, S]. */
  function Restrict(B: Matrix, n: nat, S: seq<nat>): (R: Matrix)
    requires IsMatrix(B, |B|, n) && ColumnsIn(S, n)
    ensures IsMatrix(R, |B|, |S|)
  {
    seq(|B|, i requires 0 <= i < |B| => seq(|S|, k requires 0 <= k < |S| => B[i][S[k]]))
  }

  /** B with column j replaced by column k of C. */
  function SetColumn(B: Matrix, n: nat, j: nat, C: Matrix, k: nat): (R: Matrix)
    requires IsMatrix(B, |B|, n) && j < n && |C| == |B| && forall i :: 0 <= i < |C| ==> k < |C[i]|
    ensures IsMatrix(R, |B|, n)
  {
    seq(|B|, i requires 0 <= i < |B| => B[i][j := C[i][k]])
  }

  /** The assignment B[:, S] = C, made column by column for the first m indices of S. */
  function WriteColumns(B: Matrix, n: nat, S: seq<nat>, C: Matrix, m: nat): (R: Matrix)
    requires IsMatrix(B, |B|, n) && ColumnsIn(S, n) && IsMatrix(C, |B|, |S|) && m <= |S|
    ensures IsMatrix(R, |B|, n)
  {
    if m == 0 then B
    else SetColumn(WriteColumns(B, n, S, C, m - 1), n, S[m - 1], C, m - 1)
  }

  /** The position of j in S. */
  function IndexOf(S: seq<nat>, j: nat): (k: nat)
    requires j in S
    ensures k < |S| && S[k] == j
  {
    if S[0] == j then 0 else 1 + IndexOf(S[1..], j)
  }

  lemma {:induction false} IndexOfDistinct(S: seq<nat>, k: nat)
    requires Distinct(S) && k < |S|
    ensures IndexOf(S, S[k]) == k
  {
    if S[0] != S[k] {
      assert S[1..][k - 1] == S[k];
      IndexOfDistinct(S[1..], k - 1);
    }
  }

  /**
   * With distinct indices, B[:, S] = C gives column S[k] the values of
   * column k of C and leaves every column outside S as it was.
   */
  lemma {:induction false} WriteColumnsSpec(B: Matrix, n: nat, S: seq<nat>, C: Matrix, m: nat)
    requires IsMatrix(B, |B|, n) && ColumnsIn(S, n) && IsMatrix(C, |B|, |S|) && m <= |S| && Distinct(S)
    ensures var R := WriteColumns(B, n, S, C, m);
      forall i, j :: 0 <= i < |B| && 0 <= j < n ==>
        R[i][j] == if j in S[..m] then C[i][IndexOf(S, j)] else B[i][j]
  {
    if m > 0 {
      WriteColumnsSpec(B, n, S, C, m - 1);
      IndexOfDistinct(S, m - 1);
      var R := WriteColumns(B, n, S, C, m);
      forall i, j | 0 <= i < |B| && 0 <= j < n
        ensures R[i][j] == if j in S[..m] then C[i][IndexOf(S, j)] else B[i][j]
      {
        assert S[..m] == S[..m - 1] + [S[m - 1]];
      }
    }
  }

  // ---------------------------------------------------------------------
  // Sampling
  // ---------------------------------------------------------------------

  /** Python's int() on a float: truncation toward zero. */
  function Truncate(x: real): (r: int)
    ensures x >= 0.0 ==> 0 <= r && r as real <= x < r as real + 1.0
    ensures x < 0.0 ==> r <= 0 && r as real - 1.0 < x <= r as real
  {
    if x >= 0.0 then x.Floor else -((-x).Floor)
  }

  /** min(len(valid), int(N·sampling_ratio)). */
  function SampleSize(valid: nat, n: nat, ratio: real): int {
    if valid <= Truncate(n as real * ratio) then valid else Truncate(n as real * ratio)
  }

  /** The sample size: never above the valid features, and int(N·ratio) when that is smaller. */
  lemma SampleSizeRule(valid: nat, n: nat, ratio: real)
    requires ratio >= 0.0
    ensures var s := SampleSize(valid, n, ratio);
      0 <= s <= valid && s <= (n as real * ratio).Floor &&
      (s == valid || s == (n as real * ratio).Floor)
  {
    assert n as real * ratio >= 0.0 by {
      MulNonnegative(n as real, ratio);
    }
  }

  /** With a sampling ratio in (0, 1] at most N features are sampled. */
  lemma SampleSizeAtMostFeatures(valid: nat, n: nat, ratio: real)
    requires 0.0 < ratio <= 1.0
    ensures SampleSize(valid, n, ratio) <= n
  {
    MulNonnegative(n as real, ratio);
    MulNonnegative(n as real, 1.0 - ratio);
    assert n as real * ratio + n as real * (1.0 - ratio) == n as real;
  }

  /** A draw of size indices from valid without replacement. */
  predicate SampleOf(S: seq<nat>, valid: seq<nat>, size: nat) {
    |S| == size && Distinct(S) && forall k :: 0 <= k < |S| ==> S[k] in valid
  }

  /** The features eligible for update: the nonzero columns of B with masking, all N without. */
  function ValidFeatures(B: Matrix, n: nat, useMask: bool): (v: seq<nat>)
    requires IsMatrix(B, |B|, n)
    ensures ColumnsIn(v, n)
  {
    if useMask then
      SbopdmdUtils.NonzeroColsSpec(B, SbopdmdUtils.NonzeroTol);
      SbopdmdUtils.NonzeroColsOf(B, SbopdmdUtils.NonzeroTol)
    else Range(n)
  }

  // ---------------------------------------------------------------------
  // One variable-projection iteration
  // ---------------------------------------------------------------------

  /**
   * The numerical parameters of one call to _variable_projection for fixed
   * H, t, Phi and dPhi: the number of features N, _push_eigenvalues, the
   * least-squares initial B, the prox-gradient problem of _compute_B for
   * alpha and the sampled columns, the B handed to Levenberg–Marquardt
   * (B·conj(proj_basis) with use_proj, B without), the damping-search data
   * for that B and alpha_0, get_objective, the two error norms, and the
   * random draw of each iteration.
   */
  datatype Numerics = Numerics(
    features: nat,
    pushEigenvalues: Vector -> Vector,
    initialB: Vector -> Matrix,
    pgProblem: (Vector, seq<nat>) -> AcceleratedProxGrad.Problem,
    lmInput: Matrix -> Matrix,
    lmData: (Matrix, Vector) -> LevenbergMarquardt.LmData,
    objective: (Matrix, Vector) -> real,
    alphaDistance: (Vector, Vector) -> real,
    bDistance: (Matrix, Matrix) -> real,
    choose: (seq<nat>, nat, nat) -> seq<nat>)

  /**
   * What the loop relies on: the least-squares B has N columns, every
   * prox-gradient problem is well formed, and the generator draws the
   * requested number of distinct valid indices.
   */
  ghost predicate Sound(num: Numerics) {
    (forall a :: IsMatrix(num.initialB(a), |num.initialB(a)|, num.features)) &&
    (forall a, S :: AcceleratedProxGrad.WellFormed(num.pgProblem(a, S))) &&
    (forall v: seq<nat>, size: nat, itr: nat :: size <= |v| ==> SampleOf(num.choose(v, size, itr), v, size))
  }

  /** The parameters of accelerated_prox_grad inside _compute_B. */
  datatype ProxGradParams = ProxGradParams(tol: real, maxIter: int, useRestarts: bool)

  /** The operator's settings for variable projection. */
  datatype VpConfig = VpConfig(
    useMask: bool,
    samplingRatio: real,
    maxiter: int,
    tol: real,
    epsStall: real,
    initLambda: real,
    maxlam: int,
    lamup: real,
    proxGrad: ProxGradParams)

  /** The loop variables: B, alpha, the two histories (itr is their length) and _unmasked_features. */
  datatype VpState = VpState(B: Matrix, alpha: Vector, objs: seq<real>, errs: seq<real>, unmasked: Option<seq<nat>>)

  /** The ways variable projection can fail. */
  datatype VpError = NegativeIterations | NegativeSampleSize | ProxGradFailed(e: AcceleratedProxGrad.PgError)

  predicate Shaped(num: Numerics, s: VpState) {
    IsMatrix(s.B, |s.B|, num.features) && |s.errs| == |s.objs|
  }

  /** _compute_B on the sampled columns. */
  function ComputeB(num: Numerics, pg: ProxGradParams, Bs: Matrix, alpha: Vector, S: seq<nat>)
    : (r: Result<Matrix, AcceleratedProxGrad.PgError>)
    requires Sound(num)
    ensures r.Ok? ==> SameShape(r.value, Bs)
  {
    var p := num.pgProblem(alpha, S);
    AcceleratedProxGrad.ProxGradShape(p, Bs, pg.tol, pg.maxIter, pg.useRestarts);
    match AcceleratedProxGrad.ProxGradOf(p, Bs, pg.tol, pg.maxIter, pg.useRestarts)
    case Ok(o) => Ok(o.X)
    case Err(e) => Err(e)
  }

  /** _unmasked_features once the iteration has computed its valid features. */
  function UnmaskedAfter(num: Numerics, cfg: VpConfig, s: VpState): Option<seq<nat>>
    requires Shaped(num, s)
  {
    if cfg.useMask then Some(ValidFeatures(s.B, num.features, true)) else s.unmasked
  }

  /** What one iteration computes: B_new, alpha_new, the objective and the error. */
  datatype Update = Update(B: Matrix, alpha: Vector, obj: real, err: real)

  /**
   * The work of iteration itr: sample, update the sampled columns of B by
   * _compute_B, take the Levenberg–Marquardt step, and evaluate the
   * objective and err_alpha + err_B.
   */
  function UpdateOf(num: Numerics, cfg: VpConfig, B: Matrix, alpha: Vector, itr: nat): (r: Result<Update, VpError>)
    requires Sound(num) && IsMatrix(B, |B|, num.features)
    ensures r.Ok? ==> IsMatrix(r.value.B, |B|, num.features)
  {
    var n := num.features;
    var valid := ValidFeatures(B, n, cfg.useMask);
    var size := SampleSize(|valid|, n, cfg.samplingRatio);
    if size < 0 then Err(NegativeSampleSize)
    else
      var S := num.choose(valid, size, itr);
      assert ColumnsIn(S, n);
      match ComputeB(num, cfg.proxGrad, Restrict(B, n, S), alpha, S)
      case Err(e) => Err(ProxGradFailed(e))
      case Ok(C) =>
        var Bn := WriteColumns(B, n, S, C, |S|);
        var an := LevenbergMarquardt.LevMarqOf(num.lmData(num.lmInput(Bn), alpha), alpha,
          cfg.initLambda, cfg.lamup, cfg.maxlam);
        Ok(Update(Bn, an, num.objective(Bn, an), num.alphaDistance(alpha, an) + num.bDistance(B, Bn)))
  }

  /** One iteration of the for loop, recorded in the histories. */
  function VpStep(num: Numerics, cfg: VpConfig, s: VpState): (r: Result<VpState, VpError>)
    requires Sound(num) && Shaped(num, s)
    ensures r.Ok? ==> Shaped(num, r.value) && |r.value.objs| == |s.objs| + 1 && |r.value.B| == |s.B|
  {
    match UpdateOf(num, cfg, s.B, s.alpha, |s.objs|)
    case Err(e) => Err(e)
    case Ok(u) => Ok(VpState(u.B, u.alpha, s.objs + [u.obj], s.errs + [u.err], UnmaskedAfter(num, cfg, s)))
  }

  /** all_err[itr] < tol for the last recorded iteration. */
  predicate Converged(cfg: VpConfig, s: VpState)
    requires |s.errs| > 0
  {
    s.errs[|s.errs| - 1] < cfg.tol
  }

  /** itr > 0 and all_obj[itr − 1] − all_obj[itr] < eps_stall·all_obj[itr − 1]. */
  predicate Stalled(cfg: VpConfig, s: VpState)
    requires |s.objs| > 0
  {
    var itr := |s.objs| - 1;
    itr > 0 && StallTest(cfg.epsStall, s.objs[itr - 1], s.objs[itr])
  }

  /** The objective fell by less than eps_stall times its previous value (signed). */
  predicate StallTest(epsStall: real, previous: real, current: real) {
    previous - current < Mul(epsStall, previous)
  }

  /** The three results of _variable_projection. */
  datatype Fit = Fit(B: Matrix, alpha: Vector, converged: bool)

  /** The results, or the failure, together with the final _unmasked_features. */
  datatype VpEnd = VpEnd(result: Result<Fit, VpError>, unmasked: Option<seq<nat>>)

  /** The for loop from a given state: at most maxiter iterations in all. */
  function VpRun(num: Numerics, cfg: VpConfig, s: VpState): VpEnd
    requires Sound(num) && Shaped(num, s) && |s.objs| <= cfg.maxiter
    decreases cfg.maxiter - |s.objs|
  {
    if |s.objs| >= cfg.maxiter then VpEnd(Ok(Fit(s.B, s.alpha, false)), s.unmasked)
    else match VpStep(num, cfg, s)
      case Err(e) => VpEnd(Err(e), UnmaskedAfter(num, cfg, s))
      case Ok(s') =>
        if Converged(cfg, s') then VpEnd(Ok(Fit(s'.B, s'.alpha, true)), s'.unmasked)
        else if Stalled(cfg, s') then VpEnd(Ok(Fit(s'.B, s'.alpha, false)), s'.unmasked)
        else VpRun(num, cfg, s')
  }

  /** VpRun after one successful iteration. */
  lemma RunAfterStep(num: Numerics, cfg: VpConfig, before: VpState, after: VpState)
    requires Sound(num) && Shaped(num, before) && |before.objs| < cfg.maxiter
    requires VpStep(num, cfg, before) == Ok(after)
    ensures Converged(cfg, after) ==>
      VpRun(num, cfg, before) == VpEnd(Ok(Fit(after.B, after.alpha, true)), after.unmasked)
    ensures !Converged(cfg, after) && Stalled(cfg, after) ==>
      VpRun(num, cfg, before) == VpEnd(Ok(Fit(after.B, after.alpha, false)), after.unmasked)
    ensures !Converged(cfg, after) && !Stalled(cfg, after) ==>
      VpRun(num, cfg, before) == VpRun(num, cfg, after)
  {
  }

  /**
   * VpRun after a successful update u, with the convergence and stall
   * tests written on u and the previous objective.
   */
  lemma StepOutcome(num: Numerics, cfg: VpConfig, before: VpState, u: Update)
    requires Sound(num) && Shaped(num, before) && |before.objs| < cfg.maxiter
    requires UpdateOf(num, cfg, before.B, before.alpha, |before.objs|) == Ok(u)
    ensures var k := |before.objs|;
      var after := VpState(u.B, u.alpha, before.objs + [u.obj], before.errs + [u.err], UnmaskedAfter(num, cfg, before));
      var stalled := k > 0 && StallTest(cfg.epsStall, before.objs[k - 1], u.obj);
      Shaped(num, after) &&
      (u.err < cfg.tol ==> VpRun(num, cfg, before) == VpEnd(Ok(Fit(u.B, u.alpha, true)), after.unmasked)) &&
      (!(u.err < cfg.tol) && stalled ==> VpRun(num, cfg, before) == VpEnd(Ok(Fit(u.B, u.alpha, false)), after.unmasked)) &&
      (!(u.err < cfg.tol) && !stalled ==> VpRun(num, cfg, before) == VpRun(num, cfg, after))
  {
    var k := |before.objs|;
    var after := VpState(u.B, u.alpha, before.objs + [u.obj], before.errs + [u.err], UnmaskedAfter(num, cfg, before));
    assert VpStep(num, cfg, before) == Ok(after);
    RunAfterStep(num, cfg, before, after);
    assert Converged(cfg, after) <==> u.err < cfg.tol;
    assert k > 0 ==> after.objs[k - 1] == before.objs[k - 1] && after.objs[k] == u.obj;
  }

  /** VpRun when an iteration fails. */
  lemma RunAfterFailure(num: Numerics, cfg: VpConfig, before: VpState)
    requires Sound(num) && Shaped(num, before) && |before.objs| < cfg.maxiter
    requires UpdateOf(num, cfg, before.B, before.alpha, |before.objs|).Err?
    ensures VpRun(num, cfg, before) ==
      VpEnd(Err(UpdateOf(num, cfg, before.B, before.alpha, |before.objs|).error), UnmaskedAfter(num, cfg, before))
  {
  }

  /** The loop variables before the first iteration. */
  function InitialState(num: Numerics, initAlpha: Vector, initB: Option<Matrix>, unmasked: Option<seq<nat>>): VpState {
    var alpha := num.pushEigenvalues(initAlpha);
    VpState(if initB.None? then num.initialB(alpha) else initB.value, alpha, [], [], unmasked)
  }

  /**
   * _variable_projection as one expression. A negative maxiter makes
   * np.empty fail; maxiter = 0 returns the initial B and alpha, not converged.
   */
  function VariableProjectionOf(num: Numerics, cfg: VpConfig, initAlpha: Vector, initB: Option<Matrix>,
                                unmasked: Option<seq<nat>>): VpEnd
    requires Sound(num)
    requires initB.Some? ==> IsMatrix(initB.value, |initB.value|, num.features)
  {
    if cfg.maxiter < 0 then VpEnd(Err(NegativeIterations), unmasked)
    else VpRun(num, cfg, InitialState(num, initAlpha, initB, unmasked))
  }

  // ---------------------------------------------------------------------
  // What one iteration and the loop promise
  // ---------------------------------------------------------------------

  /**
   * Sampling and the B update: the sample is size = min(|valid|, int(N·ratio))
   * distinct valid features (the nonzero columns of B with masking, 0..N−1
   * without); the sampled columns of B_new hold the prox-gradient result and
   * every other column of B_new equals that of B.
   */
  lemma VpStepSampling(num: Numerics, cfg: VpConfig, s: VpState)
    requires Sound(num) && Shaped(num, s)
    ensures var n := num.features;
      var valid := ValidFeatures(s.B, n, cfg.useMask);
      var size := SampleSize(|valid|, n, cfg.samplingRatio);
      (valid == if cfg.useMask then SbopdmdUtils.NonzeroColsOf(s.B, SbopdmdUtils.NonzeroTol) else Range(n)) &&
      (size < 0 <==> VpStep(num, cfg, s) == Err(NegativeSampleSize)) &&
      (size >= 0 ==>
        var S := num.choose(valid, size, |s.objs|);
        SampleOf(S, valid, size) &&
        (VpStep(num, cfg, s).Ok? ==>
          var C := ComputeB(num, cfg.proxGrad, Restrict(s.B, n, S), s.alpha, S).value;
          var Bn := VpStep(num, cfg, s).value.B;
          forall i, j :: 0 <= i < |s.B| && 0 <= j < n ==>
            Bn[i][j] == if j in S then C[i][IndexOf(S, j)] else s.B[i][j]))
  {
    var n := num.features;
    var valid := ValidFeatures(s.B, n, cfg.useMask);
    var size := SampleSize(|valid|, n, cfg.samplingRatio);
    if size >= 0 {
      var S := num.choose(valid, size, |s.objs|);
      assert SampleOf(S, valid, size);
      var r := ComputeB(num, cfg.proxGrad, Restrict(s.B, n, S), s.alpha, S);
      if r.Ok? {
        assert S[..|S|] == S;
        WriteColumnsSpec(s.B, n, S, r.value, |S|);
      }
    }
  }

  /** The state the for loop stops in: after maxiter iterations, after a converged or stalled one, or before a failing one. */
  function VpFinal(num: Numerics, cfg: VpConfig, s: VpState): (r: VpState)
    requires Sound(num) && Shaped(num, s) && |s.objs| <= cfg.maxiter
    ensures Shaped(num, r) && |s.objs| <= |r.objs| <= cfg.maxiter
    decreases cfg.maxiter - |s.objs|
  {
    if |s.objs| >= cfg.maxiter then s
    else match VpStep(num, cfg, s)
      case Err(_) => s
      case Ok(s') => if Converged(cfg, s') || Stalled(cfg, s') then s' else VpFinal(num, cfg, s')
  }

  /** The state in which the last iteration the loop ran started (s itself when none ran). */
  function VpLast(num: Numerics, cfg: VpConfig, s: VpState): (r: VpState)
    requires Sound(num) && Shaped(num, s) && |s.objs| <= cfg.maxiter
    ensures Shaped(num, r) && |s.objs| <= |r.objs| <= cfg.maxiter
    decreases cfg.maxiter - |s.objs|
  {
    if |s.objs| >= cfg.maxiter then s
    else match VpStep(num, cfg, s)
      case Err(_) => s
      case Ok(s') =>
        if Converged(cfg, s') || Stalled(cfg, s') || |s'.objs| >= cfg.maxiter then s else VpLast(num, cfg, s')
  }

  /** Iteration k of the histories passed the stall test: k > 0 and obj[k−1] − obj[k] < eps_stall·obj[k−1]. */
  predicate StalledAt(epsStall: real, objs: seq<real>, k: nat)
    requires k < |objs|
  {
    k > 0 && StallTest(epsStall, objs[k - 1], objs[k])
  }

  /** VpFinal and VpLast after one successful iteration. */
  lemma FinalAfterStep(num: Numerics, cfg: VpConfig, before: VpState, after: VpState)
    requires Sound(num) && Shaped(num, before) && |before.objs| < cfg.maxiter
    requires VpStep(num, cfg, before) == Ok(after)
    ensures Converged(cfg, after) || Stalled(cfg, after) ==> VpFinal(num, cfg, before) == after
    ensures !Converged(cfg, after) && !Stalled(cfg, after) ==> VpFinal(num, cfg, before) == VpFinal(num, cfg, after)
    ensures Converged(cfg, after) || Stalled(cfg, after) || |after.objs| >= cfg.maxiter ==>
      VpLast(num, cfg, before) == before
    ensures !Converged(cfg, after) && !Stalled(cfg, after) && |after.objs| < cfg.maxiter ==>
      VpLast(num, cfg, before) == VpLast(num, cfg, after)
  {
  }

  /** VpFinal and VpLast when the iteration started in before fails. */
  lemma FinalAfterFailure(num: Numerics, cfg: VpConfig, before: VpState)
    requires Sound(num) && Shaped(num, before) && |before.objs| < cfg.maxiter
    requires VpStep(num, cfg, before).Err?
    ensures VpFinal(num, cfg, before) == before && VpLast(num, cfg, before) == before
    ensures VpRun(num, cfg, before) == VpEnd(Err(VpStep(num, cfg, before).error), UnmaskedAfter(num, cfg, before))
  {
  }

  /** One iteration appends one objective and one error to the histories. */
  lemma StepAppends(num: Numerics, cfg: VpConfig, before: VpState, after: VpState)
    requires Sound(num) && Shaped(num, before)
    requires VpStep(num, cfg, before) == Ok(after)
    ensures after.objs == before.objs + [after.objs[|before.objs|]]
    ensures after.errs == before.errs + [after.errs[|before.errs|]]
  {
  }

  /** Histories that extend one-longer histories extend their prefixes too. */
  lemma PrefixOfPrefix<T>(f: seq<T>, s: seq<T>, x: T)
    requires |s| + 1 <= |f| && f[..|s| + 1] == s + [x]
    ensures f[..|s|] == s && f[|s|] == x
  {
    assert f[..|s|] == f[..|s| + 1][..|s|];
    assert (s + [x])[..|s|] == s;
  }

  /** The histories of the final state extend those of s, to at most maxiter entries. */
  lemma {:induction false} VpFinalExtends(num: Numerics, cfg: VpConfig, s: VpState)
    requires Sound(num) && Shaped(num, s) && |s.objs| <= cfg.maxiter
    ensures var f := VpFinal(num, cfg, s);
      Shaped(num, f) && |s.objs| <= |f.objs| <= cfg.maxiter &&
      f.objs[..|s.objs|] == s.objs && f.errs[..|s.errs|] == s.errs
    decreases cfg.maxiter - |s.objs|
  {
    var k0 := |s.objs|;
    if k0 >= cfg.maxiter {
      assert s.objs[..k0] == s.objs && s.errs[..k0] == s.errs;
    } else if VpStep(num, cfg, s).Err? {
      FinalAfterFailure(num, cfg, s);
      assert s.objs[..k0] == s.objs && s.errs[..k0] == s.errs;
    } else {
      var s' := VpStep(num, cfg, s).value;
      FinalAfterStep(num, cfg, s, s');
      StepAppends(num, cfg, s, s');
      if !Converged(cfg, s') && !Stalled(cfg, s') {
        VpFinalExtends(num, cfg, s');
        var f := VpFinal(num, cfg, s');
        PrefixOfPrefix(f.objs, s.objs, s'.objs[k0]);
        PrefixOfPrefix(f.errs, s.errs, s'.errs[k0]);
      } else {
        PrefixOfPrefix(s'.objs, s.objs, s'.objs[k0]);
        PrefixOfPrefix(s'.errs, s.errs, s'.errs[k0]);
      }
    }
  }

  /** The stall test at k reads only the first k + 1 objectives. */
  lemma StalledAtPrefix(epsStall: real, f: seq<real>, p: seq<real>, k: nat)
    requires k < |p| <= |f| && f[..|p|] == p
    ensures StalledAt(epsStall, f, k) == StalledAt(epsStall, p, k)
  {
    assert f[k] == p[k];
    assert k > 0 ==> f[k - 1] == p[k - 1];
  }

  /** The earlier-iterations property of histories f, grown by one iteration k0 that neither converged nor stalled. */
  lemma EarlierGrows(cfg: VpConfig, fObjs: seq<real>, fErrs: seq<real>, objs: seq<real>, errs: seq<real>)
    requires |objs| == |errs| > 0 && |fObjs| == |fErrs| >= |objs|
    requires fObjs[..|objs|] == objs && fErrs[..|errs|] == errs
    requires !(errs[|errs| - 1] < cfg.tol) && !StalledAt(cfg.epsStall, objs, |objs| - 1)
    requires forall k :: |objs| <= k < |fObjs| - 1 ==> fErrs[k] >= cfg.tol && !StalledAt(cfg.epsStall, fObjs, k)
    ensures forall k :: |objs| - 1 <= k < |fObjs| - 1 ==> fErrs[k] >= cfg.tol && !StalledAt(cfg.epsStall, fObjs, k)
  {
    var k0 := |objs| - 1;
    assert fErrs[k0] == errs[k0];
    StalledAtPrefix(cfg.epsStall, fObjs, objs, k0);
  }

  /** Every iteration the loop ran before its last had err >= tol and did not stall. */
  lemma {:induction false} VpFinalEarlier(num: Numerics, cfg: VpConfig, s: VpState)
    requires Sound(num) && Shaped(num, s) && |s.objs| <= cfg.maxiter
    ensures var f := VpFinal(num, cfg, s);
      forall k :: |s.objs| <= k < |f.objs| - 1 ==> f.errs[k] >= cfg.tol && !StalledAt(cfg.epsStall, f.objs, k)
    decreases cfg.maxiter - |s.objs|
  {
    if |s.objs| < cfg.maxiter && VpStep(num, cfg, s).Ok? {
      var s' := VpStep(num, cfg, s).value;
      FinalAfterStep(num, cfg, s, s');
      if !Converged(cfg, s') && !Stalled(cfg, s') {
        VpFinalEarlier(num, cfg, s');
        VpFinalExtends(num, cfg, s');
        var f := VpFinal(num, cfg, s');
        EarlierGrows(cfg, f.objs, f.errs, s'.objs, s'.errs);
      }
    } else if |s.objs| < cfg.maxiter {
      FinalAfterFailure(num, cfg, s);
    }
  }

  /**
   * The results of the loop are those of its final state f: B, alpha and
   * _unmasked_features are f's; converged is true exactly when an
   * iteration ran and its err_alpha + err_B is below tol; a run that ends
   * unconverged before maxiter iterations ended on a stall; a failure is
   * the failure of the iteration started in f, with f's features masked.
   */
  lemma {:induction false} VpRunResult(num: Numerics, cfg: VpConfig, s: VpState)
    requires Sound(num) && Shaped(num, s) && |s.objs| <= cfg.maxiter
    ensures var e, f := VpRun(num, cfg, s), VpFinal(num, cfg, s);
      Shaped(num, f) && |f.objs| <= cfg.maxiter &&
      (e.result.Ok? ==>
        e.result.value.B == f.B && e.result.value.alpha == f.alpha && e.unmasked == f.unmasked &&
        (e.result.value.converged <==> |f.objs| > |s.objs| && Converged(cfg, f)) &&
        (!e.result.value.converged && |f.objs| < cfg.maxiter ==> |f.objs| > |s.objs| && Stalled(cfg, f))) &&
      (e.result.Err? ==>
        |f.objs| < cfg.maxiter && VpStep(num, cfg, f).Err? &&
        e.result.error == VpStep(num, cfg, f).error && e.unmasked == UnmaskedAfter(num, cfg, f))
    decreases cfg.maxiter - |s.objs|
  {
    if |s.objs| < cfg.maxiter {
      if VpStep(num, cfg, s).Err? {
        FinalAfterFailure(num, cfg, s);
      } else {
        var s' := VpStep(num, cfg, s).value;
        FinalAfterStep(num, cfg, s, s');
        RunAfterStep(num, cfg, s, s');
        if !Converged(cfg, s') && !Stalled(cfg, s') {
          VpRunResult(num, cfg, s');
          VpFinalExtends(num, cfg, s');
        }
      }
    }
  }

  /** The termination rule: VpFinalExtends, VpFinalEarlier and VpRunResult together. */
  lemma VpRunTermination(num: Numerics, cfg: VpConfig, s: VpState)
    requires Sound(num) && Shaped(num, s) && |s.objs| <= cfg.maxiter
    ensures var e, f := VpRun(num, cfg, s), VpFinal(num, cfg, s);
      Shaped(num, f) && |s.objs| <= |f.objs| <= cfg.maxiter &&
      f.objs[..|s.objs|] == s.objs && f.errs[..|s.errs|] == s.errs &&
      (e.result.Ok? ==>
        e.result.value.B == f.B && e.result.value.alpha == f.alpha && e.unmasked == f.unmasked &&
        (e.result.value.converged <==> |f.objs| > |s.objs| && Converged(cfg, f)) &&
        (!e.result.value.converged && |f.objs| < cfg.maxiter ==> |f.objs| > |s.objs| && Stalled(cfg, f))) &&
      (e.result.Err? ==>
        |f.objs| < cfg.maxiter && VpStep(num, cfg, f).Err? &&
        e.result.error == VpStep(num, cfg, f).error && e.unmasked == UnmaskedAfter(num, cfg, f)) &&
      (forall k :: |s.objs| <= k < |f.objs| - 1 ==> f.errs[k] >= cfg.tol && !StalledAt(cfg.epsStall, f.objs, k))
  {
    VpFinalExtends(num, cfg, s);
    VpFinalEarlier(num, cfg, s);
    VpRunResult(num, cfg, s);
  }

  /** With masking, an iteration records the valid features of the B it started from. */
  lemma StepMasks(num: Numerics, cfg: VpConfig, before: VpState, after: VpState)
    requires Sound(num) && Shaped(num, before)
    requires VpStep(num, cfg, before) == Ok(after)
    ensures cfg.useMask ==> after.unmasked == Some(ValidFeatures(before.B, num.features, true))
  {
  }

  /** When the loop ran any iteration, f is what one iteration made of VpLast. */
  lemma {:induction false} VpLastStep(num: Numerics, cfg: VpConfig, s: VpState)
    requires Sound(num) && Shaped(num, s) && |s.objs| <= cfg.maxiter
    ensures var f, p := VpFinal(num, cfg, s), VpLast(num, cfg, s);
      |f.objs| > |s.objs| ==> |p.objs| < cfg.maxiter && VpStep(num, cfg, p) == Ok(f)
    decreases cfg.maxiter - |s.objs|
  {
    if |s.objs| < cfg.maxiter {
      if VpStep(num, cfg, s).Err? {
        FinalAfterFailure(num, cfg, s);
      } else {
        var s' := VpStep(num, cfg, s).value;
        FinalAfterStep(num, cfg, s, s');
        if !Converged(cfg, s') && !Stalled(cfg, s') {
          if |s'.objs| < cfg.maxiter {
            VpLastStep(num, cfg, s');
            VpFinalExtends(num, cfg, s');
          } else {
            assert VpFinal(num, cfg, s') == s';
          }
        }
      }
    }
  }

  /**
   * The last iteration: when the loop ran any, f is what one iteration made
   * of VpLast; with masking, the final _unmasked_features are the valid
   * features of the B that iteration started from.
   */
  lemma VpRunLastIteration(num: Numerics, cfg: VpConfig, s: VpState)
    requires Sound(num) && Shaped(num, s) && |s.objs| <= cfg.maxiter
    ensures var f, p := VpFinal(num, cfg, s), VpLast(num, cfg, s);
      |f.objs| > |s.objs| ==>
        |p.objs| < cfg.maxiter && VpStep(num, cfg, p) == Ok(f) &&
        (cfg.useMask ==> f.unmasked == Some(ValidFeatures(p.B, num.features, true)))
  {
    var f, p := VpFinal(num, cfg, s), VpLast(num, cfg, s);
    VpLastStep(num, cfg, s);
    if |f.objs| > |s.objs| {
      StepMasks(num, cfg, p, f);
    }
  }

  /**
   * The termination rule of _variable_projection from its start: with
   * maxiter >= 0 at most maxiter iterations run, converged means the last
   * one ran below tol, and an unconverged result before maxiter iterations
   * ended on a stall.
   */
  lemma VariableProjectionEnds(num: Numerics, cfg: VpConfig, initAlpha: Vector, initB: Option<Matrix>,
                               unmasked: Option<seq<nat>>)
    requires Sound(num) && cfg.maxiter >= 0
    requires initB.Some? ==> IsMatrix(initB.value, |initB.value|, num.features)
    ensures var s := InitialState(num, initAlpha, initB, unmasked);
      var e, f := VariableProjectionOf(num, cfg, initAlpha, initB, unmasked), VpFinal(num, cfg, s);
      |f.objs| == |f.errs| <= cfg.maxiter &&
      (e.result.Ok? ==>
        e.result.value == Fit(f.B, f.alpha, e.result.value.converged) &&
        (e.result.value.converged <==> |f.objs| > 0 && Converged(cfg, f)) &&
        (!e.result.value.converged && |f.objs| < cfg.maxiter ==> |f.objs| > 0 && Stalled(cfg, f))) &&
      (forall k :: 0 <= k < |f.objs| - 1 ==> f.errs[k] >= cfg.tol && !StalledAt(cfg.epsStall, f.objs, k))
  {
    var s := InitialState(num, initAlpha, initB, unmasked);
    VpRunTermination(num, cfg, s);
  }

  /**
   * The stall test reads the signed difference: when the previous objective
   * is >= 0 and eps_stall >= 0, an objective that rose counts as stalled.
   */
  lemma IncreaseStalls(cfg: VpConfig, s: VpState)
    requires |s.objs| >= 2 && cfg.epsStall >= 0.0
    requires var k := |s.objs| - 1; s.objs[k - 1] >= 0.0 && s.objs[k] > s.objs[k - 1]
    ensures Stalled(cfg, s)
  {
    var k := |s.objs| - 1;
    MulNonnegative(cfg.epsStall, s.objs[k - 1]);
  }

  /** With maxiter = 0 the initial B and alpha come back unconverged. */
  lemma NoIterations(num: Numerics, cfg: VpConfig, initAlpha: Vector, initB: Option<Matrix>, unmasked: Option<seq<nat>>)
    requires Sound(num) && cfg.maxiter == 0
    requires initB.Some? ==> IsMatrix(initB.value, |initB.value|, num.features)
    ensures var s := InitialState(num, initAlpha, initB, unmasked);
      VariableProjectionOf(num, cfg, initAlpha, initB, unmasked) == VpEnd(Ok(Fit(s.B, s.alpha, false)), unmasked)
  {
  }

  // ---------------------------------------------------------------------
  // The operator
  // ---------------------------------------------------------------------

  /** B_new[:, S] = C on a copy of B, one sampled column at a time. */
  method AssignColumns(B: Matrix, n: nat, S: seq<nat>, C: Matrix) returns (R: Matrix)
    requires IsMatrix(B, |B|, n) && ColumnsIn(S, n) && IsMatrix(C, |B|, |S|)
    ensures R == WriteColumns(B, n, S, C, |S|)
  {
    R := B;
    var k := 0;
    while k < |S|
      invariant 0 <= k <= |S|
      invariant R == WriteColumns(B, n, S, C, k)
    {
      ghost var R0 := R;
      var i := 0;
      while i < |R|
        invariant 0 <= i <= |R| == |B|
        invariant forall l :: 0 <= l < |R| ==> R[l] == if l < i then R0[l][S[k] := C[l][k]] else R0[l]
      {
        R := R[i := R[i][S[k] := C[i][k]]];
        i := i + 1;
      }
      assert R == SetColumn(R0, n, S[k], C, k);
      k := k + 1;
    }
  }

  /** The valid features, the sample size and, when that is >= 0, the draw of iteration itr. */
  method Sample(num: Numerics, cfg: VpConfig, B: Matrix, itr: nat) returns (valid: seq<nat>, size: int, S: seq<nat>)
    requires Sound(num) && IsMatrix(B, |B|, num.features)
    ensures valid == ValidFeatures(B, num.features, cfg.useMask)
    ensures size == SampleSize(|valid|, num.features, cfg.samplingRatio)
    ensures size >= 0 ==> S == num.choose(valid, size, itr) && ColumnsIn(S, num.features)
  {
    var n := num.features;
    if cfg.useMask {
      valid := SbopdmdUtils.GetNonzeroCols(B, SbopdmdUtils.NonzeroTol);
    } else {
      valid := Range(n);
    }
    size := SampleSize(|valid|, n, cfg.samplingRatio);
    S := [];
    if size >= 0 {
      S := num.choose(valid, size, itr);
      assert SampleOf(S, valid, size);
    }
  }

  /**
   * The body of the for loop up to the stores into all_obj and all_err:
   * the valid features (what _unmasked_features is set to with masking)
   * and the update, computed by the imperative get_nonzero_cols,
   * accelerated_prox_grad and damping search.
   */
  method Iteration(num: Numerics, cfg: VpConfig, B: Matrix, alpha: Vector, itr: nat)
    returns (valid: seq<nat>, r: Result<Update, VpError>)
    requires Sound(num) && IsMatrix(B, |B|, num.features)
    ensures valid == ValidFeatures(B, num.features, cfg.useMask)
    ensures r == UpdateOf(num, cfg, B, alpha, itr)
  {
    var n := num.features;
    var size, S;
    valid, size, S := Sample(num, cfg, B, itr);
    if size < 0 {
      return valid, Err(NegativeSampleSize);
    }
    var Bs := Restrict(B, n, S);
    var pg := cfg.proxGrad;
    var p := num.pgProblem(alpha, S);
    var computed := AcceleratedProxGrad.ProxGrad(p, Bs, pg.tol, pg.maxIter, pg.useRestarts);
    if computed.Err? {
      return valid, Err(ProxGradFailed(computed.error));
    }
    assert ComputeB(num, pg, Bs, alpha, S) == Ok(computed.value.X);
    var Bn := AssignColumns(B, n, S, computed.value.X);
    var an := LevenbergMarquardt.LevMarq(num.lmData(num.lmInput(Bn), alpha), alpha, cfg.initLambda, cfg.lamup, cfg.maxlam);
    var errAlpha := num.alphaDistance(alpha, an);
    var errB := num.bDistance(B, Bn);
    r := Ok(Update(Bn, an, num.objective(Bn, an), errAlpha + errB));
  }

  /**
   * Store the objective and error of iteration itr and evaluate the two
   * termination flags.
   */
  method Record(cfg: VpConfig, allObj: array<real>, allErr: array<real>, itr: nat, obj: real, err: real)
    returns (converged: bool, stalled: bool)
    requires allObj != allErr && itr < allObj.Length && itr < allErr.Length
    modifies allObj, allErr
    ensures allObj[itr] == obj && allErr[itr] == err
    ensures itr > 0 ==> allObj[itr - 1] == old(allObj[itr - 1])
    ensures converged == (err < cfg.tol)
    ensures stalled == (itr > 0 && StallTest(cfg.epsStall, old(allObj[itr - 1]), obj))
  {
    allObj[itr] := obj;
    allErr[itr] := err;
    converged := allErr[itr] < cfg.tol;
    stalled := itr > 0 && StallTest(cfg.epsStall, allObj[itr - 1], allObj[itr]);
  }

  /**
   * SparseBOPDMDOperator: the settings of variable projection, the optional
   * initial B and the indices of the active features.
   */
  class SparseBOPDMDOperator {
    const config: VpConfig
    const initB: Option<Matrix>
    var unmaskedFeatures: Option<seq<nat>>

    /** The active features are unknown (None) until variable projection runs with masking. */
    constructor(config: VpConfig, initB: Option<Matrix>)
      ensures this.config == config && this.initB == initB && unmaskedFeatures == None
    {
      this.config := config;
      this.initB := initB;
      unmaskedFeatures := None;
    }

    /**
     * One pass of the for loop body of _variable_projection: run iteration
     * itr, record its objective and error and test convergence and
     * stalling. It returns the result when the loop stops here, and
     * otherwise the new B, alpha and histories, from which the loop goes on
     * to the same end.
     */
    method Advance(num: Numerics, B: Matrix, alpha: Vector, allObj: array<real>, allErr: array<real>, itr: nat,
                   ghost objs: seq<real>, ghost errs: seq<real>)
      returns (stop: Option<Result<Fit, VpError>>, Bn: Matrix, an: Vector, ghost objsN: seq<real>, ghost errsN: seq<real>)
      requires Sound(num) && IsMatrix(B, |B|, num.features)
      requires allObj != allErr && allObj.Length == allErr.Length == config.maxiter
      requires itr < config.maxiter && |objs| == |errs| == itr
      requires itr > 0 ==> allObj[itr - 1] == objs[itr - 1]
      modifies this, allObj, allErr
      ensures var before := VpState(B, alpha, objs, errs, old(unmaskedFeatures));
        stop.Some? ==> VpRun(num, config, before) == VpEnd(stop.value, unmaskedFeatures)
      ensures stop.None? ==>
        |objsN| == |errsN| == itr + 1 && allObj[itr] == objsN[itr] && IsMatrix(Bn, |Bn|, num.features) &&
        VpRun(num, config, VpState(Bn, an, objsN, errsN, unmaskedFeatures)) ==
          VpRun(num, config, VpState(B, alpha, objs, errs, old(unmaskedFeatures)))
    {
      ghost var before := VpState(B, alpha, objs, errs, unmaskedFeatures);
      var valid, u := Iteration(num, config, B, alpha, itr);
      if config.useMask {
        unmaskedFeatures := Some(valid);
      }
      assert unmaskedFeatures == UnmaskedAfter(num, config, before);
      if u.Err? {
        RunAfterFailure(num, config, before);
        return Some(Err(u.error)), B, alpha, objs, errs;
      }
      var converged, stalled := Record(config, allObj, allErr, itr, u.value.obj, u.value.err);
      objsN, errsN := objs + [u.value.obj], errs + [u.value.err];
      Bn, an := u.value.B, u.value.alpha;
      StepOutcome(num, config, before, u.value);
      if converged {
        return Some(Ok(Fit(Bn, an, true))), Bn, an, objsN, errsN;
      }
      if stalled {
        return Some(Ok(Fit(Bn, an, false))), Bn, an, objsN, errsN;
      }
      stop := None;
    }

    /**
     * _variable_projection: push the initial eigenvalues, start from the
     * least-squares B or a copy of init_B, and run at most maxiter
     * iterations, returning as soon as one converges or stalls.
     */
    method VariableProjection(num: Numerics, initAlpha: Vector) returns (r: Result<Fit, VpError>)
      requires Sound(num)
      requires initB.Some? ==> IsMatrix(initB.value, |initB.value|, num.features)
      modifies this
      ensures var e := VariableProjectionOf(num, config, initAlpha, initB, old(unmaskedFeatures));
        r == e.result && unmaskedFeatures == e.unmasked
    {
      if config.maxiter < 0 {
        return Err(NegativeIterations);
      }
      var alpha := num.pushEigenvalues(initAlpha);
      var B := if initB.None? then num.initialB(alpha) else initB.value;
      var allObj := new real[config.maxiter];
      var allErr := new real[config.maxiter];
      ghost var objs: seq<real>, errs: seq<real> := [], [];
      ghost var goal := VariableProjectionOf(num, config, initAlpha, initB, old(unmaskedFeatures));
      assert VpRun(num, config, VpState(B, alpha, objs, errs, unmaskedFeatures)) == goal;
      var itr := 0;
      while itr < config.maxiter
        invariant 0 <= itr <= config.maxiter == allObj.Length == allErr.Length
        invariant |objs| == |errs| == itr
        invariant itr > 0 ==> allObj[itr - 1] == objs[itr - 1]
        invariant IsMatrix(B, |B|, num.features)
        invariant VpRun(num, config, VpState(B, alpha, objs, errs, unmaskedFeatures)) == goal
        decreases config.maxiter - itr
      {
        var stop;
        stop, B, alpha, objs, errs := Advance(num, B, alpha, allObj, allErr, itr, objs, errs);
        if stop.Some? {
          return stop.value;
        }
        itr := itr + 1;
      }
      return Ok(Fit(B, alpha, false));
    }
  }
}
