/**
 * The SparseBOPDMD facade (pydmd/sbopdmd.py): validation of the regularizer
 * at construction, filling of the regularizer parameters, the preset
 * dispatch of mode_regularizer and mode_prox, the mask of inactive
 * features and the input checks of fit. The square-root quantities the
 * presets need (entry moduli, column norms) come in as given values.
 */
module SparseBopdmd {
  import opened Matrices
  import SbopdmdUtils
  import SparseOperator

  /** The presets a string regularizer may name. */
  const SupportedRegularizers: seq<string> := ["l0", "l1", "l2", "l02", "l12"]

  /**
   * mode_regularizer as given: a string, a Python function, or anything
   * else (None or an object that is neither a string nor a function).
   */
  datatype Regularizer = Preset(name: string) | Custom(f: Matrix -> real) | NonFunction

  /** mode_prox as given: a Python function, None, or some other object. */
  datatype ProxArg = ProxFunction(prox: (Matrix, real) -> Matrix) | NoProx | ProxObject

  /** The two ValueErrors the constructor raises. */
  datatype ConfigError = InvalidPreset | MissingProx

  /** The constructor's checks, in the order the source makes them. */
  function ConfigCheck(reg: Regularizer, prox: ProxArg): Option<ConfigError> {
    if reg.Preset? && reg.name !in SupportedRegularizers then Some(InvalidPreset)
    else if reg.Custom? && prox.NoProx? then Some(MissingProx)
    else None
  }

  /**
   * Construction fails exactly for a string outside {l0, l1, l2, l02, l12}
   * and for a function regularizer without mode_prox; the preset check
   * comes first.
   */
  lemma ConfigCheckSpec(reg: Regularizer, prox: ProxArg)
    ensures ConfigCheck(reg, prox) == Some(InvalidPreset) <==>
      reg.Preset? && reg.name !in ["l0", "l1", "l2", "l02", "l12"]
    ensures ConfigCheck(reg, prox) == Some(MissingProx) <==> reg.Custom? && prox == NoProx
    ensures ConfigCheck(reg, prox).None? <==>
      (reg.Preset? ==> reg.name in ["l0", "l1", "l2", "l02", "l12"]) && (reg.Custom? ==> !prox.NoProx?)
  {
  }

  // ---------------------------------------------------------------------
  // Regularizer parameters
  // ---------------------------------------------------------------------

  const DefaultLambda: real := 1.0
  const DefaultLambda2: real := 0.000001

  /** The keys the presets read. */
  predicate ParamsFilled(p: map<string, real>) {
    "lambda" in p && "lambda_2" in p
  }

  /** regularizer_params as given, with None read as the empty dictionary. */
  function GivenParams(params: Option<map<string, real>>): map<string, real> {
    if params.None? then map[] else params.value
  }

  /** The dictionary after the constructor has added the missing defaults. */
  function FilledParams(params: Option<map<string, real>>): map<string, real> {
    var d := GivenParams(params);
    var d1 := if "lambda" in d then d else d["lambda" := DefaultLambda];
    if "lambda_2" in d1 then d1 else d1["lambda_2" := DefaultLambda2]
  }

  /** The dictionary has keys other than lambda and lambda_2 (warnings.warn). */
  predicate ExtraParams(p: map<string, real>) {
    exists k :: k in p && k != "lambda" && k != "lambda_2"
  }

  /**
   * After construction both keys are present; the caller's values are
   * kept; a missing lambda is 1.0 and a missing lambda_2 is 1e-6; nothing
   * else is added; and the warning is issued exactly when the caller
   * passed a key other than the two.
   */
  lemma FilledParamsSpec(params: Option<map<string, real>>)
    ensures var p, d := FilledParams(params), GivenParams(params);
      ParamsFilled(p) &&
      p.Keys == d.Keys + {"lambda", "lambda_2"} &&
      (forall k :: k in d ==> p[k] == d[k]) &&
      ("lambda" !in d ==> p["lambda"] == 1.0) &&
      ("lambda_2" !in d ==> p["lambda_2"] == 0.000001) &&
      (ExtraParams(p) <==> ExtraParams(d))
  {
    var p, d := FilledParams(params), GivenParams(params);
    if ExtraParams(p) {
      var k :| k in p && k != "lambda" && k != "lambda_2";
      assert k in d;
    }
  }

  // ---------------------------------------------------------------------
  // mode_regularizer and mode_prox
  // ---------------------------------------------------------------------

  /**
   * mode_regularizer(X): a function regularizer is applied to X; a preset
   * is λ·L0, λ·L1, λ·L2, λ·L0 + λ2·L2² or λ·L1 + λ2·L2²; anything else
   * falls through to None.
   */
  function ModeRegularizer(reg: Regularizer, params: map<string, real>, X: Matrix, m: Moduli): Option<real>
    requires ParamsFilled(params) && ModuliOf(m, X)
  {
    match reg
    case Custom(f) => Some(f(X))
    case NonFunction => None
    case Preset(name) =>
      var lam, lam2 := params["lambda"], params["lambda_2"];
      if name == "l0" then Some(Mul(lam, SbopdmdUtils.L0Norm(X) as real))
      else if name == "l1" then Some(Mul(lam, SbopdmdUtils.L1Norm(X, m.entries)))
      else if name == "l2" then Some(Mul(lam, SbopdmdUtils.L2Norm(X, m.columns)))
      else if name == "l02" then
        Some(Mul(lam, SbopdmdUtils.L0Norm(X) as real) + Mul(lam2, SbopdmdUtils.L2NormSquared(X)))
      else if name == "l12" then
        Some(Mul(lam, SbopdmdUtils.L1Norm(X, m.entries)) + Mul(lam2, SbopdmdUtils.L2NormSquared(X)))
      else None
  }

  /**
   * The five presets: mode_regularizer is λ·L0, λ·L1, λ·L2, λ·L0 + λ2·L2²
   * and λ·L1 + λ2·L2², with λ and λ2 read from the parameters.
   */
  lemma ModeRegularizerPresets(params: map<string, real>, X: Matrix, m: Moduli)
    requires ParamsFilled(params) && ModuliOf(m, X)
    ensures var lam, lam2 := params["lambda"], params["lambda_2"];
      var l0, l1 := SbopdmdUtils.L0Norm(X) as real, SbopdmdUtils.L1Norm(X, m.entries);
      var sq := SbopdmdUtils.L2NormSquared(X);
      ModeRegularizer(Preset("l0"), params, X, m) == Some(Mul(lam, l0)) &&
      ModeRegularizer(Preset("l1"), params, X, m) == Some(Mul(lam, l1)) &&
      ModeRegularizer(Preset("l2"), params, X, m) == Some(Mul(lam, SbopdmdUtils.L2Norm(X, m.columns))) &&
      ModeRegularizer(Preset("l02"), params, X, m) == Some(Mul(lam, l0) + Mul(lam2, sq)) &&
      ModeRegularizer(Preset("l12"), params, X, m) == Some(Mul(lam, l1) + Mul(lam2, sq))
  {
    assert "l1" != "l0" && "l2" != "l0" && "l2" != "l1";
    assert "l02" != "l0" && "l02" != "l1" && "l02" != "l2";
    assert "l12" != "l0" && "l12" != "l1" && "l12" != "l2" && "l12" != "l02";
  }

  /**
   * What the presets measure: "l0" is λ times the number of nonzero
   * entries of X, the combined presets "l02" and "l12" add λ2·L2² to "l0"
   * and "l1", and a name that is none of the five gives None.
   */
  lemma ModeRegularizerCounts(name: string, params: map<string, real>, X: Matrix, m: Moduli)
    requires ParamsFilled(params) && ModuliOf(m, X)
    ensures var lam, lam2 := params["lambda"], params["lambda_2"];
      var sq := SbopdmdUtils.L2NormSquared(X);
      var l0, l1 := ModeRegularizer(Preset("l0"), params, X, m), ModeRegularizer(Preset("l1"), params, X, m);
      var l02, l12 := ModeRegularizer(Preset("l02"), params, X, m), ModeRegularizer(Preset("l12"), params, X, m);
      l0 == Some(Mul(lam, |SbopdmdUtils.NonzeroEntries(X)| as real)) &&
      l1.Some? && l02.Some? && l12.Some? &&
      l02.value == l0.value + Mul(lam2, sq) &&
      l12.value == l1.value + Mul(lam2, sq) &&
      (name != "l0" && name != "l1" && name != "l2" && name != "l02" && name != "l12" ==>
        ModeRegularizer(Preset(name), params, X, m).None?)
  {
    ModeRegularizerPresets(params, X, m);
    SbopdmdUtils.L0NormCounts(X);
  }

  /** λ·a vanishes, for λ > 0 and a >= 0, exactly when a does. */
  lemma WeightedNonnegative(lam: real, a: real)
    requires lam >= 0.0 && a >= 0.0
    ensures Mul(lam, a) >= 0.0
    ensures lam > 0.0 ==> (Mul(lam, a) == 0.0 <==> a == 0.0)
  {
    MulNonnegative(lam, a);
    if lam > 0.0 && a > 0.0 {
      MulPositive(lam, a);
    }
  }

  /**
   * With λ > 0 and λ2 >= 0 every preset regularizer of a validated
   * configuration has a value, that value is >= 0, and it is 0 exactly on
   * the zero matrix.
   */
  lemma ModeRegularizerNonnegative(reg: Regularizer, params: map<string, real>, X: Matrix, m: Moduli)
    requires ParamsFilled(params) && ModuliOf(m, X)
    requires reg.Preset? && ConfigCheck(reg, NoProx).None?
    requires params["lambda"] > 0.0 && params["lambda_2"] >= 0.0
    ensures var r := ModeRegularizer(reg, params, X, m);
      r.Some? && r.value >= 0.0 && (r.value == 0.0 <==> IsZeroMatrix(X))
  {
    var lam, lam2 := params["lambda"], params["lambda_2"];
    var l0 := SbopdmdUtils.L0Norm(X) as real;
    var l1 := SbopdmdUtils.L1Norm(X, m.entries);
    var l2 := SbopdmdUtils.L2Norm(X, m.columns);
    var sq := SbopdmdUtils.L2NormSquared(X);
    SbopdmdUtils.L0NormZero(X);
    WeightedNonnegative(lam, l0);
    WeightedNonnegative(lam, l1);
    WeightedNonnegative(lam, l2);
    WeightedNonnegative(lam2, sq);
  }

  /** The failures of the presets that mode_prox does not leave to NumPy. */
  datatype ProxError =
    | ScaleDivisionByZero   // 1 / (1 + 2·t·λ2) with a zero denominator
    | GroupStepNotPositive  // group_lasso with λ·t <= 0, outside the model

  /**
   * mode_prox(X, t): a function mode_prox is applied to (X, t); otherwise
   * l0, l1 and l2 call hard_threshold, soft_threshold and group_lasso with
   * step λ·t, l02 and l12 call the scaled variants with (t, λ, λ2), and
   * anything else falls through to None.
   */
  function ModeProx(reg: Regularizer, prox: ProxArg, params: map<string, real>, X: Matrix, t: real, m: Moduli)
    : Result<Option<Matrix>, ProxError>
    requires ParamsFilled(params) && ModuliOf(m, X)
  {
    if prox.ProxFunction? then Ok(Some(prox.prox(X, t)))
    else if !reg.Preset? then Ok(None)
    else
      var lam, lam2 := params["lambda"], params["lambda_2"];
      var name := reg.name;
      if name == "l0" then Ok(Some(SbopdmdUtils.HardThresholded(X, Mul(lam, t))))
      else if name == "l1" then Ok(Some(SbopdmdUtils.SoftThresholded(X, m.entries, Mul(lam, t))))
      else if name == "l2" then
        if Mul(lam, t) > 0.0 then Ok(Some(SbopdmdUtils.GroupLassoOf(X, m.columns, Mul(lam, t))))
        else Err(GroupStepNotPositive)
      else if name == "l02" then
        match SbopdmdUtils.ScaledHardThresholded(X, t, lam, lam2)
        case None => Err(ScaleDivisionByZero)
        case Some(Y) => Ok(Some(Y))
      else if name == "l12" then
        match SbopdmdUtils.ScaledSoftThresholded(X, m.entries, t, lam, lam2)
        case None => Err(ScaleDivisionByZero)
        case Some(Y) => Ok(Some(Y))
      else Ok(None)
  }

  /** Y has X's shape and is 0 wherever X is. */
  predicate KeepsZeros(X: Matrix, Y: Matrix) {
    SameShape(Y, X) && forall i, j :: 0 <= i < |X| && 0 <= j < |X[i]| && X[i][j] == Zero ==> Y[i][j] == Zero
  }

  lemma HardKeepsZeros(X: Matrix, gamma: real)
    ensures KeepsZeros(X, SbopdmdUtils.HardThresholded(X, gamma))
  {
  }

  lemma SoftKeepsZeros(X: Matrix, A: seq<seq<real>>, gamma: real)
    requires EntryModuli(A, X)
    ensures KeepsZeros(X, SbopdmdUtils.SoftThresholded(X, A, gamma))
  {
    forall i, j | 0 <= i < |X| && 0 <= j < |X[i]| && X[i][j] == Zero
      ensures SbopdmdUtils.SoftThresholded(X, A, gamma)[i][j] == Zero
    {
      ModulusVanishes(A[i][j], X[i][j]);
      SbopdmdUtils.SoftEntryOfZero(gamma);
    }
  }

  lemma GroupKeepsZeros(X: Matrix, norms: seq<real>, gamma: real)
    requires ColumnNorms(norms, X) && gamma > 0.0
    ensures KeepsZeros(X, SbopdmdUtils.GroupLassoOf(X, norms, gamma))
  {
    forall i, j | 0 <= i < |X| && 0 <= j < |X[i]| && X[i][j] == Zero
      ensures SbopdmdUtils.GroupLassoOf(X, norms, gamma)[i][j] == Zero
    {
      ScaleZero(SbopdmdUtils.GroupFactor(norms[j], gamma));
    }
  }

  lemma ScaleKeepsZeros(X: Matrix, Y: Matrix, c: real)
    requires KeepsZeros(X, Y)
    ensures KeepsZeros(X, ScaleMatrix(c, Y))
  {
    ScaleZero(c);
  }

  lemma ScaledHardKeepsZeros(X: Matrix, gamma: real, alpha: real, beta: real)
    requires SbopdmdUtils.ThresholdScale(gamma, beta).Some?
    ensures SbopdmdUtils.ScaledHardThresholded(X, gamma, alpha, beta).Some?
    ensures KeepsZeros(X, SbopdmdUtils.ScaledHardThresholded(X, gamma, alpha, beta).value)
  {
    var s := SbopdmdUtils.ThresholdScale(gamma, beta).value;
    var g := gamma * alpha / s;
    HardKeepsZeros(X, g);
    ScaleKeepsZeros(X, SbopdmdUtils.HardThresholded(X, g), s);
  }

  lemma ScaledSoftKeepsZeros(X: Matrix, A: seq<seq<real>>, gamma: real, alpha: real, beta: real)
    requires EntryModuli(A, X) && SbopdmdUtils.ThresholdScale(gamma, beta).Some?
    ensures SbopdmdUtils.ScaledSoftThresholded(X, A, gamma, alpha, beta).Some?
    ensures KeepsZeros(X, SbopdmdUtils.ScaledSoftThresholded(X, A, gamma, alpha, beta).value)
  {
    var s := SbopdmdUtils.ThresholdScale(gamma, beta).value;
    SoftKeepsZeros(X, A, gamma * alpha);
    ScaleKeepsZeros(X, SbopdmdUtils.SoftThresholded(X, A, gamma * alpha), s);
  }

  /**
   * For a validated preset configuration with λ > 0, λ2 >= 0 and a step
   * t > 0, mode_prox returns a matrix of X's shape, and every entry that
   * X has as 0 stays 0.
   */
  lemma ModeProxPreset(reg: Regularizer, params: map<string, real>, X: Matrix, t: real, m: Moduli)
    requires ParamsFilled(params) && ModuliOf(m, X)
    requires reg.Preset? && ConfigCheck(reg, NoProx).None?
    requires params["lambda"] > 0.0 && params["lambda_2"] >= 0.0 && t > 0.0
    ensures var r := ModeProx(reg, NoProx, params, X, t, m);
      r.Ok? && r.value.Some? && KeepsZeros(X, r.value.value)
  {
    var lam, lam2 := params["lambda"], params["lambda_2"];
    var g := Mul(lam, t);
    var name := reg.name;
    if name == "l0" {
      HardKeepsZeros(X, g);
    } else if name == "l1" {
      SoftKeepsZeros(X, m.entries, g);
    } else if name == "l2" {
      MulPositive(lam, t);
      GroupKeepsZeros(X, m.columns, g);
    } else if name == "l02" {
      SbopdmdUtils.ThresholdScaleBounds(t, lam2);
      ScaledHardKeepsZeros(X, t, lam, lam2);
    } else {
      SbopdmdUtils.ThresholdScaleBounds(t, lam2);
      ScaledSoftKeepsZeros(X, m.entries, t, lam, lam2);
    }
  }

  // ---------------------------------------------------------------------
  // The mask
  // ---------------------------------------------------------------------

  /** M[unmasked_features] = 0.0 with an index past the end. */
  datatype MaskError = IndexOutOfBounds

  /** Every index lies below n. */
  predicate IndicesBelow(idx: seq<nat>, n: nat) {
    forall k :: 0 <= k < |idx| ==> idx[k] < n
  }

  /**
   * The mask over n features: 1.0 for an inactive feature and 0.0 for an
   * active one. Indexing with None assigns every entry, so with unknown
   * active features the mask is all zeros.
   */
  function MaskOf(n: nat, unmasked: Option<seq<nat>>): Result<seq<real>, MaskError> {
    match unmasked
    case None => Ok(seq(n, _ => 0.0))
    case Some(idx) =>
      if IndicesBelow(idx, n) then Ok(seq(n, i => if i in idx then 0.0 else 1.0))
      else Err(IndexOutOfBounds)
  }

  /**
   * The mask exists exactly when the indices are in range; it then has
   * length n and holds 0.0 at the active features and 1.0 elsewhere.
   */
  lemma MaskSpec(n: nat, unmasked: Option<seq<nat>>)
    ensures MaskOf(n, unmasked).Ok? <==> unmasked.None? || IndicesBelow(unmasked.value, n)
    ensures MaskOf(n, unmasked).Ok? ==> var M := MaskOf(n, unmasked).value;
      |M| == n && forall i :: 0 <= i < n ==>
        (M[i] == 0.0 <==> unmasked.None? || i in unmasked.value) && (M[i] == 0.0 || M[i] == 1.0)
  {
  }

  /** mask: np.ones(n), then zeros written at the active features one by one. */
  method Mask(n: nat, unmasked: Option<seq<nat>>) returns (r: Result<seq<real>, MaskError>)
    ensures r == MaskOf(n, unmasked)
  {
    var M := new real[n](_ => 1.0);
    if unmasked.None? {
      var i := 0;
      while i < n
        invariant 0 <= i <= n
        invariant forall l :: 0 <= l < n ==> M[l] == if l < i then 0.0 else 1.0
      {
        M[i] := 0.0;
        i := i + 1;
      }
      assert M[..] == seq(n, _ => 0.0);
      return Ok(M[..]);
    }
    var idx := unmasked.value;
    var k := 0;
    while k < |idx|
      invariant 0 <= k <= |idx|
      invariant IndicesBelow(idx[..k], n)
    {
      if idx[k] >= n {
        assert !IndicesBelow(idx, n);
        return Err(IndexOutOfBounds);
      }
      k := k + 1;
    }
    assert idx[..k] == idx;
    k := 0;
    while k < |idx|
      invariant 0 <= k <= |idx|
      invariant forall l :: 0 <= l < n ==> M[l] == if l in idx[..k] then 0.0 else 1.0
    {
      assert idx[..k + 1] == idx[..k] + [idx[k]];
      M[idx[k]] := 0.0;
      k := k + 1;
    }
    assert idx[..k] == idx;
    assert M[..] == seq(n, i => if i in idx then 0.0 else 1.0);
    return Ok(M[..]);
  }

  /**
   * The active features variable projection leaves behind are indices of
   * features, so the mask over the N features never fails after a fit.
   */
  lemma MaskAfterVariableProjection(num: SparseOperator.Numerics, cfg: SparseOperator.VpConfig,
                                    initAlpha: seq<Complex>, initB: Option<Matrix>, unmasked: Option<seq<nat>>)
    requires SparseOperator.Sound(num)
    requires initB.Some? ==> IsMatrix(initB.value, |initB.value|, num.features)
    requires unmasked.Some? ==> IndicesBelow(unmasked.value, num.features)
    ensures var e := SparseOperator.VariableProjectionOf(num, cfg, initAlpha, initB, unmasked);
      MaskOf(num.features, e.unmasked).Ok?
  {
    if cfg.maxiter >= 0 {
      var s := SparseOperator.InitialState(num, initAlpha, initB, unmasked);
      RunKeepsIndices(num, cfg, s);
    }
  }

  /** The valid features are indices of features. */
  lemma ValidFeaturesBelow(B: Matrix, n: nat, useMask: bool)
    requires IsMatrix(B, |B|, n)
    ensures IndicesBelow(SparseOperator.ValidFeatures(B, n, useMask), n)
  {
    var v := SparseOperator.ValidFeatures(B, n, useMask);
    if useMask {
      SbopdmdUtils.NonzeroColsSpec(B, SbopdmdUtils.NonzeroTol);
      assert Cols(B) <= n;
    }
  }

  /** The for loop keeps _unmasked_features a sequence of feature indices. */
  lemma {:induction false} RunKeepsIndices(num: SparseOperator.Numerics, cfg: SparseOperator.VpConfig,
                                          s: SparseOperator.VpState)
    requires SparseOperator.Sound(num) && SparseOperator.Shaped(num, s) && |s.objs| <= cfg.maxiter
    requires s.unmasked.Some? ==> IndicesBelow(s.unmasked.value, num.features)
    ensures var u := SparseOperator.VpRun(num, cfg, s).unmasked;
      u.Some? ==> IndicesBelow(u.value, num.features)
    decreases cfg.maxiter - |s.objs|
  {
    if |s.objs| < cfg.maxiter {
      ValidFeaturesBelow(s.B, num.features, cfg.useMask);
      var r := SparseOperator.VpStep(num, cfg, s);
      if r.Ok? {
        RunKeepsIndices(num, cfg, r.value);
      }
    }
  }

  // ---------------------------------------------------------------------
  // The checks of fit
  // ---------------------------------------------------------------------

  /** An optional array argument: absent (None), not an ndarray, or an ndarray of a shape. */
  datatype ArrayArg = Absent | NotAnArray | NdArray(shape: seq<nat>)

  /** The errors fit raises before any computation. */
  datatype FitError =
    | TimeNotOneDimensional  // ValueError: the squeezed t has ndim > 1
    | UnsizedTime            // TypeError: len() of the 0-d squeezed t
    | SnapshotTimeMismatch   // ValueError: X has a column count other than len(t)
    | BadProjBasis           // ValueError: proj_basis is not 2-D with svd_rank columns
    | BadInitAlpha           // ValueError: init_alpha is not 1-D with svd_rank entries
    | UnsizedInitAlpha       // TypeError: len() of a 0-d init_alpha

  /** np.squeeze on a shape: every axis of length 1 is dropped. */
  function Squeeze(shape: seq<nat>): (s: seq<nat>)
    ensures |s| <= |shape|
    ensures forall k :: 0 <= k < |s| ==> s[k] != 1 && s[k] in shape
  {
    if |shape| == 0 then []
    else if shape[0] == 1 then Squeeze(shape[1..])
    else [shape[0]] + Squeeze(shape[1..])
  }

  /** Squeezing a shape with no axis of length 1 changes nothing. */
  lemma {:induction false} SqueezeKeeps(shape: seq<nat>)
    requires forall k :: 0 <= k < |shape| ==> shape[k] != 1
    ensures Squeeze(shape) == shape
  {
    if |shape| > 0 {
      SqueezeKeeps(shape[1..]);
    }
  }

  /** Squeezing twice is squeezing once. */
  lemma SqueezeIdempotent(shape: seq<nat>)
    ensures Squeeze(Squeeze(shape)) == Squeeze(shape)
  {
    SqueezeKeeps(Squeeze(shape));
  }

  /**
   * The checks of fit in order, for a time vector of shape timeShape,
   * snapshots with snapshotCols columns, the computed svd_rank and the
   * optional proj_basis and init_alpha.
   */
  function FitCheck(timeShape: seq<nat>, snapshotCols: nat, rank: nat, projBasis: ArrayArg, initAlpha: ArrayArg)
    : Option<FitError>
  {
    var ts := Squeeze(timeShape);
    if |ts| > 1 then Some(TimeNotOneDimensional)
    else if |ts| == 0 then Some(UnsizedTime)
    else if snapshotCols != ts[0] then Some(SnapshotTimeMismatch)
    else if projBasis.NotAnArray? || (projBasis.NdArray? && (|projBasis.shape| != 2 || projBasis.shape[1] != rank))
    then Some(BadProjBasis)
    else if initAlpha.NotAnArray? || (initAlpha.NdArray? && |initAlpha.shape| > 1) then Some(BadInitAlpha)
    else if initAlpha.NdArray? && |initAlpha.shape| == 0 then Some(UnsizedInitAlpha)
    else if initAlpha.NdArray? && initAlpha.shape[0] != rank then Some(BadInitAlpha)
    else None
  }

  /** A proj_basis fit accepts: None, or a 2-D ndarray with svd_rank columns. */
  ghost predicate ProjBasisAccepted(projBasis: ArrayArg, rank: nat) {
    projBasis == Absent || exists rows: nat :: projBasis == NdArray([rows, rank])
  }

  /** An init_alpha fit accepts: None, or a 1-D ndarray of svd_rank entries. */
  predicate InitAlphaAccepted(initAlpha: ArrayArg, rank: nat) {
    initAlpha == Absent || initAlpha == NdArray([rank])
  }

  /**
   * fit accepts its input exactly when the squeezed time vector is 1-D
   * with as many points as X has columns, and proj_basis and init_alpha
   * are absent or of the required shape; a wrong proj_basis is reported
   * only for a valid time vector, and a wrong init_alpha only when
   * proj_basis is acceptable.
   */
  lemma FitCheckSpec(timeShape: seq<nat>, snapshotCols: nat, rank: nat, projBasis: ArrayArg, initAlpha: ArrayArg)
    ensures var r, ts := FitCheck(timeShape, snapshotCols, rank, projBasis, initAlpha), Squeeze(timeShape);
      (r.None? <==>
        ts == [snapshotCols] && ProjBasisAccepted(projBasis, rank) && InitAlphaAccepted(initAlpha, rank)) &&
      (r == Some(BadProjBasis) ==> ts == [snapshotCols]) &&
      (r in {Some(BadInitAlpha), Some(UnsizedInitAlpha)} ==>
        ts == [snapshotCols] && ProjBasisAccepted(projBasis, rank))
  {
    var ts := Squeeze(timeShape);
    if projBasis.NdArray? && |projBasis.shape| == 2 && projBasis.shape[1] == rank {
      assert projBasis == NdArray([projBasis.shape[0], rank]);
    }
    if |ts| == 1 {
      assert ts == [ts[0]];
    }
  }

  /** A single time point squeezes to a 0-d array, whose len() fit cannot take. */
  lemma SingleTimePointRejected(snapshotCols: nat, rank: nat, projBasis: ArrayArg, initAlpha: ArrayArg)
    ensures FitCheck([1], snapshotCols, rank, projBasis, initAlpha) == Some(UnsizedTime)
  {
    assert Squeeze([1]) == [];
  }

  // ---------------------------------------------------------------------
  // The object
  // ---------------------------------------------------------------------

  /**
   * SparseBOPDMD: the regularizer settings of the facade and the settings
   * it hands to its operator.
   */
  class SparseBOPDMD {
    const modeRegularizer: Regularizer
    const modeProx: ProxArg
    const useMask: bool
    const initB: Option<Matrix>
    const samplingRatio: real
    var regularizerParams: map<string, real>
    /** warnings.warn was called about extra parameters. */
    var extraParamsWarned: bool

    /** The part of __init__ after the checks: the parameters are filled in place. */
    constructor(reg: Regularizer, params: Option<map<string, real>>, prox: ProxArg, useMask: bool,
                initB: Option<Matrix>, samplingRatio: real)
      ensures modeRegularizer == reg && modeProx == prox && this.useMask == useMask
      ensures this.initB == initB && this.samplingRatio == samplingRatio
      ensures regularizerParams == FilledParams(params)
      ensures extraParamsWarned == ExtraParams(regularizerParams)
    {
      modeRegularizer, modeProx := reg, prox;
      this.useMask, this.initB, this.samplingRatio := useMask, initB, samplingRatio;
      new;
      if params.None? {
        regularizerParams := map[];
      } else {
        regularizerParams := params.value;
      }
      if "lambda" !in regularizerParams {
        regularizerParams := regularizerParams["lambda" := DefaultLambda];
      }
      if "lambda_2" !in regularizerParams {
        regularizerParams := regularizerParams["lambda_2" := DefaultLambda2];
      }
      extraParamsWarned := regularizerParams.Keys - {"lambda", "lambda_2"} != {};
      if extraParamsWarned {
        var k :| k in regularizerParams.Keys - {"lambda", "lambda_2"};
        assert k in regularizerParams && k != "lambda" && k != "lambda_2";
      } else {
        forall k | k in regularizerParams
          ensures k == "lambda" || k == "lambda_2"
        {
          assert k !in regularizerParams.Keys - {"lambda", "lambda_2"};
        }
      }
    }
  }

  /**
   * SparseBOPDMD.__init__: raise on an unsupported preset or a function
   * regularizer without mode_prox, and otherwise build the object with its
   * parameters filled.
   */
  method NewSparseBOPDMD(reg: Regularizer, params: Option<map<string, real>>, prox: ProxArg, useMask: bool,
                         initB: Option<Matrix>, samplingRatio: real)
    returns (r: Result<SparseBOPDMD, ConfigError>)
    ensures r.Err? <==> ConfigCheck(reg, prox).Some?
    ensures r.Err? ==> r.error == ConfigCheck(reg, prox).value
    ensures r.Ok? ==> fresh(r.value)
    ensures r.Ok? ==> r.value.modeRegularizer == reg && r.value.modeProx == prox && r.value.useMask == useMask
    ensures r.Ok? ==> r.value.initB == initB && r.value.samplingRatio == samplingRatio
    ensures r.Ok? ==> r.value.regularizerParams == FilledParams(params)
    ensures r.Ok? ==> r.value.extraParamsWarned == ExtraParams(FilledParams(params))
  {
    var check := ConfigCheck(reg, prox);
    if check.Some? {
      return Err(check.value);
    }
    var o := new SparseBOPDMD(reg, params, prox, useMask, initB, samplingRatio);
    return Ok(o);
  }
}
