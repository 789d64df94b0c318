/**
 * The damping search of _compute_alpha_levmarq (pydmd/sbopdmd.py): clamp
 * the Jacobian column scales into [1e-6, 1], then try the damping values
 * init_lambda·lamup^j for j = 0, …, maxlam and accept the first step that
 * strictly lowers the residual objective. The Jacobian, the pivoted QR, the
 * least-squares solve and _push_eigenvalues are parameters.
 */
module LevenbergMarquardt {
  import opened Matrices

  type Vector = seq<Complex>

  /** The smallest scale a Jacobian column may receive. */
  const ScaleFloor: real := 0.000001

  /** min(‖column‖, 1), then max(·, 1e-6). */
  function ClampScale(n: real): (s: real)
    ensures ScaleFloor <= s <= 1.0
    ensures ScaleFloor <= n <= 1.0 ==> s == n
    ensures n >= 1.0 ==> s == 1.0
    ensures n <= ScaleFloor ==> s == ScaleFloor
  {
    Max(Min(n, 1.0), ScaleFloor)
  }

  /**
   * The data of one damping search for fixed B, H, t and alpha_0:
   * the squared Frobenius norm of H − Phi(alpha, t)·B, the norm of Jacobian
   * column i at alpha_0, and the step alpha_0 + delta(lambda) through the
   * pivoted QR, lstsq and _push_eigenvalues, for given scales.
   */
  datatype LmData = LmData(
    objective: Vector -> real,
    jacobianNorm: nat -> real,
    damped: (seq<real>, real) -> Vector)

  /** The scales of the IA Jacobian columns. */
  function ScalesOf(lm: LmData, ia: nat): (s: seq<real>)
    ensures |s| == ia
  {
    seq(ia, i requires 0 <= i < ia => ClampScale(lm.jacobianNorm(i)))
  }

  /** x^n. */
  function Power(x: real, n: nat): real {
    if n == 0 then 1.0 else Mul(x, Power(x, n - 1))
  }

  /** The j-th damping value init_lambda·lamup^j. */
  function Damping(initLambda: real, lamup: real, j: nat): real {
    Mul(initLambda, Power(lamup, j))
  }

  /** The step taken with the j-th damping value lowers the objective. */
  predicate Improves(lm: LmData, alpha0: Vector, scales: seq<real>, initLambda: real, lamup: real, j: nat) {
    lm.objective(lm.damped(scales, Damping(initLambda, lamup, j))) < lm.objective(alpha0)
  }

  /** The damping loop from index j on. */
  function SearchFrom(lm: LmData, alpha0: Vector, scales: seq<real>, initLambda: real, lamup: real, maxlam: int, j: nat): Vector
    decreases maxlam + 1 - j
  {
    if j > maxlam then alpha0
    else if Improves(lm, alpha0, scales, initLambda, lamup, j) then lm.damped(scales, Damping(initLambda, lamup, j))
    else SearchFrom(lm, alpha0, scales, initLambda, lamup, maxlam, j + 1)
  }

  /** _compute_alpha_levmarq as one expression. */
  function LevMarqOf(lm: LmData, alpha0: Vector, initLambda: real, lamup: real, maxlam: int): Vector {
    SearchFrom(lm, alpha0, ScalesOf(lm, |alpha0|), initLambda, lamup, maxlam, 0)
  }

  /** The first index in [from, maxlam] whose step improves, if any. */
  predicate FirstImprovement(lm: LmData, alpha0: Vector, scales: seq<real>, initLambda: real, lamup: real,
                             from: nat, maxlam: int, j: nat) {
    from <= j <= maxlam && Improves(lm, alpha0, scales, initLambda, lamup, j) &&
    forall l :: from <= l < j ==> !Improves(lm, alpha0, scales, initLambda, lamup, l)
  }

  /**
   * The search returns the step of the first improving damping value in
   * [from, maxlam], or alpha_0 unchanged when none of them improves.
   */
  lemma {:induction false} SearchFromSpec(lm: LmData, alpha0: Vector, scales: seq<real>, initLambda: real, lamup: real,
                                         maxlam: int, from: nat)
    ensures var r := SearchFrom(lm, alpha0, scales, initLambda, lamup, maxlam, from);
      (exists j :: FirstImprovement(lm, alpha0, scales, initLambda, lamup, from, maxlam, j) &&
        r == lm.damped(scales, Damping(initLambda, lamup, j))) ||
      ((forall j :: from <= j <= maxlam ==> !Improves(lm, alpha0, scales, initLambda, lamup, j)) && r == alpha0)
    decreases maxlam + 1 - from
  {
    if from <= maxlam && !Improves(lm, alpha0, scales, initLambda, lamup, from) {
      SearchFromSpec(lm, alpha0, scales, initLambda, lamup, maxlam, from + 1);
      var r := SearchFrom(lm, alpha0, scales, initLambda, lamup, maxlam, from + 1);
      if exists j :: FirstImprovement(lm, alpha0, scales, initLambda, lamup, from + 1, maxlam, j) &&
          r == lm.damped(scales, Damping(initLambda, lamup, j)) {
        var j :| FirstImprovement(lm, alpha0, scales, initLambda, lamup, from + 1, maxlam, j) &&
          r == lm.damped(scales, Damping(initLambda, lamup, j));
        assert FirstImprovement(lm, alpha0, scales, initLambda, lamup, from, maxlam, j);
      }
    } else if from <= maxlam {
      assert FirstImprovement(lm, alpha0, scales, initLambda, lamup, from, maxlam, from);
    }
  }

  /**
   * What the damping search promises: it returns the step of the first
   * j in 0..maxlam whose objective is strictly smaller than the current
   * one, and otherwise alpha_0 unchanged; the scales it uses lie in
   * [1e-6, 1].
   */
  lemma LevMarqSpec(lm: LmData, alpha0: Vector, initLambda: real, lamup: real, maxlam: int)
    ensures var r := LevMarqOf(lm, alpha0, initLambda, lamup, maxlam); var scales := ScalesOf(lm, |alpha0|);
      (forall i :: 0 <= i < |scales| ==> ScaleFloor <= scales[i] <= 1.0) &&
      ((exists j :: FirstImprovement(lm, alpha0, scales, initLambda, lamup, 0, maxlam, j) &&
         r == lm.damped(scales, Damping(initLambda, lamup, j))) ||
       ((forall j :: 0 <= j <= maxlam ==> !Improves(lm, alpha0, scales, initLambda, lamup, j)) && r == alpha0))
  {
    var scales := ScalesOf(lm, |alpha0|);
    forall i | 0 <= i < |scales|
      ensures ScaleFloor <= scales[i] <= 1.0
    {
      assert scales[i] == ClampScale(lm.jacobianNorm(i));
    }
    SearchFromSpec(lm, alpha0, scales, initLambda, lamup, maxlam, 0);
  }

  /** With maxlam < 0 no damping value is tried and alpha_0 comes back. */
  lemma NoDampingValues(lm: LmData, alpha0: Vector, initLambda: real, lamup: real, maxlam: int)
    requires maxlam < 0
    ensures LevMarqOf(lm, alpha0, initLambda, lamup, maxlam) == alpha0
  {
  }

  lemma {:induction false} PowerPositive(x: real, n: nat)
    requires x > 0.0
    ensures Power(x, n) > 0.0
  {
    if n > 0 {
      PowerPositive(x, n - 1);
      MulPositive(x, Power(x, n - 1));
    }
  }

  /** With init_lambda > 0 and lamup > 1 the damping values strictly increase with j. */
  lemma DampingIncreases(initLambda: real, lamup: real, j: nat)
    requires initLambda > 0.0 && lamup > 1.0
    ensures Damping(initLambda, lamup, j) < Damping(initLambda, lamup, j + 1)
  {
    var p := Power(lamup, j);
    PowerPositive(lamup, j);
    assert Power(lamup, j + 1) == Mul(lamup, p);
    var q := initLambda * p;
    PosProduct(initLambda, p);
    PosProduct(lamup - 1.0, q);
    assert initLambda * (lamup * p) == lamup * q;
  }

  /** The column scales, filled one by one. */
  method LevMarqScales(lm: LmData, ia: nat) returns (scales: seq<real>)
    ensures scales == ScalesOf(lm, ia)
  {
    var a := new real[ia];
    var i := 0;
    while i < ia
      invariant 0 <= i <= ia
      invariant forall k :: 0 <= k < i ==> a[k] == ClampScale(lm.jacobianNorm(k))
    {
      a[i] := Min(lm.jacobianNorm(i), 1.0);
      a[i] := Max(a[i], ScaleFloor);
      i := i + 1;
    }
    scales := a[..];
  }

  /**
   * _compute_alpha_levmarq: compute the scales, then try the damping values
   * init_lambda·lamup^j in increasing j and return the first step that
   * lowers the objective, or alpha_0.
   */
  method LevMarq(lm: LmData, alpha0: Vector, initLambda: real, lamup: real, maxlam: int) returns (alpha: Vector)
    ensures alpha == LevMarqOf(lm, alpha0, initLambda, lamup, maxlam)
  {
    var scales := LevMarqScales(lm, |alpha0|);
    var objective := lm.objective(alpha0);
    var j := 0;
    while j <= maxlam
      invariant 0 <= j && (j <= maxlam + 1 || maxlam < 0)
      invariant SearchFrom(lm, alpha0, scales, initLambda, lamup, maxlam, j) == LevMarqOf(lm, alpha0, initLambda, lamup, maxlam)
      decreases maxlam + 1 - j
    {
      var lam := initLambda * Power(lamup, j);
      assert lam == Damping(initLambda, lamup, j);
      var alphaNew := lm.damped(scales, lam);
      var objectiveNew := lm.objective(alphaNew);
      if objectiveNew < objective {
        return alphaNew;
      }
      j := j + 1;
    }
    return alpha0;
  }
}
