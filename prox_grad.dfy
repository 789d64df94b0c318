/**
 * The loop control of accelerated_prox_grad (pydmd/sbopdmd_utils.py): the
 * iteration count, the two history arrays, the stopping rule and the
 * momentum restart. The smooth part f, the regularizer g, the gradient of
 * f, the proximal operator of g, the square root and the Frobenius norm are
 * parameters.
 */
module AcceleratedProxGrad {
  import opened Matrices

  /** The callbacks and the smoothness constant of one call. */
  datatype Problem = Problem(
    funcF: Matrix -> real,
    funcG: Matrix -> real,
    gradF: Matrix -> Matrix,
    proxG: (Matrix, real) -> Matrix,
    betaF: real,
    sqrt: real -> real,
    frobenius: Matrix -> real)

  /**
   * What the loop relies on: the gradient and the proximal operator keep the
   * shape of their argument, beta_f is positive (it is the squared spectral
   * norm of a nonzero matrix) and sqrt is the square root.
   */
  ghost predicate WellFormed(p: Problem) {
    p.betaF > 0.0 &&
    (forall M :: SameShape(p.gradF(M), M)) &&
    (forall M, s :: SameShape(p.proxG(M, s), M)) &&
    (forall x :: x >= 0.0 ==> p.sqrt(x) >= 0.0 && Sq(p.sqrt(x)) == x)
  }

  /** The loop variables: X, Y, t, the two histories (iter_count is their length) and err. */
  datatype Iterate = Iterate(X: Matrix, Y: Matrix, t: real, objHist: seq<real>, errHist: seq<real>, err: real)

  /** The values before the first iteration; err = tol + 1 lets the loop start. */
  function Start(X0: Matrix, tol: real): Iterate {
    Iterate(X0, X0, 1.0, [], [], tol + 1.0)
  }

  /** The momentum update t_new = (1 + sqrt(1 + 4t²)) / 2. */
  function Momentum(p: Problem, t: real): (r: real)
    requires WellFormed(p)
    ensures r >= 0.5
  {
    SqPos(t);
    0.5 * (1.0 + p.sqrt(1.0 + 4.0 * Sq(t)))
  }

  /** The restart test, made after obj has been stored at index k. */
  predicate Restarts(useRestarts: bool, k: nat, objHist: seq<real>)
    requires k < |objHist|
  {
    useRestarts && k > 1 && objHist[k - 1] < objHist[k]
  }

  /** One pass through the body of the while loop, before iter_count is incremented. */
  function Step(p: Problem, useRestarts: bool, s: Iterate): (r: Iterate)
    requires WellFormed(p) && SameShape(s.Y, s.X)
    ensures SameShape(r.X, s.X) && SameShape(r.Y, s.X)
    ensures |r.objHist| == |s.objHist| + 1 && r.objHist[..|s.objHist|] == s.objHist
    ensures r.errHist == s.errHist + [r.err]
  {
    var k := |s.objHist|;
    var step := 1.0 / p.betaF;
    var Xn := p.proxG(AddScaled(s.Y, -step, p.gradF(s.Y)), step);
    var tn := Momentum(p, s.t);
    var Yn := AddScaled(Xn, (s.t - 1.0) / tn, AddScaled(Xn, -1.0, s.X));
    var obj := p.funcF(Xn) + p.funcG(Xn);
    var err := p.frobenius(AddScaled(s.X, -1.0, Xn));
    var objHist := s.objHist + [obj];
    assert objHist[..k] == s.objHist;
    Iterate(Xn, Yn, if Restarts(useRestarts, k, objHist) then 1.0 else tn, objHist, s.errHist + [err], err)
  }

  /** Step, taken apart into the values the loop body computes. */
  lemma StepParts(p: Problem, useRestarts: bool, s: Iterate, Xn: Matrix, Yn: Matrix, obj: real, err: real)
    requires WellFormed(p) && SameShape(s.Y, s.X)
    requires Xn == p.proxG(AddScaled(s.Y, -(1.0 / p.betaF), p.gradF(s.Y)), 1.0 / p.betaF)
    requires Yn == AddScaled(Xn, (s.t - 1.0) / Momentum(p, s.t), AddScaled(Xn, -1.0, s.X))
    requires obj == p.funcF(Xn) + p.funcG(Xn)
    requires err == p.frobenius(AddScaled(s.X, -1.0, Xn))
    ensures var objHist := s.objHist + [obj];
      Step(p, useRestarts, s) == Iterate(Xn, Yn,
        if Restarts(useRestarts, |s.objHist|, objHist) then 1.0 else Momentum(p, s.t),
        objHist, s.errHist + [err], err)
  {
  }

  /**
   * The loop from a given state: stop when err < tol or when max_iter
   * iterations have run, otherwise take another step.
   */
  function Run(p: Problem, tol: real, maxIter: nat, useRestarts: bool, s: Iterate): Iterate
    requires WellFormed(p) && SameShape(s.Y, s.X) && |s.objHist| <= maxIter
    decreases maxIter - |s.objHist|
  {
    if s.err < tol || |s.objHist| >= maxIter then s
    else Run(p, tol, maxIter, useRestarts, Step(p, useRestarts, s))
  }

  /** How np.empty(max_iter) and the first store into it can fail. */
  datatype PgError = NegativeSize | IndexOutOfRange

  /** The three results: the final X and the two histories, cut to iter_count. */
  datatype Outcome = Outcome(X: Matrix, objHist: seq<real>, errHist: seq<real>)

  /**
   * accelerated_prox_grad as one expression. A negative max_iter makes
   * np.empty fail; max_iter = 0 makes the first store into obj_hist fail.
   */
  function ProxGradOf(p: Problem, X0: Matrix, tol: real, maxIter: int, useRestarts: bool): Result<Outcome, PgError>
    requires WellFormed(p)
  {
    if maxIter < 0 then Err(NegativeSize)
    else if maxIter == 0 then Err(IndexOutOfRange)
    else
      var s := Run(p, tol, maxIter, useRestarts, Start(X0, tol));
      Ok(Outcome(s.X, s.objHist, s.errHist))
  }

  /**
   * The loop only appends to the histories: both grow together, by at
   * least one entry when the loop is entered, and never past max_iter.
   */
  lemma {:induction false} RunLengths(p: Problem, tol: real, maxIter: nat, useRestarts: bool, s: Iterate)
    requires WellFormed(p) && SameShape(s.Y, s.X) && |s.objHist| <= maxIter
    requires |s.errHist| == |s.objHist|
    ensures var r := Run(p, tol, maxIter, useRestarts, s);
      |s.objHist| <= |r.objHist| == |r.errHist| <= maxIter &&
      r.objHist[..|s.objHist|] == s.objHist && r.errHist[..|s.errHist|] == s.errHist &&
      (s.err >= tol && |s.objHist| < maxIter ==> |r.objHist| > |s.objHist|)
    decreases maxIter - |s.objHist|
  {
    if !(s.err < tol || |s.objHist| >= maxIter) {
      var s' := Step(p, useRestarts, s);
      RunLengths(p, tol, maxIter, useRestarts, s');
      var r := Run(p, tol, maxIter, useRestarts, s');
      assert r.objHist[..|s.objHist|] == r.objHist[..|s'.objHist|][..|s.objHist|];
      assert r.errHist[..|s.errHist|] == r.errHist[..|s'.errHist|][..|s.errHist|];
    }
  }

  /**
   * The stopping rule: the loop ends with err < tol or after exactly
   * max_iter iterations, the returned err is the last one recorded, and
   * every earlier iteration recorded err >= tol.
   */
  lemma {:induction false} RunStops(p: Problem, tol: real, maxIter: nat, useRestarts: bool, s: Iterate)
    requires WellFormed(p) && SameShape(s.Y, s.X) && |s.objHist| < maxIter
    requires |s.errHist| == |s.objHist| && s.err >= tol
    ensures var r := Run(p, tol, maxIter, useRestarts, s);
      |r.errHist| > |s.errHist| &&
      (r.err < tol || |r.objHist| == maxIter) &&
      r.err == r.errHist[|r.errHist| - 1] &&
      forall k :: |s.errHist| <= k < |r.errHist| - 1 ==> r.errHist[k] >= tol
    decreases maxIter - |s.objHist|
  {
    var s' := Step(p, useRestarts, s);
    if !(s'.err < tol || |s'.objHist| >= maxIter) {
      RunStops(p, tol, maxIter, useRestarts, s');
      RunLengths(p, tol, maxIter, useRestarts, s');
      var r := Run(p, tol, maxIter, useRestarts, s');
      assert r.errHist[|s.errHist|] == r.errHist[..|s'.errHist|][|s.errHist|];
    }
  }

  /**
   * What accelerated_prox_grad promises when max_iter >= 1: at least one
   * iteration runs, both histories have length iter_count <= max_iter, and
   * the loop ends because err < tol or iter_count = max_iter, with no
   * earlier iteration below tol.
   */
  lemma ProxGradHistories(p: Problem, X0: Matrix, tol: real, maxIter: int, useRestarts: bool)
    requires WellFormed(p) && maxIter >= 1
    ensures ProxGradOf(p, X0, tol, maxIter, useRestarts).Ok?
    ensures var o := ProxGradOf(p, X0, tol, maxIter, useRestarts).value;
      1 <= |o.objHist| == |o.errHist| <= maxIter &&
      (o.errHist[|o.errHist| - 1] < tol || |o.objHist| == maxIter) &&
      forall k :: 0 <= k < |o.errHist| - 1 ==> o.errHist[k] >= tol
  {
    RunLengths(p, tol, maxIter, useRestarts, Start(X0, tol));
    RunStops(p, tol, maxIter, useRestarts, Start(X0, tol));
  }

  /** The loop keeps the shape of X0. */
  lemma {:induction false} RunShape(p: Problem, tol: real, maxIter: nat, useRestarts: bool, s: Iterate)
    requires WellFormed(p) && SameShape(s.Y, s.X) && |s.objHist| <= maxIter
    ensures SameShape(Run(p, tol, maxIter, useRestarts, s).X, s.X)
    decreases maxIter - |s.objHist|
  {
    if !(s.err < tol || |s.objHist| >= maxIter) {
      RunShape(p, tol, maxIter, useRestarts, Step(p, useRestarts, s));
    }
  }

  /** The returned X has the shape of X0. */
  lemma ProxGradShape(p: Problem, X0: Matrix, tol: real, maxIter: int, useRestarts: bool)
    requires WellFormed(p)
    ensures var r := ProxGradOf(p, X0, tol, maxIter, useRestarts);
      r.Ok? ==> SameShape(r.value.X, X0)
  {
    if maxIter >= 1 {
      RunShape(p, tol, maxIter, useRestarts, Start(X0, tol));
    }
  }

  /** For t >= 1 the momentum grows: t_new > t. */
  lemma MomentumGrows(p: Problem, t: real)
    requires WellFormed(p) && t >= 1.0
    ensures Momentum(p, t) > t
  {
    SqPos(t);
    var r := p.sqrt(1.0 + 4.0 * Sq(t));
    assert Sq(r) == 1.0 + 4.0 * Sq(t);
    assert Sq(2.0 * t) == 4.0 * Sq(t);
    if r <= 2.0 * t {
      if r < 2.0 * t {
        SqMono(r, 2.0 * t);
      }
      assert false;
    }
  }

  /**
   * The momentum restart: t after a step is 1 when the objective rose
   * between the two previous stores and restarts are on; otherwise it is
   * the momentum update, which for t >= 1 is larger than t. Either way t
   * stays >= 1, so the extrapolation weight (t - 1)/t_new lies in [0, 1).
   */
  lemma StepMomentum(p: Problem, useRestarts: bool, s: Iterate)
    requires WellFormed(p) && SameShape(s.Y, s.X) && s.t >= 1.0
    ensures var r := Step(p, useRestarts, s); var k := |s.objHist|;
      r.t >= 1.0 &&
      (r.t == 1.0 <== Restarts(useRestarts, k, r.objHist)) &&
      (!Restarts(useRestarts, k, r.objHist) ==> r.t == Momentum(p, s.t) > s.t) &&
      0.0 <= (s.t - 1.0) / Momentum(p, s.t) < 1.0
  {
    MomentumGrows(p, s.t);
    var tn := Momentum(p, s.t);
    assert (s.t - 1.0) / tn < 1.0 by {
      assert (s.t - 1.0) / tn * tn == s.t - 1.0;
    }
  }

  /**
   * A restart needs restarts switched on, at least two earlier iterations
   * and an objective that rose in the last one.
   */
  lemma RestartOnlyWhenWorse(p: Problem, useRestarts: bool, s: Iterate)
    requires WellFormed(p) && SameShape(s.Y, s.X) && s.t >= 1.0
    ensures var r := Step(p, useRestarts, s); var k := |s.objHist|;
      r.t != Momentum(p, s.t) ==>
        useRestarts && k >= 2 && r.objHist[k - 1] < r.objHist[k] && r.t == 1.0
  {
  }

  /** t stays >= 1 along the whole loop. */
  lemma {:induction false} RunMomentum(p: Problem, tol: real, maxIter: nat, useRestarts: bool, s: Iterate)
    requires WellFormed(p) && SameShape(s.Y, s.X) && |s.objHist| <= maxIter && s.t >= 1.0
    ensures Run(p, tol, maxIter, useRestarts, s).t >= 1.0
    decreases maxIter - |s.objHist|
  {
    if !(s.err < tol || |s.objHist| >= maxIter) {
      StepMomentum(p, useRestarts, s);
      RunMomentum(p, tol, maxIter, useRestarts, Step(p, useRestarts, s));
    }
  }

  /**
   * The proximal gradient step, the momentum update and the extrapolation
   * of one iteration, with the new objective value and error.
   */
  method Advance(p: Problem, step: real, X: Matrix, Y: Matrix, t: real)
    returns (Xn: Matrix, Yn: Matrix, tn: real, obj: real, err: real)
    requires WellFormed(p) && SameShape(Y, X) && step == 1.0 / p.betaF
    ensures Xn == p.proxG(AddScaled(Y, -(1.0 / p.betaF), p.gradF(Y)), 1.0 / p.betaF)
    ensures tn == Momentum(p, t)
    ensures Yn == AddScaled(Xn, (t - 1.0) / tn, AddScaled(Xn, -1.0, X))
    ensures obj == p.funcF(Xn) + p.funcG(Xn)
    ensures err == p.frobenius(AddScaled(X, -1.0, Xn))
    ensures SameShape(Xn, X) && SameShape(Yn, X)
  {
    Xn := p.proxG(AddScaled(Y, -step, p.gradF(Y)), step);
    tn := 0.5 * (1.0 + p.sqrt(1.0 + 4.0 * (t * t)));
    assert tn == Momentum(p, t);
    Yn := AddScaled(Xn, (t - 1.0) / tn, AddScaled(Xn, -1.0, X));
    obj := p.funcF(Xn) + p.funcG(Xn);
    err := p.frobenius(AddScaled(X, -1.0, Xn));
  }

  /** obj_hist[iter_count] = obj and err_hist[iter_count] = err. */
  method Store(objHist: array<real>, errHist: array<real>, k: nat, obj: real, err: real,
               ghost objs: seq<real>, ghost errs: seq<real>)
    requires objHist != errHist && k < objHist.Length && k < errHist.Length
    requires objHist[..k] == objs && errHist[..k] == errs
    modifies objHist, errHist
    ensures objHist[..k + 1] == objs + [obj] && errHist[..k + 1] == errs + [err]
    ensures objHist[k] == obj && (k > 0 ==> objHist[k - 1] == objs[k - 1])
  {
    objHist[k] := obj;
    errHist[k] := err;
    assert objHist[..k + 1] == objHist[..k] + [obj];
    assert errHist[..k + 1] == errHist[..k] + [err];
  }

  /**
   * One pass through the loop body with err >= tol: the step, the two
   * stores and the restart test; the loop from the new values ends where
   * the loop from the old ones does.
   */
  method OnePass(p: Problem, tol: real, maxIter: nat, useRestarts: bool, step: real,
                 X: Matrix, Y: Matrix, t: real, err: real,
                 objHist: array<real>, errHist: array<real>, k: nat, ghost objs: seq<real>, ghost errs: seq<real>)
    returns (Xo: Matrix, Yo: Matrix, to: real, erro: real)
    requires WellFormed(p) && SameShape(Y, X) && step == 1.0 / p.betaF && err >= tol
    requires objHist != errHist && k < maxIter == objHist.Length == errHist.Length
    requires objHist[..k] == objs && errHist[..k] == errs
    modifies objHist, errHist
    ensures SameShape(Yo, Xo)
    ensures Run(p, tol, maxIter, useRestarts, Iterate(Xo, Yo, to, objHist[..k + 1], errHist[..k + 1], erro)) ==
      Run(p, tol, maxIter, useRestarts, Iterate(X, Y, t, objs, errs, err))
  {
    ghost var before := Iterate(X, Y, t, objs, errs, err);
    var tn, obj;
    Xo, Yo, tn, obj, erro := Advance(p, step, X, Y, t);
    Store(objHist, errHist, k, obj, erro, objs, errs);
    to := tn;
    if useRestarts && k > 1 {
      if objHist[k - 1] < objHist[k] {
        to := 1.0;
      }
    }
    ghost var after := Iterate(Xo, Yo, to, objHist[..k + 1], errHist[..k + 1], erro);
    assert after.t == if Restarts(useRestarts, k, after.objHist) then 1.0 else tn;
    StepParts(p, useRestarts, before, Xo, Yo, obj, erro);
  }

  /**
   * accelerated_prox_grad: copy X0 into X and Y, allocate the two
   * histories, and loop while err >= tol, returning as soon as iter_count
   * reaches max_iter.
   */
  method ProxGrad(p: Problem, X0: Matrix, tol: real, maxIter: int, useRestarts: bool)
    returns (r: Result<Outcome, PgError>)
    requires WellFormed(p)
    ensures r == ProxGradOf(p, X0, tol, maxIter, useRestarts)
  {
    if maxIter < 0 {
      return Err(NegativeSize);
    }
    if maxIter == 0 {
      return Err(IndexOutOfRange);
    }
    var X, Y, t := X0, X0, 1.0;
    var step := 1.0 / p.betaF;
    var objHist := new real[maxIter];
    var errHist := new real[maxIter];
    var iterCount := 0;
    var err := tol + 1.0;
    ghost var goal := Run(p, tol, maxIter, useRestarts, Start(X0, tol));
    while err >= tol
      invariant 0 <= iterCount < maxIter == objHist.Length == errHist.Length
      invariant SameShape(Y, X)
      invariant Run(p, tol, maxIter, useRestarts,
        Iterate(X, Y, t, objHist[..iterCount], errHist[..iterCount], err)) == goal
      decreases maxIter - iterCount
    {
      X, Y, t, err := OnePass(p, tol, maxIter, useRestarts, step, X, Y, t, err,
        objHist, errHist, iterCount, objHist[..iterCount], errHist[..iterCount]);
      iterCount := iterCount + 1;
      if iterCount >= maxIter {
        return Ok(Outcome(X, objHist[..iterCount], errHist[..iterCount]));
      }
    }
    return Ok(Outcome(X, objHist[..iterCount], errHist[..iterCount]));
  }
}
