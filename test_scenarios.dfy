/**
 * The cases of tests/test_sbopdmd.py, stated on the model: the l0, l1 and
 * l2 presets with λ = 5 and step t = 1 on the matrix A of the test module,
 * and the configurations the constructor rejects.
 */
module TestScenarios {
  import opened Matrices
  import SbopdmdUtils
  import opened SparseBopdmd

  /** The real parts of the first row of A: -100, -1, 0, 1, 100. */
  function Pattern(j: nat): real
    requires j < 5
  {
    if j == 0 then -100.0 else if j == 1 then -1.0 else if j == 2 then 0.0 else if j == 3 then 1.0 else 100.0
  }

  /** |Pattern(j)|. */
  function PatternModulus(j: nat): real
    requires j < 5
  {
    if j == 0 || j == 4 then 100.0 else if j == 2 then 0.0 else 1.0
  }

  /** Row 0 of A holds Pattern(j), row 1 holds Pattern(j)·i. */
  function Entry(i: nat, x: real): Complex {
    if i == 0 then Complex(x, 0.0) else Complex(0.0, x)
  }

  /** A = [[-100, -1, 0, 1, 100], [-100j, -1j, 0, 1j, 100j]]. */
  function TestA(): (A: Matrix)
    ensures IsMatrix(A, 2, 5)
  {
    seq(2, i requires 0 <= i < 2 => seq(5, j requires 0 <= j < 5 => Entry(i, Pattern(j))))
  }

  /** The entry moduli of A. */
  function TestModuli(): (M: seq<seq<real>>)
    ensures |M| == 2 && |M[0]| == 5 && |M[1]| == 5
  {
    seq(2, i requires 0 <= i < 2 => seq(5, j requires 0 <= j < 5 => PatternModulus(j)))
  }

  /** c·[[-1, 0, 0, 0, 1], [-1j, 0, 0, 0, 1j]], the form of every expected prox result. */
  function OuterColumns(c: real): (Y: Matrix)
    ensures IsMatrix(Y, 2, 5)
  {
    seq(2, i requires 0 <= i < 2 => seq(5, j requires 0 <= j < 5 =>
      if j == 0 then Entry(i, -c) else if j == 4 then Entry(i, c) else Zero))
  }

  /** The moduli for column norms 100√2, √2, 0, √2, 100√2, given as r and s. */
  function TestMod(r: real, s: real): Moduli {
    Moduli(TestModuli(), [r, s, 0.0, s, r])
  }

  /** r = 100√2 and s = √2. */
  predicate Roots(r: real, s: real) {
    r >= 0.0 && Sq(r) == 20000.0 && s >= 0.0 && Sq(s) == 2.0
  }

  /** SparseBOPDMD(mode_regularizer=..., regularizer_params={"lambda": 5.0}). */
  function TestParams(): map<string, real> {
    FilledParams(Some(map["lambda" := 5.0]))
  }

  lemma TestParamsFilled()
    ensures TestParams() == map["lambda" := 5.0, "lambda_2" := 0.000001]
    ensures ParamsFilled(TestParams()) && !ExtraParams(TestParams())
  {
  }

  lemma Abs2Entry(i: nat, x: real)
    ensures Abs2(Entry(i, x)) == Sq(x)
  {
    assert Sq(0.0) == 0.0;
  }

  /** |Pattern(j)|². */
  function PatternSq(j: nat): real
    requires j < 5
  {
    if j == 0 || j == 4 then 10000.0 else if j == 2 then 0.0 else 1.0
  }

  lemma SqOfEqual(a: real, b: real)
    requires a == b
    ensures Sq(a) == Sq(b)
  {
  }

  lemma PatternSquares(j: nat)
    requires j < 5
    ensures Sq(Pattern(j)) == PatternSq(j) && Sq(PatternModulus(j)) == PatternSq(j)
  {
    if j == 0 {
      SqOfEqual(Pattern(j), -100.0);
      SqOfEqual(PatternModulus(j), 100.0);
    } else if j == 1 {
      SqOfEqual(Pattern(j), -1.0);
      SqOfEqual(PatternModulus(j), 1.0);
    } else if j == 2 {
      SqOfEqual(Pattern(j), 0.0);
      SqOfEqual(PatternModulus(j), 0.0);
    } else if j == 3 {
      SqOfEqual(Pattern(j), 1.0);
      SqOfEqual(PatternModulus(j), 1.0);
    } else {
      SqOfEqual(Pattern(j), 100.0);
      SqOfEqual(PatternModulus(j), 100.0);
    }
  }

  lemma EntryModulus(i: nat, j: nat)
    requires j < 5
    ensures IsModulus(PatternModulus(j), Entry(i, Pattern(j)))
  {
    Abs2Entry(i, Pattern(j));
    PatternSquares(j);
  }

  lemma SumAbs2Pair(a: Complex, b: Complex)
    ensures SumAbs2([a, b]) == Abs2(a) + Abs2(b)
  {
    var v := Abs2s([a, b]);
    assert v == [Abs2(a), Abs2(b)];
    assert v[..1] == [Abs2(a)] && v[..1][..0] == [];
    assert Sum(v[..1]) == Sum(v[..1][..0]) + Abs2(a);
    assert Sum(v) == Sum(v[..1]) + Abs2(b);
  }

  lemma ColumnNorm(r: real, s: real, j: nat)
    requires Roots(r, s) && j < 5
    ensures IsNorm([r, s, 0.0, s, r][j], Column(TestA(), j))
  {
    var A, x, n := TestA(), Pattern(j), [r, s, 0.0, s, r][j];
    assert Column(A, j) == [Entry(0, x), Entry(1, x)];
    SumAbs2Pair(Entry(0, x), Entry(1, x));
    Abs2Entry(0, x);
    Abs2Entry(1, x);
    PatternSquares(j);
    if j == 0 || j == 4 {
      SqOfEqual(n, r);
    } else if j == 2 {
      SqOfEqual(n, 0.0);
    } else {
      SqOfEqual(n, s);
    }
  }

  /** The moduli of A. */
  lemma TestModuliOf(r: real, s: real)
    requires Roots(r, s)
    ensures ModuliOf(TestMod(r, s), TestA())
  {
    var A, M := TestA(), TestModuli();
    forall i, j | 0 <= i < 2 && 0 <= j < 5
      ensures IsModulus(M[i][j], A[i][j])
    {
      EntryModulus(i, j);
    }
    forall j | 0 <= j < 5
      ensures IsNorm([r, s, 0.0, s, r][j], Column(A, j))
    {
      ColumnNorm(r, s, j);
    }
  }

  /** Two matrices of the same shape with the same entries are equal. */
  lemma MatrixEq(X: Matrix, Y: Matrix)
    requires SameShape(X, Y)
    requires forall i, j :: 0 <= i < |X| && 0 <= j < |X[i]| ==> X[i][j] == Y[i][j]
    ensures X == Y
  {
    forall i | 0 <= i < |X|
      ensures X[i] == Y[i]
    {
    }
  }

  // ---------------------------------------------------------------------
  // test_l0
  // ---------------------------------------------------------------------

  lemma CountNonzeroStep(v: seq<Complex>, k: nat)
    requires k < |v|
    ensures SbopdmdUtils.CountNonzero(v[..k + 1]) ==
      SbopdmdUtils.CountNonzero(v[..k]) + (if v[k] != Zero then 1 else 0)
  {
    assert v[..k + 1][..k] == v[..k];
  }

  /** Each row of A has four nonzero entries. */
  lemma CountRow(v: seq<Complex>)
    requires |v| == 5 && v[0] != Zero && v[1] != Zero && v[2] == Zero && v[3] != Zero && v[4] != Zero
    ensures SbopdmdUtils.CountNonzero(v) == 4
  {
    assert v[..0] == [];
    CountNonzeroStep(v, 0);
    CountNonzeroStep(v, 1);
    CountNonzeroStep(v, 2);
    CountNonzeroStep(v, 3);
    CountNonzeroStep(v, 4);
    assert v[..5] == v;
  }

  /** count_nonzero(A) = 8. */
  lemma TestL0Norm()
    ensures SbopdmdUtils.L0Norm(TestA()) == 8
  {
    var A := TestA();
    CountRow(A[0]);
    CountRow(A[1]);
    assert A[..1][..0] == [];
    assert SbopdmdUtils.L0Norm(A[..1]) == 4;
  }

  /** mode_regularizer(A) == 5·count_nonzero(A). */
  lemma L0Regularizer(r: real, s: real)
    requires Roots(r, s)
    ensures ModuliOf(TestMod(r, s), TestA())
    ensures ModeRegularizer(Preset("l0"), TestParams(), TestA(), TestMod(r, s)) == Some(5.0 * 8.0)
  {
    TestModuliOf(r, s);
    TestParamsFilled();
    TestL0Norm();
  }

  /** hard_threshold with γ = 5 keeps the entries of modulus 100 and clears the rest. */
  lemma HardOfPattern(i: nat, j: nat, gamma: real)
    requires i < 2 && j < 5 && gamma == 5.0
    ensures SbopdmdUtils.HardEntry(Entry(i, Pattern(j)), gamma) == OuterColumns(100.0)[i][j]
  {
    Abs2Entry(i, Pattern(j));
    PatternSquares(j);
  }

  /** mode_prox(A, 1.0) == 100·[[-1, 0, 0, 0, 1], [-1j, 0, 0, 0, 1j]]. */
  lemma L0Prox(r: real, s: real)
    requires Roots(r, s)
    ensures ModuliOf(TestMod(r, s), TestA())
    ensures ModeProx(Preset("l0"), NoProx, TestParams(), TestA(), 1.0, TestMod(r, s)) == Ok(Some(OuterColumns(100.0)))
  {
    TestModuliOf(r, s);
    TestParamsFilled();
    var A := TestA();
    var Y := SbopdmdUtils.HardThresholded(A, Mul(5.0, 1.0));
    forall i, j | 0 <= i < 2 && 0 <= j < 5
      ensures Y[i][j] == OuterColumns(100.0)[i][j]
    {
      HardOfPattern(i, j, Mul(5.0, 1.0));
    }
    MatrixEq(Y, OuterColumns(100.0));
  }

  // ---------------------------------------------------------------------
  // test_l1
  // ---------------------------------------------------------------------

  lemma SumStep(v: seq<real>, k: nat)
    requires k < |v|
    ensures Sum(v[..k + 1]) == Sum(v[..k]) + v[k]
  {
    assert v[..k + 1][..k] == v[..k];
  }

  lemma SumFive(v: seq<real>)
    requires |v| == 5
    ensures Sum(v) == v[0] + v[1] + v[2] + v[3] + v[4]
  {
    assert v[..0] == [];
    SumStep(v, 0);
    SumStep(v, 1);
    SumStep(v, 2);
    SumStep(v, 3);
    SumStep(v, 4);
    assert v[..5] == v;
  }

  /** Each row of moduli sums to 202. */
  lemma ModuliRow(i: nat)
    requires i < 2
    ensures Sum(TestModuli()[i]) == 202.0
  {
    var v := TestModuli()[i];
    assert v == seq(5, j requires 0 <= j < 5 => PatternModulus(j));
    assert v == [100.0, 1.0, 0.0, 1.0, 100.0];
    SumFive(v);
  }

  /** Σ|A| = 404. */
  lemma TestL1Sum()
    ensures SbopdmdUtils.SumAll(TestModuli()) == 404.0
  {
    var M := TestModuli();
    ModuliRow(0);
    ModuliRow(1);
    var rows := seq(|M|, i requires 0 <= i < |M| => Sum(M[i]));
    assert rows == [202.0, 202.0];
    SumStep(rows, 0);
    SumStep(rows, 1);
    assert rows[..0] == [] && rows[..2] == rows;
  }

  /** mode_regularizer(A) == 5·Σ|A|. */
  lemma L1Regularizer(r: real, s: real)
    requires Roots(r, s)
    ensures ModuliOf(TestMod(r, s), TestA())
    ensures ModeRegularizer(Preset("l1"), TestParams(), TestA(), TestMod(r, s)) == Some(5.0 * 404.0)
  {
    TestModuliOf(r, s);
    TestParamsFilled();
    TestL1Sum();
  }

  /** An entry x or x·i with x² = 10000 has modulus 100. */
  lemma LargeEntry(i: nat, x: real)
    requires Sq(x) == 10000.0
    ensures IsModulus(100.0, Entry(i, x))
    ensures Entry(i, x) != Zero
  {
    Abs2Entry(i, x);
  }

  lemma SignLarge(i: nat, x: real)
    requires Sq(x) == 10000.0
    ensures IsModulus(100.0, Entry(i, x))
    ensures SbopdmdUtils.SignEntry(Entry(i, x), 100.0) == Entry(i, 0.01 * x)
  {
    LargeEntry(i, x);
  }

  lemma SoftLargeAt(i: nat, x: real)
    requires Sq(x) == 10000.0
    ensures IsModulus(100.0, Entry(i, x))
    ensures SbopdmdUtils.SoftEntry(Entry(i, x), 100.0, 5.0) == Entry(i, 0.95 * x)
  {
    LargeEntry(i, x);
    SignLarge(i, x);
  }

  /** soft_threshold with γ = 5 shrinks an entry of modulus 100 to modulus 95. */
  lemma SoftLarge(i: nat, x: real, m: real, gamma: real)
    requires m == 100.0 && gamma == 5.0 && Sq(x) == 10000.0
    ensures IsModulus(m, Entry(i, x))
    ensures SbopdmdUtils.SoftEntry(Entry(i, x), m, gamma) == Entry(i, 0.95 * x)
  {
    LargeEntry(i, x);
    SoftLargeAt(i, x);
  }

  /** soft_threshold with γ = 5 clears an entry of modulus 1. */
  lemma SoftSmall(i: nat, x: real, m: real, gamma: real)
    requires m == 1.0 && gamma == 5.0 && Sq(x) == 1.0
    ensures IsModulus(m, Entry(i, x))
    ensures SbopdmdUtils.SoftEntry(Entry(i, x), m, gamma) == Zero
  {
    Abs2Entry(i, x);
  }

  lemma SoftNoneAt(i: nat, gamma: real)
    ensures IsModulus(0.0, Entry(i, 0.0))
    ensures SbopdmdUtils.SoftEntry(Entry(i, 0.0), 0.0, gamma) == Zero
  {
    assert Entry(i, 0.0) == Zero;
    SbopdmdUtils.SoftEntryOfZero(gamma);
  }

  /** soft_threshold keeps 0 at 0. */
  lemma SoftNone(i: nat, x: real, m: real, gamma: real)
    requires m == 0.0 && x == 0.0
    ensures IsModulus(m, Entry(i, x))
    ensures SbopdmdUtils.SoftEntry(Entry(i, x), m, gamma) == Zero
  {
    SoftNoneAt(i, gamma);
  }

  /** soft_threshold with γ = 5 on entry (i, j) of A gives entry (i, j) of 95·[[-1, 0, 0, 0, 1], …]. */
  lemma SoftOfPattern(i: nat, j: nat, gamma: real)
    requires i < 2 && j < 5 && gamma == 5.0
    ensures IsModulus(PatternModulus(j), Entry(i, Pattern(j)))
    ensures SbopdmdUtils.SoftEntry(Entry(i, Pattern(j)), PatternModulus(j), gamma) == OuterColumns(95.0)[i][j]
  {
    PatternSquares(j);
    if j == 0 || j == 4 {
      SoftLarge(i, Pattern(j), PatternModulus(j), gamma);
    } else if j == 2 {
      SoftNone(i, Pattern(j), PatternModulus(j), gamma);
    } else {
      SoftSmall(i, Pattern(j), PatternModulus(j), gamma);
    }
  }

  /** mode_prox(A, 1.0) == 95·[[-1, 0, 0, 0, 1], [-1j, 0, 0, 0, 1j]]. */
  lemma L1Prox(r: real, s: real)
    requires Roots(r, s)
    ensures ModuliOf(TestMod(r, s), TestA())
    ensures ModeProx(Preset("l1"), NoProx, TestParams(), TestA(), 1.0, TestMod(r, s)) == Ok(Some(OuterColumns(95.0)))
  {
    TestModuliOf(r, s);
    TestParamsFilled();
    var A, M := TestA(), TestModuli();
    var Y := SbopdmdUtils.SoftThresholded(A, M, Mul(5.0, 1.0));
    forall i, j | 0 <= i < 2 && 0 <= j < 5
      ensures Y[i][j] == OuterColumns(95.0)[i][j]
    {
      SoftOfPattern(i, j, Mul(5.0, 1.0));
    }
    MatrixEq(Y, OuterColumns(95.0));
  }

  // ---------------------------------------------------------------------
  // test_l2
  // ---------------------------------------------------------------------

  /** mode_regularizer(A) == 5·L2_norm(A), and L2_norm(A) = Σ‖A[:, j]‖ = 2r + 2s. */
  lemma L2Regularizer(r: real, s: real)
    requires Roots(r, s)
    ensures ModuliOf(TestMod(r, s), TestA())
    ensures ModeRegularizer(Preset("l2"), TestParams(), TestA(), TestMod(r, s)) ==
      Some(Mul(5.0, SbopdmdUtils.L2Norm(TestA(), TestMod(r, s).columns)))
    ensures SbopdmdUtils.L2Norm(TestA(), TestMod(r, s).columns) == 2.0 * r + 2.0 * s
  {
    TestModuliOf(r, s);
    TestParamsFilled();
    ModeRegularizerPresets(TestParams(), TestA(), TestMod(r, s));
    TestL2Norm(r, s);
  }

  /** Σ‖A[:, j]‖ = 2r + 2s. */
  lemma TestL2Norm(r: real, s: real)
    requires ModuliOf(TestMod(r, s), TestA())
    ensures SbopdmdUtils.L2Norm(TestA(), TestMod(r, s).columns) == 2.0 * r + 2.0 * s
  {
    SumFive([r, s, 0.0, s, r]);
  }

  /** r = 100√2 exceeds the step 5 and s = √2 falls below it. */
  lemma RootsAroundStep(r: real, s: real)
    requires Roots(r, s)
    ensures r > 5.0 && s < 5.0
  {
    assert Sq(5.0) == 25.0;
    if r <= 5.0 {
      if r < 5.0 {
        SqMono(r, 5.0);
      }
    }
    if s >= 5.0 {
      if s > 5.0 {
        SqMono(5.0, s);
      }
    }
  }

  /** A column of norm n > 5 is multiplied by 1 − 5/n. */
  lemma GroupLargeNeg(i: nat, x: real, n: real, gamma: real)
    requires x == -100.0 && gamma == 5.0 && n > 5.0
    ensures SbopdmdUtils.GroupFactor(n, gamma) == 1.0 - 5.0 / n
    ensures Scale(SbopdmdUtils.GroupFactor(n, gamma), Entry(i, x)) == Entry(i, -(100.0 * (1.0 - 5.0 / n)))
  {
  }

  lemma GroupLargePos(i: nat, x: real, n: real, gamma: real)
    requires x == 100.0 && gamma == 5.0 && n > 5.0
    ensures SbopdmdUtils.GroupFactor(n, gamma) == 1.0 - 5.0 / n
    ensures Scale(SbopdmdUtils.GroupFactor(n, gamma), Entry(i, x)) == Entry(i, 100.0 * (1.0 - 5.0 / n))
  {
  }

  /** group_lasso with γ = 5 on entry (i, j) of A, whose column norms are r > 5 > s. */
  lemma GroupOfPattern(i: nat, j: nat, r: real, s: real, gamma: real)
    requires i < 2 && j < 5 && r > 5.0 && 0.0 <= s < 5.0 && gamma == 5.0
    ensures var n := [r, s, 0.0, s, r][j];
      Scale(SbopdmdUtils.GroupFactor(n, gamma), if n < gamma then Zero else Entry(i, Pattern(j))) ==
        OuterColumns(100.0 * (1.0 - 5.0 / r))[i][j]
  {
    var n := [r, s, 0.0, s, r][j];
    if j == 0 {
      GroupLargeNeg(i, Pattern(j), n, gamma);
    } else if j == 4 {
      GroupLargePos(i, Pattern(j), n, gamma);
    } else {
      ScaleZero(SbopdmdUtils.GroupFactor(n, gamma));
    }
  }

  /**
   * mode_prox(A, 1.0) == a·[[-1, 0, 0, 0, 1], [-1j, 0, 0, 0, 1j]] with
   * a = 100·(1 − 5/‖[100, 100]‖).
   */
  lemma L2Prox(r: real, s: real)
    requires Roots(r, s)
    ensures ModuliOf(TestMod(r, s), TestA())
    ensures ModeProx(Preset("l2"), NoProx, TestParams(), TestA(), 1.0, TestMod(r, s)) ==
      Ok(Some(OuterColumns(100.0 * (1.0 - 5.0 / r))))
  {
    TestModuliOf(r, s);
    TestParamsFilled();
    RootsAroundStep(r, s);
    var A, norms := TestA(), [r, s, 0.0, s, r];
    var a := 100.0 * (1.0 - 5.0 / r);
    var Y := SbopdmdUtils.GroupLassoOf(A, norms, Mul(5.0, 1.0));
    forall i, j | 0 <= i < 2 && 0 <= j < 5
      ensures Y[i][j] == OuterColumns(a)[i][j]
    {
      GroupOfPattern(i, j, r, s, Mul(5.0, 1.0));
    }
    MatrixEq(Y, OuterColumns(a));
  }

  // ---------------------------------------------------------------------
  // Rejected configurations
  // ---------------------------------------------------------------------

  /** An unsupported preset name and a function without mode_prox are refused. */
  lemma RejectedConfigurations(f: Matrix -> real)
    ensures ConfigCheck(Preset("l3"), NoProx) == Some(InvalidPreset)
    ensures ConfigCheck(Custom(f), NoProx) == Some(MissingProx)
    ensures ConfigCheck(Preset("l12"), NoProx) == None
  {
  }
}
