/**
 * The norm and proximal-threshold primitives of sparse BOP-DMD, and the row
 * and column helpers built on them (pydmd/sbopdmd_utils.py).
 *
 * Entries are exact complex numbers. Whenever the source takes |x| or a
 * Euclidean norm, that quantity is passed in together with the predicate
 * that fixes it (`EntryModuli`, `ColumnNorms`, `RowNorms`).
 */
module SbopdmdUtils {
  import opened Matrices

  // ---------------------------------------------------------------------
  // L0 norm: the number of nonzero entries
  // ---------------------------------------------------------------------

  /** The number of nonzero entries of a row. */
  function CountNonzero(v: seq<Complex>): (r: nat)
    ensures r <= |v|
  {
    if |v| == 0 then 0
    else CountNonzero(v[..|v| - 1]) + (if v[|v| - 1] != Zero then 1 else 0)
  }

  /** The positions of the nonzero entries of a row. */
  function NonzeroIn(v: seq<Complex>): set<nat> {
    set j: nat | j < |v| && v[j] != Zero
  }

  lemma {:induction false} CountNonzeroIsCard(v: seq<Complex>)
    ensures CountNonzero(v) == |NonzeroIn(v)|
  {
    if |v| > 0 {
      var n := |v| - 1;
      var p := v[..n];
      CountNonzeroIsCard(p);
      assert NonzeroIn(p) == set j: nat | j < n && v[j] != Zero;
      if v[n] != Zero {
        assert NonzeroIn(v) == NonzeroIn(p) + {n};
      } else {
        assert NonzeroIn(v) == NonzeroIn(p);
      }
    }
  }

  /** L0_norm: the number of nonzero entries of X. */
  function L0Norm(X: Matrix): nat {
    if |X| == 0 then 0 else L0Norm(X[..|X| - 1]) + CountNonzero(X[|X| - 1])
  }

  /** The positions (i, j) of the nonzero entries of X. */
  function NonzeroEntries(X: Matrix): set<(nat, nat)> {
    set i: nat, j: nat | i < |X| && j < |X[i]| && X[i][j] != Zero :: (i, j)
  }

  /** The positions of one row, tagged with its row index. */
  function Tagged(i: nat, s: set<nat>): set<(nat, nat)> {
    set j | j in s :: (i, j)
  }

  lemma {:induction false} TaggedCard(i: nat, s: set<nat>)
    ensures |Tagged(i, s)| == |s|
    decreases |s|
  {
    if s != {} {
      var x :| x in s;
      var s' := s - {x};
      TaggedCard(i, s');
      assert Tagged(i, s) == Tagged(i, s') + {(i, x)};
      assert (i, x) !in Tagged(i, s');
    }
  }

  /** L0_norm counts exactly the nonzero entries. */
  lemma {:induction false} L0NormCounts(X: Matrix)
    ensures L0Norm(X) == |NonzeroEntries(X)|
  {
    if |X| > 0 {
      var n := |X| - 1;
      var p := X[..n];
      L0NormCounts(p);
      CountNonzeroIsCard(X[n]);
      TaggedCard(n, NonzeroIn(X[n]));
      assert NonzeroEntries(X) == NonzeroEntries(p) + Tagged(n, NonzeroIn(X[n]));
      assert NonzeroEntries(p) !! Tagged(n, NonzeroIn(X[n]));
    }
  }

  /** Therefore 0 <= L0_norm(X) <= rows·cols. */
  lemma {:induction false} L0NormBound(X: Matrix, c: nat)
    requires IsMatrix(X, |X|, c)
    ensures L0Norm(X) <= |X| * c
  {
    if |X| > 0 {
      var n := |X| - 1;
      L0NormBound(X[..n], c);
      assert L0Norm(X) <= n * c + c;
    }
  }

  lemma {:induction false} CountNonzeroZero(v: seq<Complex>)
    ensures CountNonzero(v) == 0 <==> IsZeroVector(v)
  {
    if |v| > 0 {
      CountNonzeroZero(v[..|v| - 1]);
      assert IsZeroVector(v) <==> IsZeroVector(v[..|v| - 1]) && v[|v| - 1] == Zero by {
        assert forall j :: 0 <= j < |v| - 1 ==> v[..|v| - 1][j] == v[j];
      }
    }
  }

  /** L0_norm vanishes exactly on the zero matrix. */
  lemma {:induction false} L0NormZero(X: Matrix)
    ensures L0Norm(X) == 0 <==> IsZeroMatrix(X)
  {
    if |X| > 0 {
      var n := |X| - 1;
      L0NormZero(X[..n]);
      CountNonzeroZero(X[n]);
      assert IsZeroMatrix(X) <==> IsZeroMatrix(X[..n]) && IsZeroVector(X[n]) by {
        assert forall i :: 0 <= i < n ==> X[..n][i] == X[i];
      }
    }
  }

  // ---------------------------------------------------------------------
  // L1, L2 and squared L2 norms
  // ---------------------------------------------------------------------

  /** Σ of every entry of a real matrix. */
  function SumAll(A: seq<seq<real>>): real {
    Sum(seq(|A|, i requires 0 <= i < |A| => Sum(A[i])))
  }

  /** L1_norm: Σ |x| over the entries, with the moduli given in `A`. */
  function L1Norm(X: Matrix, A: seq<seq<real>>): (r: real)
    requires EntryModuli(A, X)
    ensures r >= 0.0
    ensures r == 0.0 <==> IsZeroMatrix(X)
  {
    var rows := seq(|A|, i requires 0 <= i < |A| => Sum(A[i]));
    forall i | 0 <= i < |A|
      ensures rows[i] >= 0.0
      ensures rows[i] == 0.0 <==> IsZeroVector(X[i])
    {
      RowModuliSum(X[i], A[i]);
    }
    SumNonnegative(rows);
    SumVanishes(rows);
    SumAll(A)
  }

  /** The sum of a row's moduli is nonnegative and vanishes exactly on a zero row. */
  lemma RowModuliSum(x: seq<Complex>, a: seq<real>)
    requires |a| == |x| && forall j :: 0 <= j < |x| ==> IsModulus(a[j], x[j])
    ensures Sum(a) >= 0.0 && (Sum(a) == 0.0 <==> IsZeroVector(x))
  {
    forall j | 0 <= j < |a|
      ensures a[j] >= 0.0 && (a[j] == 0.0 <==> x[j] == Zero)
    {
      ModulusVanishes(a[j], x[j]);
    }
    SumNonnegative(a);
    SumVanishes(a);
  }

  /** L2_norm: the sum of the column norms, given in `norms`. */
  function L2Norm(X: Matrix, norms: seq<real>): (r: real)
    requires ColumnNorms(norms, X)
    ensures r >= 0.0
    ensures r == 0.0 <==> IsZeroMatrix(X)
  {
    forall j | 0 <= j < |norms|
      ensures norms[j] >= 0.0
      ensures norms[j] == 0.0 <==> IsZeroVector(Column(X, j))
    {
      NormVanishes(norms[j], Column(X, j));
    }
    SumNonnegative(norms);
    SumVanishes(norms);
    ZeroColumns(X);
    Sum(norms)
  }

  lemma NormVanishes(n: real, v: seq<Complex>)
    requires IsNorm(n, v)
    ensures n == 0.0 <==> IsZeroVector(v)
  {
    SqPos(n);
    SumAbs2Zero(v);
  }

  /** A rectangular matrix is zero exactly when every column is. */
  lemma ZeroColumns(X: Matrix)
    requires Rectangular(X)
    ensures IsZeroMatrix(X) <==> forall j :: 0 <= j < Cols(X) ==> IsZeroVector(Column(X, j))
  {
    if forall j :: 0 <= j < Cols(X) ==> IsZeroVector(Column(X, j)) {
      forall i, j | 0 <= i < |X| && 0 <= j < |X[i]|
        ensures X[i][j] == Zero
      {
        assert Column(X, j)[i] == X[i][j];
      }
    }
  }

  /** L2_norm_squared: Σ |x|² over every entry. */
  function L2NormSquared(X: Matrix): (r: real)
    ensures r >= 0.0
    ensures r == 0.0 <==> IsZeroMatrix(X)
  {
    var rows := seq(|X|, i requires 0 <= i < |X| => SumAbs2(X[i]));
    forall i | 0 <= i < |X|
      ensures rows[i] >= 0.0 && (rows[i] == 0.0 <==> IsZeroVector(X[i]))
    {
      SumAbs2Zero(X[i]);
    }
    SumNonnegative(rows);
    SumVanishes(rows);
    Sum(rows)
  }

  // ---------------------------------------------------------------------
  // sign and soft_threshold
  // ---------------------------------------------------------------------

  /** sign of one entry with modulus m: 0 for 0, and x/|x| otherwise. */
  function SignEntry(z: Complex, m: real): Complex
    requires IsModulus(m, z)
  {
    if z == Zero then Zero
    else
      ModulusVanishes(m, z);
      Scale(1.0 / m, z)
  }

  /**
   * sign maps 0 to 0 and every other entry to a unit (|s|² = 1) whose
   * multiple by |x| gives the entry back.
   */
  lemma SignEntryUnit(z: Complex, m: real)
    requires IsModulus(m, z)
    ensures z == Zero ==> SignEntry(z, m) == Zero
    ensures z != Zero ==> Abs2(SignEntry(z, m)) == 1.0 && Scale(m, SignEntry(z, m)) == z
  {
    if z != Zero {
      ModulusVanishes(m, z);
      UnitScale(m, z);
    }
  }

  /** Dividing a nonzero entry by its modulus gives a unit that scales back. */
  lemma UnitScale(m: real, z: Complex)
    requires IsModulus(m, z) && m != 0.0
    ensures Abs2(Scale(1.0 / m, z)) == 1.0
    ensures Scale(m, Scale(1.0 / m, z)) == z
  {
    UnitAbs2(m, z);
    assert Mul(m, 1.0 / m) == 1.0 by {
      assert m * (1.0 / m) == 1.0;
    }
    ScaleScale(m, 1.0 / m, z);
  }

  lemma UnitAbs2(m: real, z: Complex)
    requires IsModulus(m, z) && m != 0.0
    ensures Abs2(Scale(1.0 / m, z)) == 1.0
  {
    Abs2Scale(1.0 / m, z);
    SqInverse(m);
  }

  lemma SqInverse(m: real)
    requires m != 0.0
    ensures Mul(Sq(1.0 / m), Sq(m)) == 1.0
  {
    SqMul(1.0 / m, m);
    assert (1.0 / m) * m == 1.0;
  }

  /** sign, entry by entry. */
  function Sign(X: Matrix, A: seq<seq<real>>): (S: Matrix)
    requires EntryModuli(A, X)
    ensures SameShape(S, X)
    ensures forall i, j :: 0 <= i < |X| && 0 <= j < |X[i]| ==>
      S[i][j] == SignEntry(X[i][j], A[i][j])
  {
    seq(|X|, i requires 0 <= i < |X| =>
      seq(|X[i]|, j requires 0 <= j < |X[i]| => SignEntry(X[i][j], A[i][j])))
  }

  /** soft_threshold of one entry: sign(x)·max(|x| − γ, 0). */
  function SoftEntry(z: Complex, m: real, gamma: real): Complex
    requires IsModulus(m, z)
  {
    Scale(Max(m - gamma, 0.0), SignEntry(z, m))
  }

  /** The factor max(|x| − γ, 0)/|x| by which soft_threshold scales x. */
  function SoftFactor(m: real, gamma: real): (f: real)
    requires m > 0.0
    ensures f >= 0.0
    ensures gamma >= 0.0 ==> f <= 1.0
  {
    var c := Max(m - gamma, 0.0);
    QuotientBounds(c, m);
    c / m
  }

  lemma QuotientBounds(c: real, m: real)
    requires 0.0 <= c && m > 0.0
    ensures c / m >= 0.0
    ensures c <= m ==> c / m <= 1.0
  {
    assert c / m * m == c;
  }

  /**
   * A nonzero soft-thresholded entry is a non-negative multiple of the
   * input (it never flips sign), no larger than the input when γ >= 0.
   */
  lemma SoftEntryMultiple(z: Complex, m: real, gamma: real)
    requires IsModulus(m, z) && z != Zero
    ensures m > 0.0
    ensures SoftEntry(z, m, gamma) == Scale(SoftFactor(m, gamma), z)
  {
    ModulusVanishes(m, z);
    var c := Max(m - gamma, 0.0);
    ScaleScale(c, 1.0 / m, z);
    assert Mul(c, 1.0 / m) == c / m;
  }

  /** The soft-thresholded entry has modulus max(|x| − γ, 0). */
  lemma SoftEntryModulus(z: Complex, m: real, gamma: real)
    requires IsModulus(m, z) && z != Zero
    ensures IsModulus(Max(m - gamma, 0.0), SoftEntry(z, m, gamma))
  {
    var c := Max(m - gamma, 0.0);
    var s := SignEntry(z, m);
    SignEntryUnit(z, m);
    Abs2Scale(c, s);
    assert Mul(Sq(c), 1.0) == Sq(c);
  }

  /** soft_threshold leaves a zero entry at zero. */
  lemma SoftEntryOfZero(gamma: real)
    ensures IsModulus(0.0, Zero)
    ensures SoftEntry(Zero, 0.0, gamma) == Zero
  {
    assert Sq(0.0) == 0.0;
    assert SignEntry(Zero, 0.0) == Zero;
    ScaleZero(Max(0.0 - gamma, 0.0));
  }

  /** With γ >= 0, soft_threshold zeroes an entry exactly when |x| <= γ. */
  lemma SoftEntryVanishes(z: Complex, m: real, gamma: real)
    requires IsModulus(m, z) && gamma >= 0.0
    ensures SoftEntry(z, m, gamma) == Zero <==> m <= gamma
  {
    ModulusVanishes(m, z);
    if z == Zero {
      assert m == 0.0;
      SoftEntryOfZero(gamma);
    } else {
      var c := Max(m - gamma, 0.0);
      var y := SoftEntry(z, m, gamma);
      SoftEntryModulus(z, m, gamma);
      ModulusVanishes(c, y);
      assert y == Zero <==> c == 0.0;
    }
  }

  /** soft_threshold is the identity at γ = 0. */
  lemma SoftEntryIdentity(z: Complex, m: real)
    requires IsModulus(m, z)
    ensures SoftEntry(z, m, 0.0) == z
  {
    if z != Zero {
      SoftEntryMultiple(z, m, 0.0);
      assert SoftFactor(m, 0.0) == 1.0;
    }
  }

  /**
   * Two soft thresholds compose into one: thresholding by a and then by b
   * (with the moduli of the intermediate result) equals thresholding by
   * a + b, for a, b >= 0.
   */
  lemma SoftEntryCompose(z: Complex, m: real, a: real, b: real)
    requires IsModulus(m, z) && a >= 0.0 && b >= 0.0
    ensures IsModulus(Max(m - a, 0.0), SoftEntry(z, m, a))
    ensures SoftEntry(SoftEntry(z, m, a), Max(m - a, 0.0), b) == SoftEntry(z, m, a + b)
  {
    if m - a <= 0.0 {
      SoftComposeVanished(z, m, a, b);
    } else {
      SoftComposeScaled(z, m, a, b);
    }
  }

  /** SoftEntryCompose, for a first result y with modulus c named by the caller. */
  lemma SoftEntryComposeAt(z: Complex, m: real, y: Complex, c: real, a: real, b: real)
    requires IsModulus(m, z) && a >= 0.0 && b >= 0.0
    requires y == SoftEntry(z, m, a) && c == Max(m - a, 0.0)
    ensures IsModulus(c, y) && SoftEntry(y, c, b) == SoftEntry(z, m, a + b)
  {
    SoftEntryCompose(z, m, a, b);
  }

  /** An entry with |x| <= a is zeroed by the threshold a, and 0 has modulus 0. */
  lemma SoftVanishedFirst(z: Complex, m: real, a: real)
    requires IsModulus(m, z) && a >= 0.0 && m - a <= 0.0
    ensures SoftEntry(z, m, a) == Zero && Max(m - a, 0.0) == 0.0
    ensures IsModulus(Max(m - a, 0.0), SoftEntry(z, m, a))
  {
    var y, c := SoftEntry(z, m, a), Max(m - a, 0.0);
    SoftEntryVanishes(z, m, a);
    assert y == Zero && c == 0.0;
    SoftEntryOfZero(a);
    assert IsModulus(0.0, Zero);
  }

  /** Case of SoftEntryCompose where the first threshold already zeroes z. */
  lemma SoftComposeVanished(z: Complex, m: real, a: real, b: real)
    requires IsModulus(m, z) && a >= 0.0 && b >= 0.0 && m - a <= 0.0
    ensures IsModulus(Max(m - a, 0.0), SoftEntry(z, m, a))
    ensures SoftEntry(SoftEntry(z, m, a), Max(m - a, 0.0), b) == SoftEntry(z, m, a + b)
  {
    SoftVanishedFirst(z, m, a);
    var y, c := SoftEntry(z, m, a), Max(m - a, 0.0);
    assert y == Zero && c == 0.0;
    SoftEntryOfZero(b);
    assert SoftEntry(y, c, b) == Zero;
    SoftEntryVanishes(z, m, a + b);
  }

  /** Case of SoftEntryCompose where z survives the first threshold. */
  lemma SoftComposeScaled(z: Complex, m: real, a: real, b: real)
    requires IsModulus(m, z) && a >= 0.0 && b >= 0.0 && m - a > 0.0
    ensures IsModulus(Max(m - a, 0.0), SoftEntry(z, m, a))
    ensures SoftEntry(SoftEntry(z, m, a), Max(m - a, 0.0), b) == SoftEntry(z, m, a + b)
  {
    var ma := Max(m - a, 0.0);
    var y := SoftEntry(z, m, a);
    var fa, fb := SoftFactor(m, a), SoftFactor(ma, b);
    ModulusVanishes(m, z);
    SoftEntryModulus(z, m, a);
    ModulusVanishes(ma, y);
    SoftEntryMultiple(z, m, a);
    SoftEntryMultiple(y, ma, b);
    SoftEntryMultiple(z, m, a + b);
    SoftFactorCompose(m, a, b);
    ScaleScale(fb, fa, z);
  }

  /** The scale factors of two soft thresholds multiply to that of their sum. */
  lemma SoftFactorCompose(m: real, a: real, b: real)
    requires m - a > 0.0 && a >= 0.0
    ensures Mul(SoftFactor(Max(m - a, 0.0), b), SoftFactor(m, a)) == SoftFactor(m, a + b)
  {
    var d := m - a;
    var c := Max(d - b, 0.0);
    assert Max(m - a, 0.0) == d;
    assert SoftFactor(d, b) == c / d;
    assert SoftFactor(m, a) == d / m;
    assert SoftFactor(m, a + b) == c / m;
    assert Mul(c / d, d / m) == c / m;
  }

  /** soft_threshold, entry by entry. */
  function SoftThresholded(X: Matrix, A: seq<seq<real>>, gamma: real): (Y: Matrix)
    requires EntryModuli(A, X)
    ensures SameShape(Y, X)
    ensures forall i, j :: 0 <= i < |X| && 0 <= j < |X[i]| ==>
      Y[i][j] == SoftEntry(X[i][j], A[i][j], gamma)
  {
    seq(|X|, i requires 0 <= i < |X| =>
      seq(|X[i]|, j requires 0 <= j < |X[i]| => SoftEntry(X[i][j], A[i][j], gamma)))
  }

  /** The moduli max(|x| − γ, 0) of a soft-thresholded matrix. */
  function SoftModuli(A: seq<seq<real>>, gamma: real): (B: seq<seq<real>>)
    ensures |B| == |A| && forall i :: 0 <= i < |A| ==> |B[i]| == |A[i]|
  {
    seq(|A|, i requires 0 <= i < |A| =>
      seq(|A[i]|, j requires 0 <= j < |A[i]| => Max(A[i][j] - gamma, 0.0)))
  }

  /** soft_threshold zeroes exactly the entries with |x| <= γ, for γ >= 0. */
  lemma SoftThresholdZeroes(X: Matrix, A: seq<seq<real>>, gamma: real)
    requires EntryModuli(A, X) && gamma >= 0.0
    ensures forall i, j :: 0 <= i < |X| && 0 <= j < |X[i]| ==>
      (SoftThresholded(X, A, gamma)[i][j] == Zero <==> A[i][j] <= gamma)
  {
    forall i, j | 0 <= i < |X| && 0 <= j < |X[i]|
      ensures SoftThresholded(X, A, gamma)[i][j] == Zero <==> A[i][j] <= gamma
    {
      SoftEntryVanishes(X[i][j], A[i][j], gamma);
    }
  }

  /** soft_threshold is the identity at γ = 0. */
  lemma SoftThresholdIdentity(X: Matrix, A: seq<seq<real>>)
    requires EntryModuli(A, X)
    ensures SoftThresholded(X, A, 0.0) == X
  {
    var Y := SoftThresholded(X, A, 0.0);
    forall i | 0 <= i < |X|
      ensures Y[i] == X[i]
    {
      forall j | 0 <= j < |X[i]|
        ensures Y[i][j] == X[i][j]
      {
        SoftEntryIdentity(X[i][j], A[i][j]);
      }
    }
  }

  /** soft(soft(X, a), b) == soft(X, a + b) for a, b >= 0. */
  lemma SoftThresholdCompose(X: Matrix, A: seq<seq<real>>, a: real, b: real)
    requires EntryModuli(A, X) && a >= 0.0 && b >= 0.0
    ensures EntryModuli(SoftModuli(A, a), SoftThresholded(X, A, a))
    ensures SoftThresholded(SoftThresholded(X, A, a), SoftModuli(A, a), b)
         == SoftThresholded(X, A, a + b)
  {
    var Y := SoftThresholded(X, A, a);
    var B := SoftModuli(A, a);
    forall i, j | 0 <= i < |X| && 0 <= j < |X[i]|
      ensures IsModulus(B[i][j], Y[i][j])
      ensures SoftEntry(Y[i][j], B[i][j], b) == SoftEntry(X[i][j], A[i][j], a + b)
    {
      SoftEntryComposeAt(X[i][j], A[i][j], Y[i][j], B[i][j], a, b);
    }
    var Z := SoftThresholded(Y, B, b);
    var W := SoftThresholded(X, A, a + b);
    forall i | 0 <= i < |X|
      ensures Z[i] == W[i]
    {
    }
  }

  // ---------------------------------------------------------------------
  // hard_threshold
  // ---------------------------------------------------------------------

  /** hard_threshold of one entry: 0 when |x|² < 2γ, the entry otherwise. */
  function HardEntry(z: Complex, gamma: real): Complex {
    if Abs2(z) < 2.0 * gamma then Zero else z
  }

  /** hard_threshold, entry by entry. */
  function HardThresholded(X: Matrix, gamma: real): (Y: Matrix)
    ensures SameShape(Y, X)
    ensures forall i, j :: 0 <= i < |X| && 0 <= j < |X[i]| ==>
      Y[i][j] == HardEntry(X[i][j], gamma)
  {
    seq(|X|, i requires 0 <= i < |X| =>
      seq(|X[i]|, j requires 0 <= j < |X[i]| => HardEntry(X[i][j], gamma)))
  }

  /**
   * hard_threshold: copy X, then zero every entry with |x|² < 2γ in place.
   * Each output entry is 0 exactly when |x|² < 2γ and is the input entry
   * otherwise.
   */
  method HardThreshold(X: Matrix, gamma: real) returns (Y: Matrix)
    ensures Y == HardThresholded(X, gamma)
    ensures SameShape(Y, X)
    ensures forall i, j :: 0 <= i < |X| && 0 <= j < |X[i]| ==>
      (Y[i][j] == Zero && Abs2(X[i][j]) < 2.0 * gamma) ||
      (Y[i][j] == X[i][j] && Abs2(X[i][j]) >= 2.0 * gamma)
  {
    Y := X;
    var i := 0;
    while i < |X|
      invariant 0 <= i <= |X|
      invariant |Y| == |X|
      invariant forall k :: 0 <= k < i ==> Y[k] == HardThresholded(X, gamma)[k]
      invariant forall k :: i <= k < |X| ==> Y[k] == X[k]
    {
      var j := 0;
      while j < |X[i]|
        invariant 0 <= j <= |X[i]|
        invariant |Y| == |X| && |Y[i]| == |X[i]|
        invariant forall l :: 0 <= l < j ==> Y[i][l] == HardEntry(X[i][l], gamma)
        invariant forall l :: j <= l < |X[i]| ==> Y[i][l] == X[i][l]
        invariant forall k :: 0 <= k < i ==> Y[k] == HardThresholded(X, gamma)[k]
        invariant forall k :: i < k < |X| ==> Y[k] == X[k]
      {
        if Abs2(Y[i][j]) < 2.0 * gamma {
          Y := Y[i := Y[i][j := Zero]];
        }
        j := j + 1;
      }
      assert Y[i] == HardThresholded(X, gamma)[i];
      i := i + 1;
    }
  }

  /** hard_threshold returns X unchanged when γ <= 0. */
  lemma HardThresholdIdentity(X: Matrix, gamma: real)
    requires gamma <= 0.0
    ensures HardThresholded(X, gamma) == X
  {
    var Y := HardThresholded(X, gamma);
    forall i | 0 <= i < |X|
      ensures Y[i] == X[i]
    {
    }
  }

  /** Applying hard_threshold twice equals applying it once. */
  lemma HardThresholdIdempotent(X: Matrix, gamma: real)
    ensures HardThresholded(HardThresholded(X, gamma), gamma) == HardThresholded(X, gamma)
  {
    var Y := HardThresholded(X, gamma);
    var Z := HardThresholded(Y, gamma);
    forall i | 0 <= i < |X|
      ensures Z[i] == Y[i]
    {
      forall j | 0 <= j < |X[i]|
        ensures Z[i][j] == Y[i][j]
      {
        if Y[i][j] == Zero {
          assert HardEntry(Zero, gamma) == Zero;
        }
      }
    }
  }

  lemma {:induction false} CountNonzeroMono(v: seq<Complex>, w: seq<Complex>)
    requires |v| == |w|
    requires forall j :: 0 <= j < |v| ==> w[j] != Zero ==> v[j] != Zero
    ensures CountNonzero(w) <= CountNonzero(v)
  {
    if |v| > 0 {
      CountNonzeroMono(v[..|v| - 1], w[..|w| - 1]);
    }
  }

  /** hard_threshold never adds a nonzero entry, so L0_norm does not grow. */
  lemma {:induction false} HardThresholdSparsifies(X: Matrix, gamma: real)
    ensures L0Norm(HardThresholded(X, gamma)) <= L0Norm(X)
  {
    if |X| > 0 {
      var n := |X| - 1;
      var Y := HardThresholded(X, gamma);
      assert Y[..n] == HardThresholded(X[..n], gamma);
      HardThresholdSparsifies(X[..n], gamma);
      CountNonzeroMono(X[n], Y[n]);
    }
  }

  // ---------------------------------------------------------------------
  // group_lasso
  // ---------------------------------------------------------------------

  /** The column norm after small norms (< γ) are replaced by 1. */
  function AdjustedNorm(n: real, gamma: real): (r: real)
    ensures n >= 0.0 && gamma > 0.0 ==> r > 0.0
  {
    if n < gamma then 1.0 else n
  }

  /** The diagonal factor 1 − γ/norm that group_lasso applies to a column. */
  function GroupFactor(n: real, gamma: real): real
    requires n >= 0.0 && gamma > 0.0
  {
    1.0 - gamma / AdjustedNorm(n, gamma)
  }

  /**
   * group_lasso as one expression: a column whose norm is below γ is
   * cleared, and then every column j is multiplied by GroupFactor(n_j, γ).
   */
  function GroupLassoOf(X: Matrix, norms: seq<real>, gamma: real): (Y: Matrix)
    requires ColumnNorms(norms, X) && gamma > 0.0
    ensures SameShape(Y, X)
  {
    seq(|X|, i requires 0 <= i < |X| =>
      seq(|X[i]|, j requires 0 <= j < |X[i]| =>
        Scale(GroupFactor(norms[j], gamma), if norms[j] < gamma then Zero else X[i][j])))
  }

  /** A row with the entries of the flagged columns replaced by 0. */
  function ClearedRow(row: seq<Complex>, small: seq<bool>): (r: seq<Complex>)
    requires |row| == |small|
    ensures |r| == |row|
  {
    seq(|row|, l requires 0 <= l < |row| => if small[l] then Zero else row[l])
  }

  /** A row times diag(factors). */
  function ScaledRow(row: seq<Complex>, factors: seq<real>): (r: seq<Complex>)
    requires |row| == |factors|
    ensures |r| == |row|
  {
    seq(|row|, l requires 0 <= l < |row| => Scale(factors[l], row[l]))
  }

  /** col_norms[inds_small] = 1.0, one column at a time. */
  method AdjustNorms(norms: seq<real>, gamma: real) returns (colNorms: seq<real>)
    ensures |colNorms| == |norms|
    ensures forall k :: 0 <= k < |norms| ==> colNorms[k] == AdjustedNorm(norms[k], gamma)
  {
    colNorms := norms;
    var j := 0;
    while j < |colNorms|
      invariant 0 <= j <= |colNorms| == |norms|
      invariant forall k :: 0 <= k < |norms| ==>
        colNorms[k] == if k < j then AdjustedNorm(norms[k], gamma) else norms[k]
    {
      if norms[j] < gamma {
        colNorms := colNorms[j := 1.0];
      }
      j := j + 1;
    }
  }

  /** X_thres[:, inds_small] = 0.0 on a copy of X, row by row. */
  method ClearColumns(X: Matrix, small: seq<bool>) returns (Y: Matrix)
    requires forall k :: 0 <= k < |X| ==> |X[k]| == |small|
    ensures |Y| == |X|
    ensures forall k :: 0 <= k < |X| ==> Y[k] == ClearedRow(X[k], small)
  {
    Y := X;
    var i := 0;
    while i < |Y|
      invariant 0 <= i <= |Y| == |X|
      invariant forall k :: 0 <= k < |X| ==>
        Y[k] == if k < i then ClearedRow(X[k], small) else X[k]
    {
      var row := Y[i];
      var l := 0;
      while l < |row|
        invariant 0 <= l <= |row| == |X[i]|
        invariant forall l' :: 0 <= l' < |row| ==>
          row[l'] == if l' < l then ClearedRow(X[i], small)[l'] else X[i][l']
      {
        if small[l] {
          row := row[l := Zero];
        }
        l := l + 1;
      }
      assert row == ClearedRow(X[i], small);
      Y := Y[i := row];
      i := i + 1;
    }
  }

  /** X_thres.dot(np.diag(factors)), row by row. */
  method ScaleColumns(X: Matrix, factors: seq<real>) returns (Y: Matrix)
    requires forall k :: 0 <= k < |X| ==> |X[k]| == |factors|
    ensures |Y| == |X|
    ensures forall k :: 0 <= k < |X| ==> Y[k] == ScaledRow(X[k], factors)
  {
    Y := X;
    var i := 0;
    while i < |Y|
      invariant 0 <= i <= |Y| == |X|
      invariant forall k :: 0 <= k < |X| ==>
        Y[k] == if k < i then ScaledRow(X[k], factors) else X[k]
    {
      var row := Y[i];
      var l := 0;
      while l < |row|
        invariant 0 <= l <= |row| == |X[i]|
        invariant forall l' :: 0 <= l' < |row| ==>
          row[l'] == if l' < l then ScaledRow(X[i], factors)[l'] else X[i][l']
      {
        row := row[l := Scale(factors[l], row[l])];
        l := l + 1;
      }
      assert row == ScaledRow(X[i], factors);
      Y := Y[i := row];
      i := i + 1;
    }
  }

  /**
   * group_lasso: replace the small column norms by 1, clear the small
   * columns of a copy of X, then multiply each column j by 1 − γ/n_j.
   */
  method GroupLasso(X: Matrix, norms: seq<real>, gamma: real) returns (Y: Matrix)
    requires ColumnNorms(norms, X) && gamma > 0.0
    ensures Y == GroupLassoOf(X, norms, gamma)
  {
    var small := seq(|norms|, j requires 0 <= j < |norms| => norms[j] < gamma);
    var colNorms := AdjustNorms(norms, gamma);
    var cleared := ClearColumns(X, small);
    var factors := seq(|colNorms|, l requires 0 <= l < |colNorms| => 1.0 - gamma / colNorms[l]);
    Y := ScaleColumns(cleared, factors);
    forall k | 0 <= k < |X|
      ensures Y[k] == GroupLassoOf(X, norms, gamma)[k]
    {
      forall l | 0 <= l < |X[k]|
        ensures Y[k][l] == GroupLassoOf(X, norms, gamma)[k][l]
      {
        assert factors[l] == GroupFactor(norms[l], gamma);
      }
    }
  }

  /**
   * Entry by entry: a column whose norm is <= γ is all zero, and every
   * other column is the input column multiplied by 1 − γ/norm.
   */
  lemma GroupLassoEntry(X: Matrix, norms: seq<real>, gamma: real, i: nat, j: nat)
    requires ColumnNorms(norms, X) && gamma > 0.0
    requires i < |X| && j < |X[i]|
    ensures norms[j] <= gamma ==> GroupLassoOf(X, norms, gamma)[i][j] == Zero
    ensures norms[j] > gamma ==>
      GroupLassoOf(X, norms, gamma)[i][j] == Scale(1.0 - gamma / norms[j], X[i][j])
  {
    var n := norms[j];
    assert IsNorm(n, Column(X, j));
    if n < gamma {
      ScaleZero(GroupFactor(n, gamma));
    } else if n == gamma {
      assert GroupFactor(n, gamma) == 0.0;
      ScaleByZero(X[i][j]);
    }
  }

  /** Column j of the result, as a scaled copy of column j of X. */
  lemma GroupLassoColumn(X: Matrix, norms: seq<real>, gamma: real, j: nat)
    requires ColumnNorms(norms, X) && gamma > 0.0 && j < Cols(X)
    ensures Rectangular(GroupLassoOf(X, norms, gamma))
    ensures Cols(GroupLassoOf(X, norms, gamma)) == Cols(X)
    ensures norms[j] <= gamma ==> IsZeroVector(Column(GroupLassoOf(X, norms, gamma), j))
    ensures norms[j] > gamma ==>
      Column(GroupLassoOf(X, norms, gamma), j) == ScaleVector(1.0 - gamma / norms[j], Column(X, j))
  {
    var Y := GroupLassoOf(X, norms, gamma);
    forall i | 0 <= i < |X|
      ensures norms[j] <= gamma ==> Y[i][j] == Zero
      ensures norms[j] > gamma ==> Y[i][j] == Scale(1.0 - gamma / norms[j], X[i][j])
    {
      GroupLassoEntry(X, norms, gamma, i, j);
    }
  }

  /** The factor 1 − γ/n of a surviving column is positive and n·(1 − γ/n) = n − γ. */
  lemma GroupFactorPositive(n: real, gamma: real)
    requires n > gamma > 0.0
    ensures 1.0 - gamma / n > 0.0
    ensures (1.0 - gamma / n) * n == n - gamma
  {
    assert gamma / n * n == gamma;
    assert (n - gamma) / n > 0.0;
    assert gamma / n + (n - gamma) / n == n / n;
    assert n / n == 1.0;
  }

  /** group_lasso zeroes column j exactly when its norm is <= γ. */
  lemma GroupLassoZeroesColumn(X: Matrix, norms: seq<real>, gamma: real, j: nat)
    requires ColumnNorms(norms, X) && gamma > 0.0 && j < Cols(X)
    ensures Rectangular(GroupLassoOf(X, norms, gamma))
    ensures Cols(GroupLassoOf(X, norms, gamma)) == Cols(X)
    ensures IsZeroVector(Column(GroupLassoOf(X, norms, gamma), j)) <==> norms[j] <= gamma
  {
    GroupLassoColumn(X, norms, gamma, j);
    var n := norms[j];
    if n > gamma {
      var f := 1.0 - gamma / n;
      var c := Column(X, j);
      GroupFactorPositive(n, gamma);
      NormVanishes(n, c);
      SumAbs2Zero(c);
      SumAbs2Scale(f, c);
      SqPos(f);
      MulPositive(Sq(f), SumAbs2(c));
      SumAbs2Zero(ScaleVector(f, c));
    }
  }

  /** After group_lasso, column j has norm max(n_j − γ, 0). */
  lemma GroupLassoShrinksColumn(X: Matrix, norms: seq<real>, gamma: real, j: nat)
    requires ColumnNorms(norms, X) && gamma > 0.0 && j < Cols(X)
    ensures Rectangular(GroupLassoOf(X, norms, gamma))
    ensures Cols(GroupLassoOf(X, norms, gamma)) == Cols(X)
    ensures IsNorm(Max(norms[j] - gamma, 0.0), Column(GroupLassoOf(X, norms, gamma), j))
  {
    GroupLassoColumn(X, norms, gamma, j);
    var n := norms[j];
    var col := Column(GroupLassoOf(X, norms, gamma), j);
    if n <= gamma {
      SumAbs2Zero(col);
      assert Sq(0.0) == 0.0;
    } else {
      assert IsNorm(n, Column(X, j));
      ScaledNorm(n, gamma, Column(X, j));
    }
  }

  /** Multiplying a vector of norm n > γ by 1 − γ/n leaves norm n − γ. */
  lemma ScaledNorm(n: real, gamma: real, c: seq<Complex>)
    requires IsNorm(n, c) && n > gamma > 0.0
    ensures IsNorm(n - gamma, ScaleVector(1.0 - gamma / n, c))
  {
    var f := 1.0 - gamma / n;
    GroupFactorPositive(n, gamma);
    SumAbs2Scale(f, c);
    SqMul(f, n);
    assert f * n == n - gamma;
  }

  // ---------------------------------------------------------------------
  // scaled_hard_threshold and scaled_soft_threshold
  // ---------------------------------------------------------------------

  /** The denominator 1 + 2γβ of the scale. */
  function ScaleDenominator(gamma: real, beta: real): real {
    1.0 + 2.0 * (gamma * beta)
  }

  /**
   * scale = 1 / (1 + 2γβ); None where the float division raises
   * ZeroDivisionError.
   */
  function ThresholdScale(gamma: real, beta: real): (r: Option<real>)
    ensures r.None? <==> ScaleDenominator(gamma, beta) == 0.0
    ensures r.Some? ==> r.value * ScaleDenominator(gamma, beta) == 1.0
  {
    var d := ScaleDenominator(gamma, beta);
    if d == 0.0 then None else Some(1.0 / d)
  }

  /** For γ, β >= 0 the scale exists and lies in (0, 1]. */
  lemma ThresholdScaleBounds(gamma: real, beta: real)
    requires gamma >= 0.0 && beta >= 0.0
    ensures ThresholdScale(gamma, beta).Some?
    ensures 0.0 < ThresholdScale(gamma, beta).value <= 1.0
  {
    var d := ScaleDenominator(gamma, beta);
    assert gamma * beta >= 0.0 by {
      if gamma > 0.0 && beta > 0.0 {
        PosProduct(gamma, beta);
      }
    }
    assert d >= 1.0;
    QuotientBounds(1.0, d);
    assert 1.0 / d > 0.0;
  }

  /** The scale is 1 when β = 0. */
  lemma ThresholdScaleUnit(gamma: real)
    ensures ThresholdScale(gamma, 0.0) == Some(1.0)
  {
    assert ScaleDenominator(gamma, 0.0) == 1.0;
  }

  /** scaled_hard_threshold: s·hard_threshold(X, γα/s) with s = 1/(1 + 2γβ). */
  function ScaledHardThresholded(X: Matrix, gamma: real, alpha: real, beta: real): Option<Matrix> {
    match ThresholdScale(gamma, beta)
    case None => None
    case Some(s) => Some(ScaleMatrix(s, HardThresholded(X, gamma * alpha / s)))
  }

  /** scaled_soft_threshold: s·soft_threshold(X, γα) with s = 1/(1 + 2γβ). */
  function ScaledSoftThresholded(X: Matrix, A: seq<seq<real>>, gamma: real, alpha: real, beta: real): Option<Matrix>
    requires EntryModuli(A, X)
  {
    match ThresholdScale(gamma, beta)
    case None => None
    case Some(s) => Some(ScaleMatrix(s, SoftThresholded(X, A, gamma * alpha)))
  }

  lemma ScaleMatrixByOne(X: Matrix)
    ensures ScaleMatrix(1.0, X) == X
  {
    forall i | 0 <= i < |X|
      ensures ScaleMatrix(1.0, X)[i] == X[i]
    {
      ScaleVectorByOne(X[i]);
    }
  }

  /** Without the L2² term (β = 0) the scaled variants are the plain thresholds. */
  lemma ScaledThresholdsReduce(X: Matrix, A: seq<seq<real>>, gamma: real, alpha: real)
    requires EntryModuli(A, X)
    ensures ScaledHardThresholded(X, gamma, alpha, 0.0) == Some(HardThresholded(X, gamma * alpha))
    ensures ScaledSoftThresholded(X, A, gamma, alpha, 0.0) == Some(SoftThresholded(X, A, gamma * alpha))
  {
    ThresholdScaleUnit(gamma);
    assert gamma * alpha / 1.0 == gamma * alpha;
    ScaleMatrixByOne(HardThresholded(X, gamma * alpha));
    ScaleMatrixByOne(SoftThresholded(X, A, gamma * alpha));
  }

  /**
   * Entry by entry, scaled_hard_threshold is 0 where |x|² < 2γα(1 + 2γβ)
   * and s·x elsewhere.
   */
  lemma ScaledHardEntry(X: Matrix, gamma: real, alpha: real, beta: real, i: nat, j: nat)
    requires ScaleDenominator(gamma, beta) != 0.0
    requires i < |X| && j < |X[i]|
    ensures ScaledHardThresholded(X, gamma, alpha, beta).Some?
    ensures var s := ThresholdScale(gamma, beta).value;
      ScaledHardThresholded(X, gamma, alpha, beta).value[i][j] ==
        if Abs2(X[i][j]) < 2.0 * (gamma * alpha * ScaleDenominator(gamma, beta))
        then Zero else Scale(s, X[i][j])
  {
    var d := ScaleDenominator(gamma, beta);
    var s := 1.0 / d;
    assert gamma * alpha / s == gamma * alpha * d;
    ScaleZero(s);
  }

  /**
   * With γ, β >= 0 and γα >= 0, scaled_soft_threshold zeroes exactly the
   * entries with |x| <= γα.
   */
  lemma ScaledSoftZeroes(X: Matrix, A: seq<seq<real>>, gamma: real, alpha: real, beta: real, i: nat, j: nat)
    requires EntryModuli(A, X) && gamma >= 0.0 && beta >= 0.0 && gamma * alpha >= 0.0
    requires i < |X| && j < |X[i]|
    ensures ScaledSoftThresholded(X, A, gamma, alpha, beta).Some?
    ensures ScaledSoftThresholded(X, A, gamma, alpha, beta).value[i][j] == Zero <==> A[i][j] <= gamma * alpha
  {
    ThresholdScaleBounds(gamma, beta);
    var s := ThresholdScale(gamma, beta).value;
    var y := SoftThresholded(X, A, gamma * alpha)[i][j];
    SoftEntryVanishes(X[i][j], A[i][j], gamma * alpha);
    ScaleNonzero(s, y);
  }

  // ---------------------------------------------------------------------
  // split_B
  // ---------------------------------------------------------------------

  /** np.finfo(float).eps, the spacing of doubles at 1. */
  const Eps: real := 2.220446049250313e-16

  /** The cut-off 10·eps·max(b) below which a mode amplitude counts as small. */
  function AmplitudeTol(b: seq<real>): real
    requires |b| > 0
  {
    10.0 * Eps * MaxOf(b)
  }

  /** The source's test for a small amplitude: |b[k]| < 10·eps·max(b). */
  predicate SmallAsWritten(b: seq<real>, k: nat)
    requires k < |b|
  {
    (if b[k] < 0.0 then -b[k] else b[k]) < AmplitudeTol(b)
  }

  /** The divisors diag(1/b) uses, as the source computes them. */
  function DivisorsAsWritten(b: seq<real>): (d: seq<real>)
    requires |b| > 0
    ensures |d| == |b|
  {
    seq(|b|, k requires 0 <= k < |b| => if SmallAsWritten(b, k) then 1.0 else b[k])
  }

  /**
   * As written, an all-zero B gets the cut-off 0, no row counts as small,
   * and the row is divided by the amplitude 0.
   */
  lemma ZeroModesDividedByZero()
    ensures RowNorms([0.0], [[Zero]])
    ensures !SmallAsWritten([0.0], 0)
    ensures DivisorsAsWritten([0.0])[0] == 0.0
  {
    assert SumAbs2([Zero]) == 0.0 by {
      SumAbs2Zero([Zero]);
    }
    assert Sq(0.0) == 0.0;
    assert MaxOf([0.0]) == 0.0;
  }

  /**
   * The corrected test: a row is removed when its amplitude is below the
   * cut-off or is exactly 0. It agrees with the source's test whenever
   * some row is nonzero.
   */
  predicate Degenerate(b: seq<real>, k: nat)
    requires k < |b|
  {
    SmallAsWritten(b, k) || b[k] == 0.0
  }

  /** The divisors with the corrected test. */
  function Divisors(b: seq<real>): (d: seq<real>)
    requires |b| > 0
    ensures |d| == |b|
  {
    seq(|b|, k requires 0 <= k < |b| => if Degenerate(b, k) then 1.0 else b[k])
  }

  /** With non-negative amplitudes, no corrected divisor is 0. */
  lemma DivisorsNonzero(b: seq<real>)
    requires |b| > 0 && forall k :: 0 <= k < |b| ==> b[k] >= 0.0
    ensures forall k :: 0 <= k < |b| ==> Divisors(b)[k] > 0.0
  {
  }

  /** The two tests classify every row alike as soon as max(b) > 0. */
  lemma DegenerateAgrees(b: seq<real>, k: nat)
    requires k < |b| && forall l :: 0 <= l < |b| ==> b[l] >= 0.0
    requires MaxOf(b) > 0.0
    ensures Degenerate(b, k) <==> SmallAsWritten(b, k)
  {
    assert AmplitudeTol(b) > 0.0;
  }

  /** The two results of split_B. */
  datatype Split = Split(modes: Matrix, amplitudes: seq<real>)

  /**
   * split_B as one expression: every row whose amplitude (row norm) is
   * degenerate becomes a zero row with amplitude 0; every other row is
   * divided by its amplitude. An empty B has no maximum (np.max raises),
   * which is None.
   */
  function SplitOf(B: Matrix, b: seq<real>): Option<Split>
    requires RowNorms(b, B)
  {
    if |B| == 0 then None
    else Some(Split(
      seq(|B|, k requires 0 <= k < |B| =>
        if Degenerate(b, k) then ZeroVector(|B[k]|) else ScaleVector(1.0 / b[k], B[k])),
      seq(|B|, k requires 0 <= k < |B| => if Degenerate(b, k) then 0.0 else b[k])))
  }

  /** First step of split_B: the amplitudes with every small one replaced by 1. */
  method ReplaceSmall(norms: seq<real>) returns (b: seq<real>)
    requires |norms| > 0
    ensures b == Divisors(norms)
  {
    b := norms;
    var k := 0;
    while k < |b|
      invariant 0 <= k <= |b| == |norms|
      invariant forall l :: 0 <= l < |b| ==> b[l] == if l < k then Divisors(norms)[l] else norms[l]
    {
      if Degenerate(norms, k) {
        b := b[k := 1.0];
      }
      k := k + 1;
    }
  }

  /** Second step of split_B: diag(1/b)·B, each row divided by its entry of b. */
  method DivideRows(B: Matrix, b: seq<real>) returns (modes: Matrix)
    requires |b| == |B| && forall k :: 0 <= k < |b| ==> b[k] != 0.0
    ensures modes == seq(|B|, k requires 0 <= k < |B| => ScaleVector(1.0 / b[k], B[k]))
  {
    modes := B;
    var k := 0;
    while k < |modes|
      invariant 0 <= k <= |modes| == |B|
      invariant forall l :: 0 <= l < |B| ==>
        modes[l] == if l < k then ScaleVector(1.0 / b[l], B[l]) else B[l]
    {
      modes := modes[k := ScaleVector(1.0 / b[k], B[k])];
      k := k + 1;
    }
  }

  /** Last step of split_B: clear the small rows of the modes and their amplitudes. */
  method ClearSmall(B: Matrix, norms: seq<real>, modes0: Matrix, b0: seq<real>)
    returns (modes: Matrix, b: seq<real>)
    requires |norms| == |B| == |modes0| == |b0| > 0
    ensures |modes| == |b| == |B|
    ensures forall k :: 0 <= k < |B| ==>
      modes[k] == (if Degenerate(norms, k) then ZeroVector(|B[k]|) else modes0[k]) &&
      b[k] == (if Degenerate(norms, k) then 0.0 else b0[k])
  {
    modes, b := modes0, b0;
    var k := 0;
    while k < |modes|
      invariant 0 <= k <= |modes| == |B| == |b|
      invariant forall l :: 0 <= l < |B| ==>
        modes[l] == (if l < k && Degenerate(norms, l) then ZeroVector(|B[l]|) else modes0[l]) &&
        b[l] == (if l < k && Degenerate(norms, l) then 0.0 else b0[l])
    {
      if Degenerate(norms, k) {
        modes := modes[k := ZeroVector(|B[k]|)];
        b := b[k := 0.0];
      }
      k := k + 1;
    }
  }

  /**
   * split_B: take the row norms b, replace the small ones by 1, divide each
   * row by its entry of b, then clear the small rows and their amplitudes.
   */
  method SplitB(B: Matrix, norms: seq<real>) returns (r: Option<Split>)
    requires RowNorms(norms, B)
    ensures r == SplitOf(B, norms)
  {
    if |B| == 0 {
      return None;
    }
    var b := ReplaceSmall(norms);
    DivisorsNonzero(norms);
    var modes := DivideRows(B, b);
    modes, b := ClearSmall(B, norms, modes, b);
    r := Some(Split(modes, b));
    ghost var spec := SplitOf(B, norms).value;
    assert forall k :: 0 <= k < |B| ==> modes[k] == spec.modes[k] && b[k] == spec.amplitudes[k];
    assert modes == spec.modes && b == spec.amplitudes;
  }

  /** Dividing a vector of norm b > 0 by b gives a unit vector that scales back. */
  lemma NormalizedRow(b: real, v: seq<Complex>)
    requires IsNorm(b, v) && b > 0.0
    ensures IsNorm(1.0, ScaleVector(1.0 / b, v))
    ensures ScaleVector(b, ScaleVector(1.0 / b, v)) == v
  {
    SumAbs2Scale(1.0 / b, v);
    SqInverse(b);
    assert Sq(1.0) == 1.0;
    assert Mul(b, 1.0 / b) == 1.0 by {
      assert b * (1.0 / b) == 1.0;
    }
    forall j | 0 <= j < |v|
      ensures ScaleVector(b, ScaleVector(1.0 / b, v))[j] == v[j]
    {
      ScaleScale(b, 1.0 / b, v[j]);
      ScaleByOne(v[j]);
    }
  }

  /**
   * What split_B promises, row by row: a degenerate row has amplitude 0 and
   * a zero mode; every other row has its norm as amplitude and a unit-norm
   * mode, and amplitude times mode gives the row of B back.
   */
  lemma SplitRows(B: Matrix, b: seq<real>, k: nat)
    requires RowNorms(b, B) && k < |B|
    ensures SplitOf(B, b).Some?
    ensures var r := SplitOf(B, b).value;
      |r.modes| == |r.amplitudes| == |B| &&
      (Degenerate(b, k) ==> r.amplitudes[k] == 0.0 && IsZeroVector(r.modes[k]) && |r.modes[k]| == |B[k]|) &&
      (!Degenerate(b, k) ==>
        r.amplitudes[k] == b[k] > 0.0 && IsNorm(1.0, r.modes[k]) &&
        ScaleVector(r.amplitudes[k], r.modes[k]) == B[k])
  {
    if !Degenerate(b, k) {
      assert IsNorm(b[k], B[k]);
      NormalizedRow(b[k], B[k]);
    }
  }

  // ---------------------------------------------------------------------
  // get_nonzero_cols
  // ---------------------------------------------------------------------

  /** The default tolerance of get_nonzero_cols, 1e-16. */
  const NonzeroTol: real := 0.0000000000000001

  /** |x| < tol, stated on |x|² (|x| >= 0, so it never holds when tol <= 0). */
  predicate BelowTol(z: Complex, tol: real) {
    tol > 0.0 && Abs2(z) < Sq(tol)
  }

  /** BelowTol is the comparison |x| < tol on the modulus itself. */
  lemma BelowTolModulus(z: Complex, m: real, tol: real)
    requires IsModulus(m, z)
    ensures BelowTol(z, tol) <==> m < tol
  {
    if tol > 0.0 {
      if m < tol {
        SqMono(m, tol);
      } else if tol < m {
        SqMono(tol, m);
      }
    }
  }

  /** The working copy get_nonzero_cols makes: every entry with |x| < tol set to 0. */
  function ClearedBelow(X: Matrix, tol: real): (Y: Matrix)
    ensures SameShape(Y, X)
  {
    seq(|X|, i requires 0 <= i < |X| =>
      seq(|X[i]|, j requires 0 <= j < |X[i]| => if BelowTol(X[i][j], tol) then Zero else X[i][j]))
  }

  /** An entry that survives the clearing and is nonzero. */
  predicate Kept(z: Complex, tol: real) {
    z != Zero && !BelowTol(z, tol)
  }

  /** Column j holds a nonzero entry (np.any along axis 0). */
  predicate ColumnActive(X: Matrix, j: nat) {
    exists i :: 0 <= i < |X| && j < |X[i]| && X[i][j] != Zero
  }

  /** np.nonzero of the column flags among the first n columns. */
  function ActiveColsUpTo(X: Matrix, n: nat): seq<nat> {
    if n == 0 then []
    else ActiveColsUpTo(X, n - 1) + (if ColumnActive(X, n - 1) then [n - 1] else [])
  }

  /** get_nonzero_cols as one expression. */
  function NonzeroColsOf(X: Matrix, tol: real): seq<nat> {
    ActiveColsUpTo(ClearedBelow(X, tol), Cols(X))
  }

  /** The flags np.nonzero reads: increasing, below n, exactly the active columns. */
  lemma {:induction false} ActiveColsUpToSpec(X: Matrix, n: nat)
    ensures var r := ActiveColsUpTo(X, n);
      StrictlyIncreasing(r) &&
      (forall k :: 0 <= k < |r| ==> r[k] < n) &&
      (forall j: nat :: j in r <==> j < n && ColumnActive(X, j))
  {
    if n > 0 {
      ActiveColsUpToSpec(X, n - 1);
    }
  }

  /** A column of the cleared copy is active exactly when the column has a kept entry. */
  lemma ClearedActive(X: Matrix, tol: real, j: nat)
    ensures ColumnActive(ClearedBelow(X, tol), j) <==>
      exists i :: 0 <= i < |X| && j < |X[i]| && Kept(X[i][j], tol)
  {
    var Y := ClearedBelow(X, tol);
    if ColumnActive(Y, j) {
      var i :| 0 <= i < |Y| && j < |Y[i]| && Y[i][j] != Zero;
      assert Kept(X[i][j], tol);
    }
    if exists i :: 0 <= i < |X| && j < |X[i]| && Kept(X[i][j], tol) {
      var i :| 0 <= i < |X| && j < |X[i]| && Kept(X[i][j], tol);
      assert Y[i][j] != Zero;
    }
  }

  /**
   * What get_nonzero_cols promises: strictly increasing column indices in
   * range, and a column is listed exactly when one of its entries is
   * nonzero and has |x| >= tol.
   */
  lemma NonzeroColsSpec(X: Matrix, tol: real)
    requires Rectangular(X)
    ensures var r := NonzeroColsOf(X, tol);
      StrictlyIncreasing(r) &&
      (forall k :: 0 <= k < |r| ==> r[k] < Cols(X)) &&
      (forall j: nat :: j in r <==>
        j < Cols(X) && exists i :: 0 <= i < |X| && Kept(X[i][j], tol))
  {
    ActiveColsUpToSpec(ClearedBelow(X, tol), Cols(X));
    forall j: nat
      ensures j in NonzeroColsOf(X, tol) <==>
        j < Cols(X) && exists i :: 0 <= i < |X| && Kept(X[i][j], tol)
    {
      ClearedActive(X, tol, j);
    }
  }

  /** Clearing the entries with |x| < tol on a copy of X. */
  method ClearBelowTol(X: Matrix, tol: real) returns (Y: Matrix)
    ensures Y == ClearedBelow(X, tol)
  {
    Y := X;
    var i := 0;
    while i < |X|
      invariant 0 <= i <= |X| == |Y|
      invariant forall k :: 0 <= k < i ==> Y[k] == ClearedBelow(X, tol)[k]
      invariant forall k :: i <= k < |X| ==> Y[k] == X[k]
    {
      var row := X[i];
      var j := 0;
      while j < |row|
        invariant 0 <= j <= |row| == |X[i]|
        invariant forall l :: 0 <= l < j ==> row[l] == ClearedBelow(X, tol)[i][l]
        invariant forall l :: j <= l < |row| ==> row[l] == X[i][l]
      {
        if BelowTol(row[j], tol) {
          row := row[j := Zero];
        }
        j := j + 1;
      }
      Y := Y[i := row];
      i := i + 1;
    }
  }

  /** np.any of column j. */
  method ColumnAny(Y: Matrix, j: nat) returns (any: bool)
    ensures any == ColumnActive(Y, j)
  {
    any := false;
    var i := 0;
    while i < |Y|
      invariant 0 <= i <= |Y|
      invariant any <==> exists k :: 0 <= k < i && j < |Y[k]| && Y[k][j] != Zero
    {
      if j < |Y[i]| && Y[i][j] != Zero {
        any := true;
      }
      i := i + 1;
    }
  }

  /**
   * get_nonzero_cols: clear the entries below tol on a copy of X, then list
   * the columns that still hold a nonzero entry, in increasing order. X is a
   * value, so the caller's matrix is unchanged.
   */
  method GetNonzeroCols(X: Matrix, tol: real) returns (cols: seq<nat>)
    ensures cols == NonzeroColsOf(X, tol)
  {
    var Y := ClearBelowTol(X, tol);
    cols := [];
    var j := 0;
    while j < Cols(X)
      invariant 0 <= j <= Cols(X)
      invariant cols == ActiveColsUpTo(Y, j)
    {
      var any := ColumnAny(Y, j);
      if any {
        cols := cols + [j];
      }
      j := j + 1;
    }
  }
}
