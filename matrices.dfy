/**
 * Exact complex scalars and dense matrices: the value domain of the sparse
 * BOP-DMD model.
 *
 * A matrix is a sequence of rows. NumPy arrays are always rectangular, so
 * most members ask for `Rectangular`. Dafny's reals have no square root, so a
 * modulus |z|, a row norm or a column norm enters the model as a GIVEN value
 * together with the fact that its square is right (`IsModulus`, `IsNorm`).
 */
module Matrices {

  datatype Option<+T> = None | Some(value: T)

  datatype Result<+T, +E> = Ok(value: T) | Err(error: E)

  /** A complex number as a pair of reals. */
  datatype Complex = Complex(re: real, im: real)

  const Zero: Complex := Complex(0.0, 0.0)

  /** x², kept behind a function so that callers reason about it linearly. */
  function Sq(x: real): real {
    x * x
  }

  /**
   * a·b, kept behind a function for the same reason: a fact about
   * `Mul(a, b)` can be reused wherever the same arguments reappear.
   */
  function Mul(a: real, b: real): real {
    a * b
  }

  lemma PosProduct(a: real, b: real)
    requires a > 0.0 && b > 0.0
    ensures a * b > 0.0
  {
  }

  lemma MulPositive(a: real, b: real)
    requires a > 0.0 && b > 0.0
    ensures Mul(a, b) > 0.0
  {
    PosProduct(a, b);
  }

  lemma MulNonnegative(a: real, b: real)
    requires a >= 0.0 && b >= 0.0
    ensures a * b >= 0.0
  {
    if a > 0.0 && b > 0.0 {
      PosProduct(a, b);
    }
  }

  /** Squaring is strictly increasing on the non-negative reals. */
  lemma SqMono(a: real, b: real)
    requires 0.0 <= a < b
    ensures Sq(a) < Sq(b)
  {
    PosProduct(b - a, b + a);
    assert (b - a) * (b + a) == b * b - a * a;
  }

  lemma SqPos(x: real)
    ensures Sq(x) >= 0.0
    ensures x != 0.0 ==> Sq(x) > 0.0
  {
    if x < 0.0 {
      SqMono(0.0, 0.0 - x);
      assert Sq(0.0 - x) == Sq(x);
    } else if x > 0.0 {
      SqMono(0.0, x);
    }
  }

  lemma SqMul(c: real, x: real)
    ensures Sq(c * x) == Mul(Sq(c), Sq(x))
  {
  }

  /** |z|², which needs no square root. */
  function Abs2(z: Complex): (r: real)
    ensures r >= 0.0
  {
    SqPos(z.re);
    SqPos(z.im);
    Sq(z.re) + Sq(z.im)
  }

  /** |z|² vanishes only at 0 and is positive elsewhere. */
  lemma Abs2Vanishes(z: Complex)
    ensures Abs2(z) == 0.0 <==> z == Zero
    ensures z != Zero ==> Abs2(z) > 0.0
  {
    SqPos(z.re);
    SqPos(z.im);
  }

  /** The product of a real and a complex number. */
  function Scale(c: real, z: Complex): Complex {
    Complex(c * z.re, c * z.im)
  }

  lemma Abs2Scale(c: real, z: Complex)
    ensures Abs2(Scale(c, z)) == Mul(Sq(c), Abs2(z))
  {
    var a, b := c * z.re, c * z.im;
    assert Abs2(Scale(c, z)) == Sq(a) + Sq(b);
    SqMul(c, z.re);
    SqMul(c, z.im);
    Distribute(Sq(c), Sq(z.re), Sq(z.im));
  }

  lemma ScaleZero(c: real)
    ensures Scale(c, Zero) == Zero
  {
  }

  lemma ScaleByZero(z: Complex)
    ensures Scale(0.0, z) == Zero
  {
  }

  lemma ScaleByOne(z: Complex)
    ensures Scale(1.0, z) == z
  {
  }

  /** Multiplying by a nonzero real maps only 0 to 0. */
  lemma ScaleNonzero(c: real, z: Complex)
    requires c != 0.0
    ensures Scale(c, z) == Zero <==> z == Zero
  {
    if z != Zero {
      Abs2Scale(c, z);
      SqPos(c);
      Abs2Vanishes(z);
      MulPositive(Sq(c), Abs2(z));
      Abs2Vanishes(Scale(c, z));
    }
  }

  lemma ScaleScale(c: real, d: real, z: Complex)
    ensures Scale(c, Scale(d, z)) == Scale(Mul(c, d), z)
  {
  }

  function Max(a: real, b: real): real {
    if a >= b then a else b
  }

  function Min(a: real, b: real): real {
    if a <= b then a else b
  }

  /** `m` is the modulus |z| of `z`. */
  predicate IsModulus(m: real, z: Complex) {
    0.0 <= m && Sq(m) == Abs2(z)
  }

  lemma ModulusVanishes(m: real, z: Complex)
    requires IsModulus(m, z)
    ensures m == 0.0 <==> z == Zero
  {
    SqPos(m);
    Abs2Vanishes(z);
  }

  /** A non-negative square root is unique. */
  lemma RootUnique(a: real, b: real)
    requires 0.0 <= a && 0.0 <= b && Sq(a) == Sq(b)
    ensures a == b
  {
    if a < b {
      SqMono(a, b);
    } else if b < a {
      SqMono(b, a);
    }
  }

  type Matrix = seq<seq<Complex>>

  /** The number of columns, read off the first row as NumPy's shape[1]. */
  function Cols(X: Matrix): nat {
    if |X| == 0 then 0 else |X[0]|
  }

  predicate Rectangular(X: Matrix) {
    forall i :: 0 <= i < |X| ==> |X[i]| == Cols(X)
  }

  predicate IsMatrix(X: Matrix, m: nat, n: nat) {
    |X| == m && forall i :: 0 <= i < m ==> |X[i]| == n
  }

  predicate SameShape(X: Matrix, Y: Matrix) {
    |X| == |Y| && forall i :: 0 <= i < |X| ==> |X[i]| == |Y[i]|
  }

  predicate IsZeroVector(v: seq<Complex>) {
    forall j :: 0 <= j < |v| ==> v[j] == Zero
  }

  predicate IsZeroMatrix(X: Matrix) {
    forall i :: 0 <= i < |X| ==> IsZeroVector(X[i])
  }

  function ZeroVector(n: nat): (v: seq<Complex>)
    ensures |v| == n && IsZeroVector(v)
  {
    seq(n, _ => Zero)
  }

  function ScaleVector(c: real, v: seq<Complex>): (w: seq<Complex>)
    ensures |w| == |v|
  {
    seq(|v|, j requires 0 <= j < |v| => Scale(c, v[j]))
  }

  lemma ScaleVectorByOne(v: seq<Complex>)
    ensures ScaleVector(1.0, v) == v
  {
    forall j | 0 <= j < |v|
      ensures ScaleVector(1.0, v)[j] == v[j]
    {
      ScaleByOne(v[j]);
    }
  }

  /** c·X entry by entry. */
  function ScaleMatrix(c: real, X: Matrix): (Y: Matrix)
    ensures SameShape(Y, X)
  {
    seq(|X|, i requires 0 <= i < |X| => ScaleVector(c, X[i]))
  }

  /** The sum of two complex numbers. */
  function Add(z: Complex, w: Complex): Complex {
    Complex(z.re + w.re, z.im + w.im)
  }

  /** A + c·B entry by entry, as NumPy's A + c * B on two arrays of one shape. */
  function AddScaled(A: Matrix, c: real, B: Matrix): (C: Matrix)
    requires SameShape(B, A)
    ensures SameShape(C, A)
  {
    seq(|A|, i requires 0 <= i < |A| =>
      seq(|A[i]|, j requires 0 <= j < |A[i]| => Add(A[i][j], Scale(c, B[i][j]))))
  }

  /** Column j, as NumPy's X[:, j]. */
  function Column(X: Matrix, j: nat): (c: seq<Complex>)
    requires Rectangular(X) && j < Cols(X)
    ensures |c| == |X|
  {
    seq(|X|, i requires 0 <= i < |X| => X[i][j])
  }

  /** |v[j]|² for every j. */
  function Abs2s(v: seq<Complex>): (r: seq<real>)
    ensures |r| == |v|
  {
    seq(|v|, j requires 0 <= j < |v| => Abs2(v[j]))
  }

  /** Σ |v[j]|², the squared Euclidean norm of a vector. */
  function SumAbs2(v: seq<Complex>): (r: real)
    ensures r >= 0.0
  {
    SumNonnegative(Abs2s(v));
    Sum(Abs2s(v))
  }

  lemma SumAbs2Zero(v: seq<Complex>)
    ensures SumAbs2(v) == 0.0 <==> IsZeroVector(v)
  {
    SumVanishes(Abs2s(v));
    forall j | 0 <= j < |v|
      ensures Abs2s(v)[j] == 0.0 <==> v[j] == Zero
    {
      Abs2Vanishes(v[j]);
    }
  }

  lemma SumAbs2Scale(c: real, v: seq<Complex>)
    ensures SumAbs2(ScaleVector(c, v)) == Mul(Sq(c), SumAbs2(v))
  {
    forall j | 0 <= j < |v|
      ensures Abs2s(ScaleVector(c, v))[j] == Mul(Sq(c), Abs2s(v)[j])
    {
      Abs2Scale(c, v[j]);
    }
    SumScale(Sq(c), Abs2s(v), Abs2s(ScaleVector(c, v)));
  }

  /** `n` is the Euclidean norm of `v`. */
  predicate IsNorm(n: real, v: seq<Complex>) {
    0.0 <= n && Sq(n) == SumAbs2(v)
  }

  /** `A` holds the modulus of every entry of `X`. */
  predicate EntryModuli(A: seq<seq<real>>, X: Matrix) {
    |A| == |X| &&
    forall i :: 0 <= i < |X| ==>
      |A[i]| == |X[i]| && forall j :: 0 <= j < |X[i]| ==> IsModulus(A[i][j], X[i][j])
  }

  /** `norms` holds the Euclidean norm of every column of `X`. */
  predicate ColumnNorms(norms: seq<real>, X: Matrix) {
    Rectangular(X) && |norms| == Cols(X) &&
    forall j :: 0 <= j < |norms| ==> IsNorm(norms[j], Column(X, j))
  }

  /** `norms` holds the Euclidean norm of every row of `X`. */
  predicate RowNorms(norms: seq<real>, X: Matrix) {
    |norms| == |X| && forall i :: 0 <= i < |X| ==> IsNorm(norms[i], X[i])
  }

  /** The square-root quantities some norms and thresholds of a matrix need. */
  datatype Moduli = Moduli(entries: seq<seq<real>>, columns: seq<real>)

  predicate ModuliOf(m: Moduli, X: Matrix) {
    EntryModuli(m.entries, X) && ColumnNorms(m.columns, X)
  }

  function Sum(s: seq<real>): real {
    if |s| == 0 then 0.0 else Sum(s[..|s| - 1]) + s[|s| - 1]
  }

  lemma {:induction false} SumNonnegative(s: seq<real>)
    requires forall k :: 0 <= k < |s| ==> s[k] >= 0.0
    ensures Sum(s) >= 0.0
  {
    if |s| > 0 {
      SumNonnegative(s[..|s| - 1]);
    }
  }

  /** A sum of non-negative terms vanishes exactly when every term does. */
  lemma {:induction false} SumVanishes(s: seq<real>)
    requires forall k :: 0 <= k < |s| ==> s[k] >= 0.0
    ensures Sum(s) == 0.0 <==> forall k :: 0 <= k < |s| ==> s[k] == 0.0
  {
    if |s| > 0 {
      var p := s[..|s| - 1];
      SumVanishes(p);
      SumNonnegative(p);
      assert forall k :: 0 <= k < |p| ==> p[k] == s[k];
    }
  }

  lemma {:induction false} SumScale(k: real, s: seq<real>, t: seq<real>)
    requires |s| == |t| && forall i :: 0 <= i < |s| ==> t[i] == Mul(k, s[i])
    ensures Sum(t) == Mul(k, Sum(s))
  {
    if |s| > 0 {
      var n := |s| - 1;
      assert forall i :: 0 <= i < n ==> t[..n][i] == Mul(k, s[..n][i]);
      SumScale(k, s[..n], t[..n]);
      Distribute(k, Sum(s[..n]), s[n]);
    }
  }

  lemma Distribute(k: real, a: real, b: real)
    ensures Mul(k, a) + Mul(k, b) == Mul(k, a + b)
  {
  }

  /** The largest element, as NumPy's max of a non-empty array. */
  function MaxOf(s: seq<real>): (r: real)
    requires |s| > 0
    ensures forall k :: 0 <= k < |s| ==> s[k] <= r
    ensures exists k :: 0 <= k < |s| && s[k] == r
  {
    if |s| == 1 then s[0]
    else
      var m := MaxOf(s[..|s| - 1]);
      assert forall k :: 0 <= k < |s| - 1 ==> s[..|s| - 1][k] == s[k];
      Max(m, s[|s| - 1])
  }

  predicate Distinct(s: seq<nat>) {
    forall a, b :: 0 <= a < b < |s| ==> s[a] != s[b]
  }

  predicate StrictlyIncreasing(s: seq<nat>) {
    forall a, b :: 0 <= a < b < |s| ==> s[a] < s[b]
  }

  /** 0, 1, …, n − 1, as NumPy's arange(n). */
  function Range(n: nat): (r: seq<nat>)
    ensures |r| == n && forall k :: 0 <= k < n ==> r[k] == k
  {
    seq(n, k requires 0 <= k => k as nat)
  }
}
