/**
 Symmetric positive (semi)definite matrices, and the inverse that exists for the definite
 ones.  Solve eliminates one row at a time; that the pivot is positive and that the Schur
 complement is again positive definite is what makes every inverse of the filter exist.
 */
module PositiveDefinite {
  import opened LinearAlgebra

  ghost predicate Symmetric(a: Mat, n: nat) {
    IsMat(a, n, n) && Transpose(a) == a
  }

  function Quad(a: Mat, x: Vec): real
    requires IsMat(a, |x|, |x|)
  {
    Dot(x, MatVec(a, x))
  }

  ghost predicate SemiDefinite(a: Mat, n: nat) {
    Symmetric(a, n) && forall x: Vec {:trigger Quad(a, x)} :: |x| == n ==> Quad(a, x) >= 0.0
  }

  ghost predicate Definite(a: Mat, n: nat) {
    Symmetric(a, n) && forall x: Vec {:trigger Quad(a, x)} :: |x| == n && x != Zeros(n) ==> Quad(a, x) > 0.0
  }

  lemma SemiDefiniteShape(p: Mat, n: nat)
    requires SemiDefinite(p, n)
    ensures IsMat(p, n, n)
  {
  }

  lemma DefiniteShape(p: Mat, n: nat)
    requires Definite(p, n)
    ensures IsMat(p, n, n)
  {
  }

  lemma SymmetricEntries(a: Mat, n: nat, i: nat, j: nat)
    requires Symmetric(a, n) && i < n && j < n
    ensures a[i][j] == a[j][i]
  {
    assert Transpose(a)[i][j] == a[j][i];
  }

  lemma SymmetricFromEntries(a: Mat, n: nat)
    requires IsMat(a, n, n)
    requires forall i, j :: 0 <= i < n && 0 <= j < n ==> a[i][j] == a[j][i]
    ensures Symmetric(a, n)
  {
    forall i | 0 <= i < n ensures Transpose(a)[i] == a[i] {
      assert forall j :: 0 <= j < n ==> Transpose(a)[i][j] == a[i][j];
    }
  }

  /** A symmetric matrix may be moved to the other side of a product. */
  lemma SelfAdjoint(a: Mat, x: Vec, y: Vec)
    requires |x| == |y| && Symmetric(a, |x|)
    ensures Dot(x, MatVec(a, y)) == Dot(MatVec(a, x), y)
  {
    Adjoint(a, x, y);
  }

  lemma QuadOfZero(a: Mat, n: nat)
    requires IsMat(a, n, n)
    ensures Quad(a, Zeros(n)) == 0.0
  {
    DotZero(Zeros(n), MatVec(a, Zeros(n)));
  }

  lemma DefiniteIsSemiDefinite(a: Mat, n: nat)
    requires Definite(a, n)
    ensures SemiDefinite(a, n)
  {
    QuadOfZero(a, n);
  }

  lemma QuadOfSum(a: Mat, x: Vec, y: Vec)
    requires |x| == |y| && Symmetric(a, |x|)
    ensures Quad(a, VAdd(x, y)) == Quad(a, x) + 2.0 * Dot(x, MatVec(a, y)) + Quad(a, y)
  {
    var ax, ay := MatVec(a, x), MatVec(a, y);
    MatVecLinear(a, x, y);
    DotAdd(x, y, VAdd(ax, ay));
    DotAdd(ax, ay, x);
    DotAdd(ax, ay, y);
    SelfAdjoint(a, x, y);
    DotSymmetric(ax, y);
  }

  lemma FormsFixProducts(a: Mat, b: Mat, n: nat, x: Vec, y: Vec)
    requires Symmetric(a, n) && Symmetric(b, n) && |x| == |y| == n
    requires forall x: Vec {:trigger Quad(a, x)} :: |x| == n ==> Quad(a, x) == Quad(b, x)
    ensures Dot(MatVec(a, y), x) == Dot(MatVec(b, y), x)
  {
    QuadOfSum(a, x, y);
    QuadOfSum(b, x, y);
    DotSymmetric(x, MatVec(a, y));
    DotSymmetric(x, MatVec(b, y));
    assert Quad(a, VAdd(x, y)) == Quad(b, VAdd(x, y));
  }

  /** Symmetric matrices with the same quadratic form are equal. */
  lemma Polarization(a: Mat, b: Mat, n: nat)
    requires Symmetric(a, n) && Symmetric(b, n)
    requires forall x: Vec {:trigger Quad(a, x)} :: |x| == n ==> Quad(a, x) == Quad(b, x)
    ensures a == b
  {
    forall y: Vec {:trigger MatVec(a, y)} | |y| == n ensures MatVec(a, y) == MatVec(b, y) {
      forall x: Vec {:trigger Dot(MatVec(a, y), x)} | |x| == n ensures Dot(MatVec(a, y), x) == Dot(MatVec(b, y), x) {
        FormsFixProducts(a, b, n, x, y);
      }
      VectorExtensionality(MatVec(a, y), MatVec(b, y));
    }
    Extensionality(a, b, n, n);
  }

  // ---------- closure properties ----------

  lemma DiagonalEntry(a: Mat, n: nat, k: nat)
    requires IsMat(a, n, n) && k < n
    ensures a[k][k] == Quad(a, Unit(n, k))
  {
    DotUnit(k, MatVec(a, Unit(n, k)));
    DotUnit(k, a[k]);
  }

  lemma QuadAdd(a: Mat, b: Mat, x: Vec)
    requires IsMat(a, |x|, |x|) && IsMat(b, |x|, |x|)
    ensures Quad(MAdd(a, b), x) == Quad(a, x) + Quad(b, x)
  {
    AddActs(a, b, x);
    DotAdd(MatVec(a, x), MatVec(b, x), x);
  }

  lemma QuadScale(c: real, a: Mat, x: Vec)
    requires IsMat(a, |x|, |x|)
    ensures Quad(MScale(c, a), x) == c * Quad(a, x)
  {
    ScaleActs(c, a, x);
    DotScale(c, MatVec(a, x), x);
  }

  /** The form of h * a * h^T at x is the form of a at h^T x. */
  lemma QuadScaleNamed(c: real, a: Mat, x: Vec, q: real)
    requires IsMat(a, |x|, |x|) && q == Quad(a, x)
    ensures Quad(MScale(c, a), x) == c * q
  {
    hide Quad;
    QuadScale(c, a, x);
  }

  lemma QuadCongruence(h: Mat, a: Mat, x: Vec)
    requires Rect(a) && IsMat(a, |a|, |a|) && IsMat(h, |x|, |a|)
    ensures Quad(MatMul(MatMul(h, a), Transpose(h)), x) == Quad(a, MatVec(Transpose(h), x))
  {
    var y := MatVec(Transpose(h), x);
    MulActs(MatMul(h, a), Transpose(h), x);
    MulActs(h, a, y);
    Adjoint(h, x, MatVec(a, y));
  }

  lemma QuadOuter(v: Vec, x: Vec, c: real)
    requires |v| == |x| >= 1 && c == Dot(v, x)
    ensures Quad(Outer(v, v), x) == c * c
  {
    OuterActs(v, v, x);
    DotScaleNamed(c, v, x, c);
    DotSymmetric(x, VScale(c, v));
  }

  lemma AddDefinite(a: Mat, b: Mat, n: nat)
    requires Definite(a, n) && SemiDefinite(b, n)
    ensures Definite(MAdd(a, b), n) && Definite(MAdd(b, a), n)
  {
    TransposeAdd(a, b);
    TransposeAdd(b, a);
    forall x: Vec | |x| == n && x != Zeros(n)
      ensures Quad(MAdd(a, b), x) > 0.0 && Quad(MAdd(b, a), x) > 0.0
    {
      QuadAdd(a, b, x);
      QuadAdd(b, a, x);
    }
  }

  lemma AddSemiDefinite(a: Mat, b: Mat, n: nat)
    requires SemiDefinite(a, n) && SemiDefinite(b, n)
    ensures SemiDefinite(MAdd(a, b), n)
  {
    TransposeAdd(a, b);
    forall x: Vec {:trigger Quad(MAdd(a, b), x)} | |x| == n ensures Quad(MAdd(a, b), x) >= 0.0 {
      QuadAdd(a, b, x);
    }
  }

  lemma ScaleSemiDefinite(c: real, a: Mat, n: nat)
    requires c >= 0.0 && SemiDefinite(a, n)
    ensures SemiDefinite(MScale(c, a), n)
  {
    TransposeScale(c, a);
    forall x: Vec {:trigger Quad(MScale(c, a), x)} | |x| == n ensures Quad(MScale(c, a), x) >= 0.0 {
      QuadScale(c, a, x);
      ProductSign(c, Quad(a, x), Quad(MScale(c, a), x));
    }
  }

  lemma ScaleDefinite(c: real, a: Mat, n: nat)
    requires c > 0.0 && Definite(a, n)
    ensures Definite(MScale(c, a), n)
  {
    TransposeScale(c, a);
    forall x: Vec {:trigger Quad(MScale(c, a), x)} | |x| == n && x != Zeros(n) ensures Quad(MScale(c, a), x) > 0.0 {
      QuadScale(c, a, x);
      ProductSign(c, Quad(a, x), Quad(MScale(c, a), x));
    }
  }

  lemma OuterSemiDefinite(v: Vec, n: nat)
    requires IsVec(v, n)
    ensures SemiDefinite(Outer(v, v), n)
  {
    TransposeOuter(v);
    forall x: Vec {:trigger Quad(Outer(v, v), x)} | |x| == n ensures Quad(Outer(v, v), x) >= 0.0 {
      QuadOuter(v, x, Dot(v, x));
      SquareSign(Dot(v, x), Quad(Outer(v, v), x));
    }
  }

  lemma CongruenceSymmetric(h: Mat, a: Mat, m: nat, n: nat)
    requires IsMat(h, m, n) && Symmetric(a, n)
    ensures Symmetric(MatMul(MatMul(h, a), Transpose(h)), m)
  {
    TransposeMul(MatMul(h, a), Transpose(h));
    TransposeTwice(h, m, n);
    TransposeMul(h, a);
    MulAssoc(h, a, Transpose(h));
  }

  lemma CongruenceSemiDefinite(h: Mat, a: Mat, m: nat, n: nat)
    requires IsMat(h, m, n) && SemiDefinite(a, n)
    ensures SemiDefinite(MatMul(MatMul(h, a), Transpose(h)), m)
  {
    CongruenceSymmetric(h, a, m, n);
    forall x: Vec {:trigger Quad(MatMul(MatMul(h, a), Transpose(h)), x)} | |x| == m
      ensures Quad(MatMul(MatMul(h, a), Transpose(h)), x) >= 0.0
    {
      QuadCongruence(h, a, x);
    }
  }

  /** A congruence by a matrix with a trivial left kernel keeps definiteness. */
  lemma CongruenceDefinite(h: Mat, a: Mat, m: nat, n: nat)
    requires IsMat(h, m, n) && Definite(a, n)
    requires forall x: Vec {:trigger MatVec(Transpose(h), x)} ::
      |x| == m && MatVec(Transpose(h), x) == Zeros(n) ==> x == Zeros(m)
    ensures Definite(MatMul(MatMul(h, a), Transpose(h)), m)
  {
    CongruenceSymmetric(h, a, m, n);
    forall x: Vec {:trigger Quad(MatMul(MatMul(h, a), Transpose(h)), x)} | |x| == m && x != Zeros(m)
      ensures Quad(MatMul(MatMul(h, a), Transpose(h)), x) > 0.0
    {
      QuadCongruence(h, a, x);
    }
  }

  /** A congruence plus a symmetric term is known by its form. */
  lemma CongruenceByForm(f: Mat, c: Mat, d: Mat, s: Mat, n: nat)
    requires IsMat(f, n, n) && Symmetric(c, n) && Symmetric(d, n) && Symmetric(s, n)
    requires forall x: Vec {:trigger Quad(s, x)} :: |x| == n ==> Quad(s, x) == Quad(c, MatVec(Transpose(f), x)) + Quad(d, x)
    ensures s == MAdd(MatMul(MatMul(f, c), Transpose(f)), d)
  {
    var g := MatMul(MatMul(f, c), Transpose(f));
    CongruenceSymmetric(f, c, n, n);
    TransposeAdd(g, d);
    forall x: Vec {:trigger Quad(s, x)} | |x| == n ensures Quad(s, x) == Quad(MAdd(g, d), x) {
      QuadAdd(g, d, x);
      QuadCongruence(f, c, x);
    }
    Polarization(s, MAdd(g, d), n);
  }

  lemma QuadDiagonal(d: Vec, x: Vec)
    requires |d| == |x| >= 1
    requires forall i :: 0 <= i < |d| ==> d[i] >= 0.0
    ensures Quad(Diagonal(d), x) >= 0.0
    ensures Quad(Diagonal(d), x) == 0.0 ==> forall i :: 0 <= i < |d| && d[i] > 0.0 ==> x[i] == 0.0
  {
    DiagonalActs(d, x);
    WeightedSquares(d, x, MatVec(Diagonal(d), x));
  }

  lemma {:induction false} WeightedSquares(d: Vec, x: Vec, y: Vec)
    requires |d| == |x| == |y|
    requires forall i :: 0 <= i < |d| ==> d[i] >= 0.0 && y[i] == d[i] * x[i]
    ensures Dot(x, y) >= 0.0
    ensures Dot(x, y) == 0.0 ==> forall i :: 0 <= i < |d| && d[i] > 0.0 ==> x[i] == 0.0
  {
    if |d| > 0 {
      WeightedSquares(d[1..], x[1..], y[1..]);
      WeightedSquare(d[0], x[0], x[0] * y[0]);
      if Dot(x, y) == 0.0 {
        forall i | 0 <= i < |d| && d[i] > 0.0 ensures x[i] == 0.0 {
          if i > 0 {
            assert d[1..][i - 1] > 0.0 && x[1..][i - 1] == x[i];
          }
        }
      }
    }
  }

  lemma WeightedSquare(d: real, r: real, t: real)
    requires d >= 0.0 && t == r * (d * r)
    ensures t >= 0.0
    ensures t == 0.0 && d > 0.0 ==> r == 0.0
  {
    var q := r * r;
    SquareSign(r, q);
    assert t == d * q;
    ProductSign(d, q, t);
  }

  lemma DiagonalSemiDefinite(d: Vec, n: nat)
    requires IsVec(d, n) && forall i :: 0 <= i < n ==> d[i] >= 0.0
    ensures SemiDefinite(Diagonal(d), n)
  {
    TransposeDiagonal(d);
    forall x: Vec {:trigger Quad(Diagonal(d), x)} | |x| == n ensures Quad(Diagonal(d), x) >= 0.0 {
      QuadDiagonal(d, x);
    }
  }

  lemma DiagonalDefinite(d: Vec, n: nat)
    requires IsVec(d, n) && forall i :: 0 <= i < n ==> d[i] > 0.0
    ensures Definite(Diagonal(d), n)
  {
    TransposeDiagonal(d);
    forall x: Vec {:trigger Quad(Diagonal(d), x)} | |x| == n && x != Zeros(n) ensures Quad(Diagonal(d), x) > 0.0 {
      QuadDiagonal(d, x);
      var i := NonZeroEntry(x);
      assert d[i] > 0.0;
    }
  }

  // ---------- elimination ----------

  /** What is left of a after its first row and column are eliminated. */
  function Schur(a: Mat): (s: Mat)
    requires |a| >= 2 && IsMat(a, |a|, |a|) && a[0][0] != 0.0
    ensures IsMat(s, |a| - 1, |a| - 1)
  {
    seq(|a| - 1, i requires 0 <= i < |a| - 1 =>
      VSub(a[i + 1][1..], VScale(a[i + 1][0] / a[0][0], a[0][1..])))
  }

  lemma PivotPositive(a: Mat, n: nat)
    requires Definite(a, n)
    ensures a[0][0] > 0.0
  {
    var e := Unit(n, 0);
    DotUnit(0, MatVec(a, e));
    DotUnit(0, a[0]);
    assert e[0] != Zeros(n)[0];
    assert Quad(a, e) == a[0][0];
  }

  /** The vector that a maps to zero in front of what the Schur complement makes of y. */
  function Lift(a: Mat, y: Vec): (x: Vec)
    requires |a| >= 2 && IsMat(a, |a|, |a|) && |y| == |a| - 1 && a[0][0] != 0.0
    ensures |x| == |a|
  {
    [-Dot(a[0][1..], y) / a[0][0]] + y
  }

  lemma LiftActs(a: Mat, y: Vec)
    requires |a| >= 2 && IsMat(a, |a|, |a|) && |y| == |a| - 1 && a[0][0] != 0.0
    ensures MatVec(a, Lift(a, y)) == [0.0] + MatVec(Schur(a), y)
  {
    var x := Lift(a, y);
    var l, r := MatVec(a, x), [0.0] + MatVec(Schur(a), y);
    forall i | 0 <= i < |a| ensures l[i] == r[i] {
      assert x[1..] == y;
      assert Dot(a[i], x) == a[i][0] * x[0] + Dot(a[i][1..], y);
      if i == 0 {
        CancelPivot(a[0][0], Dot(a[0][1..], y));
      } else {
        var c, v := a[i][0] / a[0][0], a[0][1..];
        assert Schur(a)[i - 1] == VSub(a[i][1..], VScale(c, v));
        DotSub(a[i][1..], VScale(c, v), y);
        DotScale(c, v, y);
        MovePivot(a[i][0], a[0][0], Dot(v, y));
      }
    }
  }

  lemma CancelPivot(p: real, d: real)
    requires p != 0.0
    ensures p * (-d / p) + d == 0.0
  {
  }

  lemma MovePivot(c: real, p: real, d: real)
    requires p != 0.0
    ensures c * (-d / p) == -((c / p) * d)
  {
  }

  lemma SchurDefinite(a: Mat, n: nat)
    requires n >= 2 && Definite(a, n)
    ensures a[0][0] > 0.0
    ensures Definite(Schur(a), n - 1)
  {
    PivotPositive(a, n);
    SchurSymmetric(a, n);
    forall y: Vec {:trigger Quad(Schur(a), y)} | |y| == n - 1 && y != Zeros(n - 1) ensures Quad(Schur(a), y) > 0.0 {
      SchurQuad(a, n, y);
      assert Zeros(n)[1..] == Zeros(n - 1) && Lift(a, y)[1..] == y;
    }
  }

  lemma SchurSymmetric(a: Mat, n: nat)
    requires n >= 2 && Symmetric(a, n) && a[0][0] != 0.0
    ensures Symmetric(Schur(a), n - 1)
  {
    var s := Schur(a);
    forall i, j | 0 <= i < n - 1 && 0 <= j < n - 1 ensures s[i][j] == s[j][i] {
      SchurEntry(a, n, i, j);
      SchurEntry(a, n, j, i);
      SymmetricEntries(a, n, i + 1, j + 1);
      SymmetricEntries(a, n, i + 1, 0);
      SymmetricEntries(a, n, j + 1, 0);
      SwapPivot(a[0][i + 1], a[0][j + 1], a[0][0]);
    }
    SymmetricFromEntries(s, n - 1);
  }

  lemma SchurQuad(a: Mat, n: nat, y: Vec)
    requires n >= 2 && IsMat(a, n, n) && a[0][0] != 0.0 && |y| == n - 1
    ensures Quad(a, Lift(a, y)) == Quad(Schur(a), y)
  {
    var x, z := Lift(a, y), MatVec(Schur(a), y);
    LiftActs(a, y);
    HeadZeroDot(x[0], y, z);
  }

  lemma HeadZeroDot(c: real, y: Vec, z: Vec)
    requires |y| == |z|
    ensures Dot([c] + y, [0.0] + z) == Dot(y, z)
  {
    assert ([c] + y)[1..] == y && ([0.0] + z)[1..] == z;
  }

  lemma SchurEntry(a: Mat, n: nat, i: nat, j: nat)
    requires n >= 2 && IsMat(a, n, n) && a[0][0] != 0.0 && i < n - 1 && j < n - 1
    ensures Schur(a)[i][j] == a[i + 1][j + 1] - (a[i + 1][0] / a[0][0]) * a[0][j + 1]
  {
    var c := a[i + 1][0] / a[0][0];
    ScaleEntry(c, a[0][1..], j);
  }

  lemma SwapPivot(u: real, v: real, p: real)
    requires p != 0.0
    ensures (u / p) * v == (v / p) * u
  {
  }

  /** The right-hand side left for the Schur complement. */
  function Eliminated(a: Mat, b: Vec): (r: Vec)
    requires |b| >= 2 && IsMat(a, |b|, |b|) && a[0][0] != 0.0
    ensures |r| == |b| - 1
  {
    VSub(b[1..], VScale(b[0] / a[0][0], Transpose(a)[0][1..]))
  }

  function BackSubstituted(a: Mat, b: Vec, y: Vec): (x: Vec)
    requires |b| >= 2 && IsMat(a, |b|, |b|) && a[0][0] != 0.0 && |y| == |b| - 1
    ensures |x| == |b|
  {
    [(b[0] - Dot(a[0][1..], y)) / a[0][0]] + y
  }

  /** The solution of a * x = b, by elimination. */
  function Solve(a: Mat, b: Vec): (x: Vec)
    requires |b| >= 1 && Definite(a, |b|)
    ensures |x| == |b| && MatVec(a, x) == b
    decreases |b|
  {
    PivotPositive(a, |b|);
    if |b| == 1 then
      SolveOne(a, b);
      [b[0] / a[0][0]]
    else
      SchurDefinite(a, |b|);
      var y := Solve(Schur(a), Eliminated(a, b));
      SolveStep(a, b, y);
      BackSubstituted(a, b, y)
  }

  lemma SolveOne(a: Mat, b: Vec)
    requires |b| == 1 && IsMat(a, 1, 1) && a[0][0] != 0.0
    ensures MatVec(a, [b[0] / a[0][0]]) == b
  {
    var x := [b[0] / a[0][0]];
    assert Dot(a[0][1..], x[1..]) == 0.0;
    assert MatVec(a, x)[0] == b[0];
  }

  lemma SolveStep(a: Mat, b: Vec, y: Vec)
    requires |b| >= 2 && IsMat(a, |b|, |b|) && a[0][0] != 0.0 && |y| == |b| - 1
    requires MatVec(Schur(a), y) == Eliminated(a, b)
    ensures MatVec(a, BackSubstituted(a, b, y)) == b
  {
    var p, d := a[0][0], Dot(a[0][1..], y);
    var e, c, f := (b[0] - d) / p, -d / p, b[0] / p;
    SplitQuotient(b[0], d, p);
    LiftActs(a, y);
    forall i | 0 <= i < |b| ensures MatVec(a, [e] + y)[i] == b[i] {
      if i == 0 {
        HeadDot(a[0], e, y);
        CancelPivot(p, d - b[0]);
      } else {
        EliminatedRow(a, b, i, f);
        SolveRow(a, y, i, c, f, b[i], Eliminated(a, b));
      }
    }
  }

  lemma SolveRow(a: Mat, y: Vec, i: nat, c: real, f: real, bi: real, m: Vec)
    requires IsMat(a, |a|, |y| + 1) && |m| == |a| - 1
    requires 1 <= i < |a| && MatVec(a, [c] + y) == [0.0] + m
    requires m[i - 1] == bi - f * a[i][0]
    ensures MatVec(a, [c + f] + y)[i] == bi
  {
    RowAt(a, y, i, c, m);
    HeadDot(a[i], c + f, y);
    SolveArithmetic(a[i][0], c, f, c + f);
  }

  lemma HeadDot(r: Vec, c: real, y: Vec)
    requires |r| == |y| + 1
    ensures Dot(r, [c] + y) == r[0] * c + Dot(r[1..], y)
  {
    assert ([c] + y)[1..] == y;
  }

  lemma RowAt(a: Mat, y: Vec, i: nat, c: real, m: Vec)
    requires IsMat(a, |a|, |y| + 1) && |m| == |a| - 1
    requires 1 <= i < |a| && MatVec(a, [c] + y) == [0.0] + m
    ensures m[i - 1] == a[i][0] * c + Dot(a[i][1..], y)
  {
    hide Dot, MatVec;
    var x := [c] + y;
    HeadDot(a[i], c, y);
    MatVecAt(a, x, i);
    assert ([0.0] + m)[i] == m[i - 1];
  }

  lemma EliminatedRow(a: Mat, b: Vec, i: nat, f: real)
    requires |b| >= 2 && IsMat(a, |b|, |b|) && a[0][0] != 0.0 && 1 <= i < |b|
    requires f == b[0] / a[0][0]
    ensures Eliminated(a, b)[i - 1] == b[i] - f * a[i][0]
  {
    var t := Transpose(a)[0][1..];
    ScaleEntry(f, t, i - 1);
    assert t[i - 1] == a[i][0];
  }

  lemma SplitQuotient(b: real, d: real, p: real)
    requires p != 0.0
    ensures (b - d) / p == -d / p + b / p
  {
  }

  lemma SolveArithmetic(r: real, c: real, f: real, e: real)
    requires e == c + f
    ensures r * e == r * c + f * r
  {
  }

  /** The inverse, column by column. */
  function Inverse(a: Mat, n: nat): (r: Mat)
    requires Definite(a, n)
    ensures IsMat(r, n, n)
    ensures MatMul(a, r) == Identity(n)
  {
    var cols := seq(n, (j: nat) requires j < n => Solve(a, Unit(n, j)));
    InverseColumns(a, n, cols);
    Transpose(cols)
  }

  lemma InverseColumns(a: Mat, n: nat, cols: Mat)
    requires IsMat(a, n, n) && IsMat(cols, n, n)
    requires forall j :: 0 <= j < n ==> MatVec(a, cols[j]) == Unit(n, j)
    ensures MatMul(a, Transpose(cols)) == Identity(n)
  {
    var r := Transpose(cols);
    TransposeTwice(cols, n, n);
    forall i | 0 <= i < n ensures MatMul(a, r)[i] == Identity(n)[i] {
      forall j | 0 <= j < n ensures MatMul(a, r)[i][j] == Identity(n)[i][j] {
        VecMatEntry(a[i], r, j);
        assert MatMul(a, r)[i][j] == MatVec(a, cols[j])[i];
      }
    }
  }

  /** The inverse is two-sided and positive definite, and there is no other. */
  lemma InverseProperties(a: Mat, n: nat)
    requires Definite(a, n)
    ensures Definite(Inverse(a, n), n)
    ensures MatMul(Inverse(a, n), a) == Identity(n)
  {
    var r := Inverse(a, n);
    LeftFromRight(a, r, n);
    forall x: Vec {:trigger Quad(r, x)} | |x| == n && x != Zeros(n) ensures Quad(r, x) > 0.0 {
      var y := MatVec(r, x);
      MulActs(a, r, x);
      IdentityActs(x);
      assert MatVec(a, y) == x;
      var i := NonZeroEntry(x);
      if y == Zeros(n) {
        DotZero(y, a[i]);
      }
      DotSymmetric(x, y);
      assert Quad(r, x) == Quad(a, y);
    }
  }

  /** A right inverse of a symmetric matrix is symmetric and a left inverse. */
  lemma LeftFromRight(a: Mat, r: Mat, n: nat)
    requires Symmetric(a, n) && IsMat(r, n, n) && MatMul(a, r) == Identity(n)
    ensures MatMul(r, a) == Identity(n)
    ensures Symmetric(r, n)
  {
    var t := Transpose(r);
    TransposeMul(a, r);
    TransposeIdentity(n);
    assert MatMul(t, a) == Identity(n);
    MulAssoc(t, a, r);
    MulIdentity(r, n, n);
    MulIdentity(t, n, n);
  }

  lemma InverseUnique(a: Mat, b: Mat, n: nat)
    requires Definite(a, n) && IsMat(b, n, n)
    requires MatMul(a, b) == Identity(n) || MatMul(b, a) == Identity(n)
    ensures b == Inverse(a, n)
  {
    var r := Inverse(a, n);
    InverseProperties(a, n);
    MulIdentity(b, n, n);
    MulIdentity(r, n, n);
    if MatMul(a, b) == Identity(n) {
      MulAssoc(r, a, b);
    } else {
      MulAssoc(b, a, r);
    }
  }

  lemma InverseTwice(a: Mat, n: nat)
    requires Definite(a, n)
    ensures Definite(Inverse(a, n), n)
    ensures Inverse(Inverse(a, n), n) == a
  {
    InverseProperties(a, n);
    InverseUnique(Inverse(a, n), a, n);
  }
}
