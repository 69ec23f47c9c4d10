/**
 Vectors and matrices over the exact reals, with every dimension at least one.  A matrix is
 the sequence of its rows.  The laws are proved through the action on vectors: two matrices
 are equal when they act alike (Extensionality), and products, sums and transposes act as
 one expects, so the ring laws need no index arithmetic.
 */
module LinearAlgebra {

  type Vec = seq<real>
  type Mat = seq<Vec>

  ghost predicate IsVec(x: Vec, n: nat) {
    n >= 1 && |x| == n
  }

  ghost predicate IsMat(a: Mat, m: nat, n: nat) {
    m >= 1 && n >= 1 && |a| == m && forall i :: 0 <= i < m ==> |a[i]| == n
  }

  /** The number of columns. */
  function Cols(a: Mat): nat {
    if |a| == 0 then 0 else |a[0]|
  }

  /** Non-empty, with rows of one length. */
  ghost predicate Rect(a: Mat) {
    IsMat(a, |a|, Cols(a))
  }

  // ---------- vectors ----------

  function Dot(x: Vec, y: Vec): real
    requires |x| == |y|
  {
    if |x| == 0 then 0.0 else x[0] * y[0] + Dot(x[1..], y[1..])
  }

  function VAdd(x: Vec, y: Vec): (r: Vec)
    requires |x| == |y|
    ensures |r| == |x|
  {
    seq(|x|, i requires 0 <= i < |x| => x[i] + y[i])
  }

  function VSub(x: Vec, y: Vec): (r: Vec)
    requires |x| == |y|
    ensures |r| == |x|
  {
    seq(|x|, i requires 0 <= i < |x| => x[i] - y[i])
  }

  function VScale(c: real, x: Vec): (r: Vec)
    ensures |r| == |x|
  {
    seq(|x|, i requires 0 <= i < |x| => c * x[i])
  }

  function Zeros(n: nat): Vec {
    seq(n, i => 0.0)
  }

  function Unit(n: nat, k: nat): Vec {
    seq(n, i => if i == k then 1.0 else 0.0)
  }

  lemma {:induction false} DotSymmetric(x: Vec, y: Vec)
    requires |x| == |y|
    ensures Dot(x, y) == Dot(y, x)
  {
    if |x| > 0 {
      DotSymmetric(x[1..], y[1..]);
    }
  }

  lemma {:induction false} DotAdd(x: Vec, y: Vec, z: Vec)
    requires |x| == |y| == |z|
    ensures Dot(VAdd(x, y), z) == Dot(x, z) + Dot(y, z)
    ensures Dot(z, VAdd(x, y)) == Dot(z, x) + Dot(z, y)
  {
    if |x| > 0 {
      assert VAdd(x, y)[1..] == VAdd(x[1..], y[1..]);
      DotAdd(x[1..], y[1..], z[1..]);
    }
  }

  lemma ScaleTail(c: real, x: Vec)
    requires |x| > 0
    ensures VScale(c, x)[1..] == VScale(c, x[1..])
  {
    forall i | 0 <= i < |x| - 1 ensures VScale(c, x)[1..][i] == VScale(c, x[1..])[i] {
      assert x[1..][i] == x[i + 1];
    }
  }

  lemma {:induction false} DotScale(c: real, x: Vec, z: Vec)
    requires |x| == |z|
    ensures Dot(VScale(c, x), z) == c * Dot(x, z)
    ensures Dot(z, VScale(c, x)) == c * Dot(z, x)
  {
    if |x| > 0 {
      ScaleTail(c, x);
      DotScale(c, x[1..], z[1..]);
      ScaleStep(c, x[0], z[0], Dot(x[1..], z[1..]));
      ScaleStep(c, z[0], x[0], Dot(z[1..], x[1..]));
    }
  }

  lemma ScaleStep(c: real, a: real, b: real, d: real)
    ensures (c * a) * b + c * d == c * (a * b + d)
    ensures a * (c * b) + c * d == c * (a * b + d)
  {
  }

  lemma DotSub(x: Vec, y: Vec, z: Vec)
    requires |x| == |y| == |z|
    ensures Dot(VSub(x, y), z) == Dot(x, z) - Dot(y, z)
    ensures Dot(z, VSub(x, y)) == Dot(z, x) - Dot(z, y)
  {
    assert VSub(x, y) == VAdd(x, VScale(-1.0, y));
    DotAdd(x, VScale(-1.0, y), z);
    DotScale(-1.0, y, z);
  }

  lemma {:induction false} DotZero(x: Vec, z: Vec)
    requires |x| == |z|
    requires forall i :: 0 <= i < |x| ==> x[i] == 0.0
    ensures Dot(x, z) == 0.0 && Dot(z, x) == 0.0
  {
    if |x| > 0 {
      DotZero(x[1..], z[1..]);
    }
  }

  lemma {:induction false} DotUnit(k: nat, z: Vec)
    requires k < |z|
    ensures Dot(Unit(|z|, k), z) == z[k] && Dot(z, Unit(|z|, k)) == z[k]
  {
    var u := Unit(|z|, k);
    if k == 0 {
      DotZero(u[1..], z[1..]);
    } else {
      assert u[1..] == Unit(|z[1..]|, k - 1);
      DotUnit(k - 1, z[1..]);
    }
  }

  function Max(a: real, b: real): (r: real)
    ensures r >= a && r >= b && (r == a || r == b)
  {
    if a >= b then a else b
  }

  lemma ProductSign(a: real, b: real, p: real)
    requires p == a * b
    ensures a > 0.0 && b > 0.0 ==> p > 0.0
    ensures a >= 0.0 && b >= 0.0 ==> p >= 0.0
  {
  }

  lemma SquareSign(r: real, q: real)
    requires q == r * r
    ensures q >= 0.0
    ensures r != 0.0 ==> q > 0.0
  {
    ProductSign(r, r, q);
    ProductSign(-r, -r, q);
  }

  /** A sum of squares is non-negative, and zero only for the zero vector. */
  lemma {:induction false} DotSelf(x: Vec)
    ensures Dot(x, x) >= 0.0
    ensures Dot(x, x) == 0.0 ==> x == Zeros(|x|)
  {
    if |x| > 0 {
      var r, d := x[0], Dot(x[1..], x[1..]);
      DotSelf(x[1..]);
      SquareSign(r, r * r);
      if Dot(x, x) == 0.0 {
        assert r == 0.0;
        assert forall i :: 1 <= i < |x| ==> x[i] == x[1..][i - 1];
      }
    }
  }

  lemma NonZeroEntry(x: Vec) returns (i: nat)
    requires x != Zeros(|x|)
    ensures i < |x| && x[i] != 0.0
  {
    i :| i < |x| && x[i] != 0.0;
  }

  /** Two vectors with the same products with everything are the same vector. */
  lemma VectorExtensionality(u: Vec, v: Vec)
    requires |u| == |v|
    requires forall x: Vec {:trigger Dot(u, x)} :: |x| == |u| ==> Dot(u, x) == Dot(v, x)
    ensures u == v
  {
    forall k | 0 <= k < |u| ensures u[k] == v[k] {
      DotUnit(k, u);
      DotUnit(k, v);
      assert Dot(u, Unit(|u|, k)) == Dot(v, Unit(|u|, k));
    }
  }

  // ---------- matrices ----------

  function MatVec(a: Mat, x: Vec): (r: Vec)
    requires IsMat(a, |a|, |x|)
    ensures |r| == |a|
  {
    seq(|a|, i requires 0 <= i < |a| => Dot(a[i], x))
  }

  /** Row vector times matrix: the combination of the rows of b with the weights u. */
  function VecMat(u: Vec, b: Mat): (r: Vec)
    requires |u| >= 1 && IsMat(b, |u|, Cols(b))
    ensures |r| == Cols(b)
    decreases |u|
  {
    if |u| == 1 then VScale(u[0], b[0])
    else VAdd(VScale(u[0], b[0]), VecMat(u[1..], b[1..]))
  }

  function MatMul(a: Mat, b: Mat): (r: Mat)
    requires Rect(b) && IsMat(a, |a|, |b|)
    ensures IsMat(r, |a|, Cols(b))
  {
    seq(|a|, i requires 0 <= i < |a| => VecMat(a[i], b))
  }

  function Transpose(a: Mat): (r: Mat)
    requires Rect(a)
    ensures IsMat(r, Cols(a), |a|)
  {
    seq(Cols(a), j requires 0 <= j < Cols(a) => seq(|a|, i requires 0 <= i < |a| => a[i][j]))
  }

  function MAdd(a: Mat, b: Mat): (r: Mat)
    requires Rect(a) && IsMat(b, |a|, Cols(a))
    ensures IsMat(r, |a|, Cols(a))
  {
    seq(|a|, i requires 0 <= i < |a| => VAdd(a[i], b[i]))
  }

  function MSub(a: Mat, b: Mat): (r: Mat)
    requires Rect(a) && IsMat(b, |a|, Cols(a))
    ensures IsMat(r, |a|, Cols(a))
  {
    seq(|a|, i requires 0 <= i < |a| => VSub(a[i], b[i]))
  }

  function MScale(c: real, a: Mat): (r: Mat)
    requires Rect(a)
    ensures IsMat(r, |a|, Cols(a))
  {
    seq(|a|, i requires 0 <= i < |a| => VScale(c, a[i]))
  }

  function Outer(u: Vec, v: Vec): (r: Mat)
    requires |u| >= 1 && |v| >= 1
    ensures IsMat(r, |u|, |v|)
  {
    seq(|u|, i requires 0 <= i < |u| => VScale(u[i], v))
  }

  function Diagonal(d: Vec): (r: Mat)
    requires |d| >= 1
    ensures IsMat(r, |d|, |d|)
  {
    seq(|d|, i requires 0 <= i < |d| => VScale(d[i], Unit(|d|, i)))
  }

  function Identity(n: nat): (r: Mat)
    requires n >= 1
    ensures IsMat(r, n, n)
  {
    seq(n, (i: nat) => Unit(n, i))
  }

  // ---------- how each operation acts on vectors ----------

  lemma {:induction false} VecMatDot(u: Vec, b: Mat, x: Vec)
    requires |u| >= 1 && IsMat(b, |u|, |x|)
    ensures Dot(VecMat(u, b), x) == Dot(u, MatVec(b, x))
    decreases |u|
  {
    var y := MatVec(b, x);
    DotFirst(u, y);
    MatVecAt(b, x, 0);
    hide Dot, VScale;
    DotScaleNamed(u[0], b[0], x, y[0]);
    if |u| == 1 {
      DotEmpty(u[1..], y[1..]);
    } else {
      VecMatDot(u[1..], b[1..], x);
      assert MatVec(b[1..], x) == y[1..];
      DotAdd(VScale(u[0], b[0]), VecMat(u[1..], b[1..]), x);
    }
  }

  lemma DotFirst(x: Vec, y: Vec)
    requires |x| == |y| >= 1
    ensures Dot(x, y) == x[0] * y[0] + Dot(x[1..], y[1..])
  {
  }

  lemma DotEmpty(x: Vec, y: Vec)
    requires |x| == |y| == 0
    ensures Dot(x, y) == 0.0
  {
  }

  lemma MulActs(a: Mat, b: Mat, x: Vec)
    requires IsMat(b, |b|, |x|) && IsMat(a, |a|, |b|)
    ensures MatVec(MatMul(a, b), x) == MatVec(a, MatVec(b, x))
  {
    forall i | 0 <= i < |a| ensures MatVec(MatMul(a, b), x)[i] == MatVec(a, MatVec(b, x))[i] {
      VecMatDot(a[i], b, x);
    }
  }

  lemma AddActs(a: Mat, b: Mat, x: Vec)
    requires IsMat(a, |a|, |x|) && IsMat(b, |a|, |x|)
    ensures MatVec(MAdd(a, b), x) == VAdd(MatVec(a, x), MatVec(b, x))
  {
    forall i | 0 <= i < |a| ensures MatVec(MAdd(a, b), x)[i] == VAdd(MatVec(a, x), MatVec(b, x))[i] {
      DotAdd(a[i], b[i], x);
    }
  }

  lemma SubActs(a: Mat, b: Mat, x: Vec)
    requires IsMat(a, |a|, |x|) && IsMat(b, |a|, |x|)
    ensures MatVec(MSub(a, b), x) == VSub(MatVec(a, x), MatVec(b, x))
  {
    forall i | 0 <= i < |a| ensures MatVec(MSub(a, b), x)[i] == VSub(MatVec(a, x), MatVec(b, x))[i] {
      DotSub(a[i], b[i], x);
    }
  }

  lemma ScaleActs(c: real, a: Mat, x: Vec)
    requires IsMat(a, |a|, |x|)
    ensures MatVec(MScale(c, a), x) == VScale(c, MatVec(a, x))
  {
    forall i | 0 <= i < |a| ensures MatVec(MScale(c, a), x)[i] == VScale(c, MatVec(a, x))[i] {
      ScaleActsAt(c, a, x, i, MatVec(a, x)[i]);
    }
  }

  lemma ScaleActsAt(c: real, a: Mat, x: Vec, i: nat, d: real)
    requires i < |a| && IsMat(a, |a|, |x|) && d == MatVec(a, x)[i]
    ensures MatVec(MScale(c, a), x)[i] == c * d
  {
    hide Dot, VScale;
    DotScaleNamed(c, a[i], x, d);
  }

  lemma OuterActs(u: Vec, v: Vec, x: Vec)
    requires |u| >= 1 && |v| >= 1 && |x| == |v|
    ensures MatVec(Outer(u, v), x) == VScale(Dot(v, x), u)
  {
    hide MatVec, Outer, VScale, Dot;
    var c := Dot(v, x);
    forall i | 0 <= i < |u| ensures MatVec(Outer(u, v), x)[i] == VScale(c, u)[i] {
      OuterRowActs(u, v, x, i, c);
      ScaleEntry(c, u, i);
    }
  }

  lemma MatVecAt(a: Mat, x: Vec, i: nat)
    requires IsMat(a, |a|, |x|) && i < |a|
    ensures MatVec(a, x)[i] == Dot(a[i], x)
  {
  }

  lemma OuterRow(u: Vec, v: Vec, i: nat)
    requires i < |u| && |v| >= 1
    ensures Outer(u, v)[i] == VScale(u[i], v)
  {
  }

  lemma OuterRowActs(u: Vec, v: Vec, x: Vec, i: nat, d: real)
    requires i < |u| && |v| >= 1 && |x| == |v| && d == Dot(v, x)
    ensures MatVec(Outer(u, v), x)[i] == d * u[i]
  {
    hide Dot, VScale, Outer, MatVec;
    OuterRow(u, v, i);
    MatVecAt(Outer(u, v), x, i);
    DotScaleNamed(u[i], v, x, d);
  }

  /** DotScale with the plain product named, which keeps Dot out of non-linear terms. */
  lemma {:induction false} DotScaleNamed(c: real, x: Vec, z: Vec, d: real)
    requires |x| == |z| && d == Dot(x, z)
    ensures Dot(VScale(c, x), z) == c * d
  {
    if |x| > 0 {
      var p := x[0] * z[0];
      ScaleTail(c, x);
      DotScaleNamed(c, x[1..], z[1..], d - p);
      assert (c * x[0]) * z[0] == c * p;
    }
  }

  lemma ScaleEntry(c: real, x: Vec, i: nat)
    requires i < |x|
    ensures VScale(c, x)[i] == c * x[i]
  {
  }

  lemma DiagonalActs(d: Vec, x: Vec)
    requires |d| >= 1 && |x| == |d|
    ensures forall i :: 0 <= i < |d| ==> MatVec(Diagonal(d), x)[i] == d[i] * x[i]
  {
    forall i | 0 <= i < |d| ensures MatVec(Diagonal(d), x)[i] == d[i] * x[i] {
      DiagonalActsAt(d, x, i);
    }
  }

  lemma DiagonalActsAt(d: Vec, x: Vec, i: nat)
    requires i < |d| && |x| == |d|
    ensures MatVec(Diagonal(d), x)[i] == d[i] * x[i]
  {
    DotUnit(i, x);
    hide Dot, Unit, VScale;
    DotScaleNamed(d[i], Unit(|d|, i), x, x[i]);
  }

  lemma IdentityActs(x: Vec)
    requires |x| >= 1
    ensures MatVec(Identity(|x|), x) == x
  {
    forall i | 0 <= i < |x| ensures MatVec(Identity(|x|), x)[i] == x[i] {
      DotUnit(i, x);
    }
  }

  lemma MatVecLinear(a: Mat, x: Vec, y: Vec)
    requires |x| == |y| && IsMat(a, |a|, |x|)
    ensures MatVec(a, VAdd(x, y)) == VAdd(MatVec(a, x), MatVec(a, y))
    ensures MatVec(a, VSub(x, y)) == VSub(MatVec(a, x), MatVec(a, y))
  {
    forall i | 0 <= i < |a|
      ensures MatVec(a, VAdd(x, y))[i] == VAdd(MatVec(a, x), MatVec(a, y))[i]
      ensures MatVec(a, VSub(x, y))[i] == VSub(MatVec(a, x), MatVec(a, y))[i]
    {
      DotAdd(x, y, a[i]);
      DotSub(x, y, a[i]);
    }
  }

  lemma Adjoint(a: Mat, x: Vec, y: Vec)
    requires |x| >= 1 && IsMat(a, |x|, |y|)
    ensures Dot(x, MatVec(a, y)) == Dot(MatVec(Transpose(a), x), y)
  {
    VecMatDot(x, a, y);
    forall j | 0 <= j < |y| ensures VecMat(x, a)[j] == MatVec(Transpose(a), x)[j] {
      VecMatEntry(x, a, j);
      DotSymmetric(x, Transpose(a)[j]);
    }
    assert VecMat(x, a) == MatVec(Transpose(a), x);
  }

  lemma {:induction false} VecMatEntry(u: Vec, b: Mat, j: nat)
    requires |u| >= 1 && IsMat(b, |u|, Cols(b)) && j < Cols(b)
    ensures VecMat(u, b)[j] == Dot(u, Transpose(b)[j])
    decreases |u|
  {
    var c := Transpose(b)[j];
    hide Dot, VScale;
    DotFirst(u, c);
    EntryIs(u[0], b[0], j, c[0]);
    if |u| == 1 {
      DotEmpty(u[1..], c[1..]);
    } else {
      assert Transpose(b[1..])[j] == c[1..];
      VecMatEntry(u[1..], b[1..], j);
    }
  }

  lemma EntryIs(k: real, x: Vec, j: nat, e: real)
    requires j < |x| && e == x[j]
    ensures VScale(k, x)[j] == k * e
  {
  }

  /** Matrices that act alike on every vector are equal. */
  lemma Extensionality(a: Mat, b: Mat, m: nat, n: nat)
    requires IsMat(a, m, n) && IsMat(b, m, n)
    requires forall x: Vec {:trigger MatVec(a, x)} :: |x| == n ==> MatVec(a, x) == MatVec(b, x)
    ensures a == b
  {
    forall i | 0 <= i < m ensures a[i] == b[i] {
      forall x: Vec {:trigger Dot(a[i], x)} | |x| == |a[i]| ensures Dot(a[i], x) == Dot(b[i], x) {
        assert MatVec(a, x)[i] == MatVec(b, x)[i];
      }
      VectorExtensionality(a[i], b[i]);
    }
  }

  // ---------- ring laws ----------

  lemma MulAssoc(a: Mat, b: Mat, c: Mat)
    requires Rect(c) && IsMat(b, |b|, |c|) && IsMat(a, |a|, |b|)
    ensures MatMul(MatMul(a, b), c) == MatMul(a, MatMul(b, c))
  {
    var l, r := MatMul(MatMul(a, b), c), MatMul(a, MatMul(b, c));
    forall x: Vec {:trigger MatVec(l, x)} | |x| == Cols(c) ensures MatVec(l, x) == MatVec(r, x) {
      MulActs(MatMul(a, b), c, x);
      MulActs(a, b, MatVec(c, x));
      MulActs(a, MatMul(b, c), x);
      MulActs(b, c, x);
    }
    Extensionality(l, r, |a|, Cols(c));
  }

  lemma MulAddLeft(a: Mat, b: Mat, c: Mat)
    requires Rect(c) && IsMat(a, |a|, |c|) && IsMat(b, |a|, |c|)
    ensures MatMul(MAdd(a, b), c) == MAdd(MatMul(a, c), MatMul(b, c))
    ensures MatMul(MSub(a, b), c) == MSub(MatMul(a, c), MatMul(b, c))
  {
    var l, r := MatMul(MAdd(a, b), c), MAdd(MatMul(a, c), MatMul(b, c));
    var l', r' := MatMul(MSub(a, b), c), MSub(MatMul(a, c), MatMul(b, c));
    forall x: Vec | |x| == Cols(c)
      ensures MatVec(l, x) == MatVec(r, x)
      ensures MatVec(l', x) == MatVec(r', x)
    {
      MulActs(MAdd(a, b), c, x);
      MulActs(MSub(a, b), c, x);
      AddActs(a, b, MatVec(c, x));
      SubActs(a, b, MatVec(c, x));
      AddActs(MatMul(a, c), MatMul(b, c), x);
      SubActs(MatMul(a, c), MatMul(b, c), x);
      MulActs(a, c, x);
      MulActs(b, c, x);
    }
    Extensionality(l, r, |a|, Cols(c));
    Extensionality(l', r', |a|, Cols(c));
  }

  lemma MulAddRight(a: Mat, b: Mat, c: Mat)
    requires Rect(b) && IsMat(c, |b|, Cols(b)) && IsMat(a, |a|, |b|)
    ensures MatMul(a, MAdd(b, c)) == MAdd(MatMul(a, b), MatMul(a, c))
    ensures MatMul(a, MSub(b, c)) == MSub(MatMul(a, b), MatMul(a, c))
  {
    var l, r := MatMul(a, MAdd(b, c)), MAdd(MatMul(a, b), MatMul(a, c));
    var l', r' := MatMul(a, MSub(b, c)), MSub(MatMul(a, b), MatMul(a, c));
    forall x: Vec | |x| == Cols(b)
      ensures MatVec(l, x) == MatVec(r, x)
      ensures MatVec(l', x) == MatVec(r', x)
    {
      MulActs(a, MAdd(b, c), x);
      MulActs(a, MSub(b, c), x);
      AddActs(b, c, x);
      SubActs(b, c, x);
      MatVecLinear(a, MatVec(b, x), MatVec(c, x));
      AddActs(MatMul(a, b), MatMul(a, c), x);
      SubActs(MatMul(a, b), MatMul(a, c), x);
      MulActs(a, b, x);
      MulActs(a, c, x);
    }
    Extensionality(l, r, |a|, Cols(b));
    Extensionality(l', r', |a|, Cols(b));
  }

  lemma MulIdentity(a: Mat, m: nat, n: nat)
    requires IsMat(a, m, n)
    ensures MatMul(a, Identity(n)) == a
    ensures MatMul(Identity(m), a) == a
  {
    forall x: Vec | |x| == n
      ensures MatVec(MatMul(a, Identity(n)), x) == MatVec(a, x)
      ensures MatVec(MatMul(Identity(m), a), x) == MatVec(a, x)
    {
      MulActs(a, Identity(n), x);
      IdentityActs(x);
      MulActs(Identity(m), a, x);
      IdentityActs(MatVec(a, x));
    }
    Extensionality(MatMul(a, Identity(n)), a, m, n);
    Extensionality(MatMul(Identity(m), a), a, m, n);
  }

  // ---------- transposes ----------

  lemma TransposeTwice(a: Mat, m: nat, n: nat)
    requires IsMat(a, m, n)
    ensures Transpose(Transpose(a)) == a
  {
    forall i | 0 <= i < m ensures Transpose(Transpose(a))[i] == a[i] {
      assert forall j :: 0 <= j < n ==> Transpose(Transpose(a))[i][j] == a[i][j];
    }
  }

  lemma TransposeMul(a: Mat, b: Mat)
    requires Rect(b) && IsMat(a, |a|, |b|)
    ensures Transpose(MatMul(a, b)) == MatMul(Transpose(b), Transpose(a))
  {
    var l, r := Transpose(MatMul(a, b)), MatMul(Transpose(b), Transpose(a));
    forall x: Vec {:trigger MatVec(l, x)} | |x| == |a| ensures MatVec(l, x) == MatVec(r, x) {
      forall y: Vec {:trigger Dot(MatVec(l, x), y)} | |y| == Cols(b) ensures Dot(MatVec(l, x), y) == Dot(MatVec(r, x), y) {
        Adjoint(MatMul(a, b), x, y);
        MulActs(a, b, y);
        Adjoint(a, x, MatVec(b, y));
        Adjoint(b, MatVec(Transpose(a), x), y);
        MulActs(Transpose(b), Transpose(a), x);
      }
      VectorExtensionality(MatVec(l, x), MatVec(r, x));
    }
    Extensionality(l, r, Cols(b), |a|);
  }

  lemma TransposeAdd(a: Mat, b: Mat)
    requires Rect(a) && IsMat(b, |a|, Cols(a))
    ensures Transpose(MAdd(a, b)) == MAdd(Transpose(a), Transpose(b))
    ensures Transpose(MSub(a, b)) == MSub(Transpose(a), Transpose(b))
  {
    forall j | 0 <= j < Cols(a)
      ensures Transpose(MAdd(a, b))[j] == MAdd(Transpose(a), Transpose(b))[j]
      ensures Transpose(MSub(a, b))[j] == MSub(Transpose(a), Transpose(b))[j]
    {
    }
  }

  lemma TransposeScale(c: real, a: Mat)
    requires Rect(a)
    ensures Transpose(MScale(c, a)) == MScale(c, Transpose(a))
  {
    forall j | 0 <= j < Cols(a) ensures Transpose(MScale(c, a))[j] == MScale(c, Transpose(a))[j] {
      forall i | 0 <= i < |a| ensures Transpose(MScale(c, a))[j][i] == MScale(c, Transpose(a))[j][i] {
        assert Transpose(a)[j][i] == a[i][j];
      }
    }
  }

  lemma TransposeIdentity(n: nat)
    requires n >= 1
    ensures Transpose(Identity(n)) == Identity(n)
  {
    forall j | 0 <= j < n ensures Transpose(Identity(n))[j] == Identity(n)[j] {
    }
  }

  lemma TransposeDiagonal(d: Vec)
    requires |d| >= 1
    ensures Transpose(Diagonal(d)) == Diagonal(d)
  {
    forall j | 0 <= j < |d| ensures Transpose(Diagonal(d))[j] == Diagonal(d)[j] {
    }
  }

  lemma TransposeOuter(v: Vec)
    requires |v| >= 1
    ensures Transpose(Outer(v, v)) == Outer(v, v)
  {
    forall j | 0 <= j < |v| ensures Transpose(Outer(v, v))[j] == Outer(v, v)[j] {
    }
  }
}
