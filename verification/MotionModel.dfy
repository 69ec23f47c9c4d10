/**
 The constant-acceleration motion model: the 6x6 transition F(dt) and process noise Q(dt)
 are built of 2x2 blocks c * I.  Blocks(c) is that layout, and everything about it reduces
 to the 3x3 matrix c of coefficients.
 */
module MotionModel {
  import opened LinearAlgebra
  import opened PositiveDefinite

  // ---------- the block layout ----------

  /** c * I, block by block. */
  function Blocks(c: Mat): (r: Mat)
    requires IsMat(c, |c|, |c|)
    ensures IsMat(r, 2 * |c|, 2 * |c|)
  {
    seq(2 * |c|, i requires 0 <= i < 2 * |c| => Spread(c[i / 2], i % 2))
  }

  function Spread(a: Vec, s: nat): (r: Vec)
    ensures |r| == 2 * |a|
  {
    seq(2 * |a|, k requires 0 <= k < 2 * |a| => if k % 2 == s then a[k / 2] else 0.0)
  }

  /** The entries of one axis: every second entry, from s. */
  function Axis(x: Vec, s: nat): (r: Vec)
    requires |x| % 2 == 0 && s < 2
    ensures |r| == |x| / 2
  {
    seq(|x| / 2, k requires 0 <= k < |x| / 2 => x[2 * k + s])
  }

  lemma {:induction false} SplitDot(x: Vec, y: Vec)
    requires |x| == |y| && |x| % 2 == 0
    ensures Dot(x, y) == Dot(Axis(x, 0), Axis(y, 0)) + Dot(Axis(x, 1), Axis(y, 1))
  {
    if x == [] {
      assert Axis(x, 0) == Axis(x, 1) == [];
    } else {
      AxisTail(x, 0);
      AxisTail(x, 1);
      AxisTail(y, 0);
      AxisTail(y, 1);
      SplitDot(x[2..], y[2..]);
      assert x[1..][1..] == x[2..] && y[1..][1..] == y[2..];
      hide Axis, Dot;
      DotFirst(x, y);
      DotFirst(x[1..], y[1..]);
      DotFirst(Axis(x, 0), Axis(y, 0));
      DotFirst(Axis(x, 1), Axis(y, 1));
    }
  }

  lemma AxisTail(x: Vec, s: nat)
    requires |x| >= 2 && |x| % 2 == 0 && s < 2
    ensures Axis(x, s) == [x[s]] + Axis(x[2..], s)
    ensures Axis(x, s)[1..] == Axis(x[2..], s)
  {
    forall k | 0 <= k < |x| / 2 ensures Axis(x, s)[k] == ([x[s]] + Axis(x[2..], s))[k] {
      if k > 0 {
        assert x[2..][2 * (k - 1) + s] == x[2 * k + s];
      }
    }
  }

  lemma SpreadDot(a: Vec, s: nat, x: Vec)
    requires |x| == 2 * |a| && s < 2
    ensures Dot(Spread(a, s), x) == Dot(a, Axis(x, s))
  {
    SplitDot(Spread(a, s), x);
    SpreadAxis(a, s);
    DotZero(Axis(Spread(a, s), 1 - s), Axis(x, 1 - s));
  }

  lemma SpreadAxis(a: Vec, s: nat)
    requires s < 2
    ensures Axis(Spread(a, s), s) == a
    ensures Axis(Spread(a, s), 1 - s) == Zeros(|a|)
  {
    forall k | 0 <= k < |a| ensures Axis(Spread(a, s), s)[k] == a[k] && Axis(Spread(a, s), 1 - s)[k] == 0.0 {
      assert (2 * k + s) % 2 == s && (2 * k + s) / 2 == k;
    }
  }

  lemma BlocksRow(c: Mat, k: nat, s: nat)
    requires IsMat(c, |c|, |c|) && k < |c| && s < 2
    ensures Blocks(c)[2 * k + s] == Spread(c[k], s)
  {
    assert (2 * k + s) % 2 == s && (2 * k + s) / 2 == k;
  }

  lemma BlocksAct(c: Mat, x: Vec, s: nat)
    requires IsMat(c, |c|, |c|) && |x| == 2 * |c| && s < 2
    ensures Axis(MatVec(Blocks(c), x), s) == MatVec(c, Axis(x, s))
  {
    hide MatVec, Dot, Spread, Blocks;
    forall k | 0 <= k < |c| ensures Axis(MatVec(Blocks(c), x), s)[k] == MatVec(c, Axis(x, s))[k] {
      BlocksRow(c, k, s);
      MatVecAt(Blocks(c), x, 2 * k + s);
      MatVecAt(c, Axis(x, s), k);
      SpreadDot(c[k], s, x);
    }
  }

  lemma AxesDetermine(x: Vec, y: Vec)
    requires |x| == |y| && |x| % 2 == 0
    requires Axis(x, 0) == Axis(y, 0) && Axis(x, 1) == Axis(y, 1)
    ensures x == y
  {
    forall i | 0 <= i < |x| ensures x[i] == y[i] {
      assert x[i] == Axis(x, i % 2)[i / 2] && y[i] == Axis(y, i % 2)[i / 2];
    }
  }

  lemma BlocksMul(a: Mat, b: Mat, n: nat)
    requires IsMat(a, n, n) && IsMat(b, n, n)
    ensures MatMul(Blocks(a), Blocks(b)) == Blocks(MatMul(a, b))
  {
    var l, r := MatMul(Blocks(a), Blocks(b)), Blocks(MatMul(a, b));
    forall x: Vec {:trigger MatVec(l, x)} | |x| == 2 * n ensures MatVec(l, x) == MatVec(r, x) {
      MulActs(Blocks(a), Blocks(b), x);
      var y := MatVec(Blocks(b), x);
      BlocksAct(b, x, 0);
      BlocksAct(b, x, 1);
      BlocksAct(a, y, 0);
      BlocksAct(a, y, 1);
      BlocksAct(MatMul(a, b), x, 0);
      BlocksAct(MatMul(a, b), x, 1);
      MulActs(a, b, Axis(x, 0));
      MulActs(a, b, Axis(x, 1));
      AxesDetermine(MatVec(l, x), MatVec(r, x));
    }
    Extensionality(l, r, 2 * n, 2 * n);
  }

  lemma BlocksAdd(a: Mat, b: Mat, n: nat)
    requires IsMat(a, n, n) && IsMat(b, n, n)
    ensures MAdd(Blocks(a), Blocks(b)) == Blocks(MAdd(a, b))
  {
    forall i | 0 <= i < 2 * n ensures MAdd(Blocks(a), Blocks(b))[i] == Blocks(MAdd(a, b))[i] {
    }
  }

  lemma BlocksTranspose(a: Mat, n: nat)
    requires IsMat(a, n, n)
    ensures Transpose(Blocks(a)) == Blocks(Transpose(a))
  {
    forall i | 0 <= i < 2 * n ensures Transpose(Blocks(a))[i] == Blocks(Transpose(a))[i] {
      forall j | 0 <= j < 2 * n ensures Transpose(Blocks(a))[i][j] == Blocks(Transpose(a))[i][j] {
        assert Transpose(Blocks(a))[i][j] == Blocks(a)[j][i];
      }
    }
  }

  lemma QuadBlocks(c: Mat, x: Vec)
    requires IsMat(c, |c|, |c|) && |x| == 2 * |c|
    ensures Quad(Blocks(c), x) == Quad(c, Axis(x, 0)) + Quad(c, Axis(x, 1))
  {
    SplitDot(x, MatVec(Blocks(c), x));
    BlocksAct(c, x, 0);
    BlocksAct(c, x, 1);
  }

  lemma BlocksDefinite(c: Mat, n: nat)
    requires Definite(c, n)
    ensures Definite(Blocks(c), 2 * n)
  {
    BlocksTranspose(c, n);
    DefiniteIsSemiDefinite(c, n);
    forall x: Vec {:trigger Quad(Blocks(c), x)} | |x| == 2 * n && x != Zeros(2 * n) ensures Quad(Blocks(c), x) > 0.0 {
      QuadBlocks(c, x);
      if Axis(x, 0) == Zeros(n) && Axis(x, 1) == Zeros(n) {
        AxesDetermine(x, Zeros(2 * n));
      }
    }
  }

  // ---------- transition and process noise ----------

  /** The coefficients of position, velocity and acceleration after t seconds. */
  function Transition3(t: real): (f: Mat)
    ensures IsMat(f, 3, 3)
  {
    [[1.0, t, (t * t) * 0.5],
     [0.0, 1.0, t],
     [0.0, 0.0, 1.0]]
  }

  /** The state transition matrix F. */
  function BuildFk(dt: real): (f: Mat)
    ensures IsMat(f, 6, 6)
  {
    Blocks(Transition3(dt))
  }

  function Noise3(q: real, t: real): (r: Mat)
    ensures IsMat(r, 3, 3)
  {
    var t2 := t * t;
    var t3 := t2 * t;
    var t4 := t3 * t;
    var t5 := t4 * t;
    [[q * t5 / 20.0, q * t4 / 8.0, q * t3 / 6.0],
     [q * t4 / 8.0, q * t3 / 3.0, q * t2 / 2.0],
     [q * t3 / 6.0, q * t2 / 2.0, q * t]]
  }

  /** Twice the nominal jerk density with a GPS fix, once without. */
  function EffectiveDensity(jerkPsd: real, hasGps: bool): real {
    jerkPsd * (if hasGps then 2.0 else 1.0)
  }

  function ZeroMatrix(): (z: Mat)
    ensures IsMat(z, 6, 6)
  {
    seq(6, i => Zeros(6))
  }

  /** The process noise Q; zero for a time step that is not positive. */
  function UpdatedQ(jerkPsd: real, dt: real, hasGps: bool): (q: Mat)
    ensures IsMat(q, 6, 6)
  {
    if dt <= 0.0 then ZeroMatrix()
    else
      var q := Blocks(Noise3(EffectiveDensity(jerkPsd, hasGps), dt));
      MScale(0.5, MAdd(q, Transpose(q)))
  }

  // ---------- F composes ----------

  lemma TransitionsCompose(a: real, b: real)
    ensures MatMul(BuildFk(a), BuildFk(b)) == BuildFk(a + b)
    ensures MatMul(BuildFk(b), BuildFk(a)) == BuildFk(a + b)
    ensures BuildFk(0.0) == Identity(6)
  {
    BlocksMul(Transition3(a), Transition3(b), 3);
    BlocksMul(Transition3(b), Transition3(a), 3);
    Compose3(a, b);
    Compose3(b, a);
    forall i | 0 <= i < 6 ensures BuildFk(0.0)[i] == Identity(6)[i] {
    }
  }

  /** Of each axis, the velocity moves by the acceleration and the position by the mean of the old and the new velocity. */
  lemma TransitionMoves(dt: real, x: Vec, s: nat)
    requires |x| == 6 && s < 2
    ensures var y := MatVec(BuildFk(dt), x);
      && y[4 + s] == x[4 + s]
      && y[2 + s] == x[2 + s] + dt * x[4 + s]
      && y[s] == x[s] + dt * ((x[2 + s] + y[2 + s]) / 2.0)
  {
    var f, a, y := Transition3(dt), Axis(x, s), MatVec(BuildFk(dt), x);
    BlocksAct(f, x, s);
    var b := MatVec(f, a);
    assert b == Axis(y, s);
    assert y[s] == b[0] && y[2 + s] == b[1] && y[4 + s] == b[2];
    assert a[0] == x[s] && a[1] == x[2 + s] && a[2] == x[4 + s];
    TransitionActs(dt, a);
    hide MatVec, Axis, BuildFk, Transition3;
    MeanVelocity(dt, a[1], a[2], dt * a[2]);
  }

  lemma TransitionActs(t: real, a: Vec)
    requires |a| == 3
    ensures MatVec(Transition3(t), a)[0] == a[0] + t * a[1] + ((t * t) * 0.5) * a[2]
    ensures MatVec(Transition3(t), a)[1] == a[1] + t * a[2]
    ensures MatVec(Transition3(t), a)[2] == a[2]
  {
    var f := Transition3(t);
    assert f[0] == [1.0, t, (t * t) * 0.5] && f[1] == [0.0, 1.0, t] && f[2] == [0.0, 0.0, 1.0];
    hide Transition3;
    RowActs(f, a, 0, 1.0, t, (t * t) * 0.5);
    RowActs(f, a, 1, 0.0, 1.0, t);
    RowActs(f, a, 2, 0.0, 0.0, 1.0);
  }

  lemma MeanVelocity(dt: real, v: real, a: real, d: real)
    requires d == dt * a
    ensures dt * v + ((dt * dt) * 0.5) * a == dt * ((v + (v + d)) / 2.0)
  {
  }

  /** A 3x3 product, entry by entry. */
  lemma Mul3(a: Mat, b: Mat, i: nat, j: nat)
    requires IsMat(a, 3, 3) && IsMat(b, 3, 3) && i < 3 && j < 3
    ensures MatMul(a, b)[i][j] == a[i][0] * b[0][j] + a[i][1] * b[1][j] + a[i][2] * b[2][j]
  {
    var c := Transpose(b)[j];
    VecMatEntry(a[i], b, j);
    Dot3(a[i], c);
  }

  lemma Dot3(x: Vec, y: Vec)
    requires |x| == |y| == 3
    ensures Dot(x, y) == x[0] * y[0] + x[1] * y[1] + x[2] * y[2]
  {
    assert Dot(x, y) == x[0] * y[0] + Dot(x[1..], y[1..]);
    assert Dot(x[1..], y[1..]) == x[1] * y[1] + Dot(x[1..][1..], y[1..][1..]);
    assert Dot(x[1..][1..], y[1..][1..]) == x[2] * y[2] + Dot(x[1..][1..][1..], y[1..][1..][1..]);
  }

  lemma Compose3(a: real, b: real)
    ensures MatMul(Transition3(a), Transition3(b)) == Transition3(a + b)
  {
    var l, r := MatMul(Transition3(a), Transition3(b)), Transition3(a + b);
    forall i | 0 <= i < 3 ensures l[i] == r[i] {
      forall j | 0 <= j < 3 ensures l[i][j] == r[i][j] {
        Mul3(Transition3(a), Transition3(b), i, j);
        HalfSquare(a, b);
      }
    }
  }

  lemma HalfSquare(a: real, b: real)
    ensures ((a + b) * (a + b)) * 0.5 == (b * b) * 0.5 + a * b + (a * a) * 0.5
  {
  }

  // ---------- Q is positive definite ----------

  lemma NoiseDefinite3(q: real, t: real)
    requires q > 0.0 && t > 0.0
    ensures Definite(Noise3(q, t), 3)
  {
    var n := Noise3(q, t);
    SymmetricFromEntries(n, 3);
    forall x: Vec {:trigger Quad(n, x)} | |x| == 3 && x != Zeros(3) ensures Quad(n, x) > 0.0 {
      var i := NonZeroEntry(x);
      QuadNoise(q, t, x);
      NoisePositive(q, t, x[0], x[1], x[2], Quad(n, x));
    }
  }

  lemma Quad3(n: Mat, x: Vec)
    requires IsMat(n, 3, 3) && |x| == 3
    ensures Quad(n, x) == x[0] * (n[0][0] * x[0] + n[0][1] * x[1] + n[0][2] * x[2])
                        + x[1] * (n[1][0] * x[0] + n[1][1] * x[1] + n[1][2] * x[2])
                        + x[2] * (n[2][0] * x[0] + n[2][1] * x[1] + n[2][2] * x[2])
  {
    var m := MatVec(n, x);
    Dot3(n[0], x);
    Dot3(n[1], x);
    Dot3(n[2], x);
    Dot3(x, m);
  }

  /** The form of the process noise over t seconds at (u, v, w). */
  function NoiseForm(q: real, t: real, u: real, v: real, w: real): real {
    var t2 := t * t;
    var t3 := t2 * t;
    var t4 := t3 * t;
    var t5 := t4 * t;
    u * (q * t5 / 20.0 * u + q * t4 / 8.0 * v + q * t3 / 6.0 * w)
      + v * (q * t4 / 8.0 * u + q * t3 / 3.0 * v + q * t2 / 2.0 * w)
      + w * (q * t3 / 6.0 * u + q * t2 / 2.0 * v + q * t * w)
  }

  lemma QuadNoise(q: real, t: real, x: Vec)
    requires |x| == 3
    ensures Quad(Noise3(q, t), x) == NoiseForm(q, t, x[0], x[1], x[2])
  {
    Quad3(Noise3(q, t), x);
  }

  lemma NoisePositive(q: real, t: real, u: real, v: real, w: real, f: real)
    requires q > 0.0 && t > 0.0 && (u != 0.0 || v != 0.0 || w != 0.0)
    requires f == NoiseForm(q, t, u, v, w)
    ensures f > 0.0
  {
    var t2 := t * t;
    var a, b, c := w + t * v / 2.0 + t2 * u / 6.0, t * v + t2 * u / 2.0, t2 * u;
    var aa, bb, cc, qt := a * a, b * b, c * c, q * t;
    var sum := aa + bb / 12.0 + cc / 720.0;
    NoiseSquares(q, t, u, v, w);
    SquareSign(a, aa);
    SquareSign(b, bb);
    SquareSign(c, cc);
    ProductSign(q, t, qt);
    ProductSign(t, t, t2);
    if u != 0.0 {
      NonZeroProduct(t2, u);
    } else if v != 0.0 {
      assert t2 * u == 0.0;
      NonZeroProduct(t, v);
    }
    ProductSign(qt, sum, f);
  }

  /** The form as a positive combination of squares. */
  lemma NoiseSquares(q: real, t: real, u: real, v: real, w: real)
    ensures var t2 := t * t;
      var a, b, c := w + t * v / 2.0 + t2 * u / 6.0, t * v + t2 * u / 2.0, t2 * u;
      NoiseForm(q, t, u, v, w) == (q * t) * (a * a + (b * b) / 12.0 + (c * c) / 720.0)
  {
  }

  lemma NonZeroProduct(a: real, b: real)
    requires a != 0.0 && b != 0.0
    ensures a * b != 0.0
  {
  }

  /** Q is symmetric positive semidefinite for every time step, definite for a positive one. */
  lemma NoiseSemiDefinite(jerkPsd: real, dt: real, hasGps: bool)
    requires jerkPsd > 0.0
    ensures SemiDefinite(UpdatedQ(jerkPsd, dt, hasGps), 6)
    ensures dt > 0.0 ==> Definite(UpdatedQ(jerkPsd, dt, hasGps), 6)
    ensures dt > 0.0 ==> UpdatedQ(jerkPsd, dt, hasGps) == Blocks(Noise3(EffectiveDensity(jerkPsd, hasGps), dt))
  {
    var q := UpdatedQ(jerkPsd, dt, hasGps);
    if dt <= 0.0 {
      SymmetricFromEntries(q, 6);
      forall x: Vec {:trigger Quad(q, x)} | |x| == 6 ensures Quad(q, x) >= 0.0 {
        forall i | 0 <= i < 6 ensures MatVec(q, x)[i] == 0.0 {
          DotZero(q[i], x);
        }
        DotZero(MatVec(q, x), x);
      }
    } else {
      var n := Noise3(EffectiveDensity(jerkPsd, hasGps), dt);
      NoiseDefinite3(EffectiveDensity(jerkPsd, hasGps), dt);
      BlocksDefinite(n, 3);
      var b := Blocks(n);
      HalfOfDouble(b, 6);
      DefiniteIsSemiDefinite(b, 6);
    }
  }

  lemma HalfOfDouble(b: Mat, n: nat)
    requires Symmetric(b, n)
    ensures MScale(0.5, MAdd(b, Transpose(b))) == b
  {
    forall i | 0 <= i < n ensures MScale(0.5, MAdd(b, b))[i] == b[i] {
    }
  }

  /** Per second the acceleration of each axis gains the density in variance, and with a fix all of Q is twice as large. */
  lemma NoiseRate(jerkPsd: real, dt: real, s: nat, t: nat)
    requires jerkPsd > 0.0 && dt > 0.0 && s < 2 && t < 2
    ensures UpdatedQ(jerkPsd, dt, false)[4 + s][4 + t] == if s == t then jerkPsd * dt else 0.0
    ensures UpdatedQ(jerkPsd, dt, true) == MScale(2.0, UpdatedQ(jerkPsd, dt, false))
  {
    NoiseIsBlocks(jerkPsd, dt, false);
    NoiseIsBlocks(jerkPsd, dt, true);
    hide UpdatedQ;
    assert Blocks(Noise3(jerkPsd, dt))[4 + s] == Spread(Noise3(jerkPsd, dt)[2], s);
    hide Blocks;
    TwiceTheBlocks(jerkPsd, dt);
  }

  lemma TwiceTheBlocks(q: real, t: real)
    ensures Blocks(Noise3(q * 2.0, t)) == MScale(2.0, Blocks(Noise3(q, t)))
  {
    var b, c := Blocks(Noise3(q, t)), Blocks(Noise3(q * 2.0, t));
    forall i | 0 <= i < 6 ensures c[i] == MScale(2.0, b)[i] {
      forall j | 0 <= j < 6 ensures c[i][j] == MScale(2.0, b)[i][j] {
        TwiceTheNoise(q, t, i / 2, j / 2);
        var e := b[i][j];
        EntryIs(2.0, b[i], j, e);
        hide Noise3;
      }
    }
  }

  lemma TwiceTheNoise(q: real, t: real, i: nat, j: nat)
    requires i < 3 && j < 3
    ensures Noise3(q * 2.0, t)[i][j] == 2.0 * Noise3(q, t)[i][j]
  {
  }

  // ---------- Q accumulates ----------

  /**
   The noise of a + b seconds is the noise of the first a seconds carried through the next b
   plus the noise of those b.
   */
  lemma NoiseAccumulates(jerkPsd: real, a: real, b: real, hasGps: bool)
    requires jerkPsd > 0.0 && a > 0.0 && b > 0.0
    ensures UpdatedQ(jerkPsd, a + b, hasGps)
         == MAdd(MatMul(MatMul(BuildFk(b), UpdatedQ(jerkPsd, a, hasGps)), Transpose(BuildFk(b))),
                 UpdatedQ(jerkPsd, b, hasGps))
  {
    var q := EffectiveDensity(jerkPsd, hasGps);
    var f, na, nb := Transition3(b), Noise3(q, a), Noise3(q, b);
    NoiseIsBlocks(jerkPsd, a, hasGps);
    NoiseIsBlocks(jerkPsd, b, hasGps);
    NoiseIsBlocks(jerkPsd, a + b, hasGps);
    BlocksCongruence(f, na, nb, 3);
    Accumulates3(q, a, b);
  }

  lemma NoiseIsBlocks(jerkPsd: real, dt: real, hasGps: bool)
    requires jerkPsd > 0.0 && dt > 0.0
    ensures UpdatedQ(jerkPsd, dt, hasGps) == Blocks(Noise3(EffectiveDensity(jerkPsd, hasGps), dt))
  {
    NoiseSemiDefinite(jerkPsd, dt, hasGps);
  }

  lemma BlocksCongruence(f: Mat, c: Mat, d: Mat, n: nat)
    requires IsMat(f, n, n) && IsMat(c, n, n) && IsMat(d, n, n)
    ensures MAdd(MatMul(MatMul(Blocks(f), Blocks(c)), Transpose(Blocks(f))), Blocks(d))
         == Blocks(MAdd(MatMul(MatMul(f, c), Transpose(f)), d))
  {
    BlocksMul(f, c, n);
    BlocksTranspose(f, n);
    BlocksMul(MatMul(f, c), Transpose(f), n);
    BlocksAdd(MatMul(MatMul(f, c), Transpose(f)), d, n);
  }

  lemma Accumulates3(q: real, a: real, b: real)
    ensures Noise3(q, a + b)
         == MAdd(MatMul(MatMul(Transition3(b), Noise3(q, a)), Transpose(Transition3(b))), Noise3(q, b))
  {
    var f, na, nb := Transition3(b), Noise3(q, a), Noise3(q, b);
    NoiseSymmetric(q, a);
    NoiseSymmetric(q, b);
    NoiseSymmetric(q, a + b);
    var s := Noise3(q, a + b);
    forall x: Vec {:trigger Quad(s, x)} | |x| == 3
      ensures Quad(s, x) == Quad(na, MatVec(Transpose(f), x)) + Quad(nb, x)
    {
      TransitionTransposed(b, x);
      CarriedForm(q, a, b, x, MatVec(Transpose(f), x));
    }
    CongruenceByForm(f, na, nb, s, 3);
  }

  lemma NoiseSymmetric(q: real, t: real)
    ensures Symmetric(Noise3(q, t), 3)
  {
    SymmetricFromEntries(Noise3(q, t), 3);
  }

  lemma CarriedForm(q: real, a: real, b: real, x: Vec, y: Vec)
    requires |x| == 3 && |y| == 3
    requires y[0] == x[0] && y[1] == b * x[0] + x[1] && y[2] == (b * b) * 0.5 * x[0] + b * x[1] + x[2]
    ensures Quad(Noise3(q, a + b), x) == Quad(Noise3(q, a), y) + Quad(Noise3(q, b), x)
  {
    QuadNoise(q, a, y);
    QuadNoise(q, b, x);
    QuadNoise(q, a + b, x);
    NoiseFormSplits(q, a, b, x[0], x[1], x[2], y[1], y[2]);
  }

  lemma TransitionTransposed(b: real, x: Vec)
    requires |x| == 3
    ensures MatVec(Transpose(Transition3(b)), x)[0] == x[0]
    ensures MatVec(Transpose(Transition3(b)), x)[1] == b * x[0] + x[1]
    ensures MatVec(Transpose(Transition3(b)), x)[2] == (b * b) * 0.5 * x[0] + b * x[1] + x[2]
  {
    var f := Transpose(Transition3(b));
    assert f[0] == [1.0, 0.0, 0.0];
    assert f[1] == [b, 1.0, 0.0];
    assert f[2] == [(b * b) * 0.5, b, 1.0];
    RowActs(f, x, 0, 1.0, 0.0, 0.0);
    RowActs(f, x, 1, b, 1.0, 0.0);
    RowActs(f, x, 2, (b * b) * 0.5, b, 1.0);
  }

  lemma RowActs(f: Mat, x: Vec, i: nat, p: real, q: real, r: real)
    requires IsMat(f, 3, 3) && |x| == 3 && i < 3 && f[i] == [p, q, r]
    ensures MatVec(f, x)[i] == p * x[0] + q * x[1] + r * x[2]
  {
    Dot3(f[i], x);
  }

  lemma NoiseFormSplits(q: real, a: real, b: real, u: real, v: real, w: real, v': real, w': real)
    requires v' == b * u + v && w' == (b * b) * 0.5 * u + b * v + w
    ensures NoiseForm(q, a + b, u, v, w) == NoiseForm(q, a, u, v', w') + NoiseForm(q, b, u, v, w)
  {
  }
}
