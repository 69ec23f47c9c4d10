/**
 The adaptive part of the filter: a window of the last residuals of each sensor, and the
 measurement noise matrix re-estimated from it.  The diagonal floors keep the estimate positive
 definite as long as the residuals are zero where the sensor observes nothing.
 */
module AdaptiveNoise {
  import opened LinearAlgebra
  import opened PositiveDefinite

  // ---------- windows of residuals ----------

  /** The last residuals of one sensor, at most n of them, and the pushes counted since the last estimate. */
  datatype Window = Window(n: nat, l: nat, count: nat, queue: seq<Vec>)

  ghost predicate Recomputes(w: Window) {
    w.n > 0 && |w.queue| >= w.n && w.count >= w.l
  }

  ghost function Pushed(w: Window, r: Vec): Window {
    if w.n == 0 then w
    else if |w.queue| < w.n then w.(queue := w.queue + [r])
    else Window(w.n, w.l, if w.count >= w.l then 1 else w.count + 1, w.queue[1..] + [r])
  }

  ghost function PushedAll(w: Window, rs: seq<Vec>): Window {
    if rs == [] then w else Pushed(PushedAll(w, rs[..|rs| - 1]), rs[|rs| - 1])
  }

  /** The counter after t pushes into an empty window. */
  ghost function CountAfter(n: nat, l: nat, t: nat): nat {
    if t <= n then 0
    else if t <= n + l then t - n
    else 1 + (t - n - l - 1) % (if l == 0 then 1 else l)
  }

  /** The t-th push is the one that re-estimates. */
  ghost predicate RecomputesAt(n: nat, l: nat, t: nat) {
    t >= n + l + 1 && (t - n - l - 1) % (if l == 0 then 1 else l) == 0
  }

  lemma MultipleBounds(d: int, m: nat)
    ensures d >= 1 ==> d * m >= m as int
    ensures d <= -1 ==> d * m <= -(m as int)
  {
  }

  lemma UniqueRemainder(x: nat, q: nat, r: nat, m: nat)
    requires r < m && x == q * m + r
    ensures x % m == r
  {
    var d := x / m - q;
    assert d * m == r - x % m;
    MultipleBounds(d, m);
  }

  lemma ModStep(k: nat, m: nat)
    requires m >= 1
    ensures (k + 1) % m == if k % m + 1 == m then 0 else k % m + 1
  {
    var q, r := k / m, k % m;
    if r + 1 == m {
      UniqueRemainder(k + 1, q + 1, 0, m);
    } else {
      UniqueRemainder(k + 1, q, r + 1, m);
    }
  }

  /** The counter does what the closed form says. */
  lemma CountStep(n: nat, l: nat, t: nat)
    ensures t <= n ==> CountAfter(n, l, t) == 0
    ensures CountAfter(n, l, t + 1)
         == if t < n then 0 else if CountAfter(n, l, t) >= l then 1 else CountAfter(n, l, t) + 1
    ensures t >= n && CountAfter(n, l, t) >= l <==> RecomputesAt(n, l, t + 1)
  {
    if t >= n + l + 1 {
      ModStep(t - n - l - 1, if l == 0 then 1 else l);
    }
  }

  function Last(rs: seq<Vec>, n: nat): seq<Vec> {
    if |rs| <= n then rs else rs[|rs| - n..]
  }

  lemma LastSlides(s: seq<Vec>, r: Vec, n: nat)
    requires n > 0
    ensures Last(s + [r], n) == (if |s| < n then s else Last(s, n)[1..]) + [r]
    ensures |Last(s, n)| == if |s| < n then |s| else n
    ensures |s| <= n ==> Last(s, n) == s
  {
    if |s| >= n {
      var k := |s| - n;
      assert (s + [r])[k + 1..] == s[k + 1..] + [r];
      assert s[k..][1..] == s[k + 1..];
    }
  }

  /** One push onto the window the closed form gives after the residuals s. */
  lemma WindowStep(n: nat, l: nat, s: seq<Vec>, r: Vec, q: seq<Vec>)
    requires n > 0 && q == Last(s, n)
    ensures Pushed(Window(n, l, CountAfter(n, l, |s|), q), r)
         == Window(n, l, CountAfter(n, l, |s| + 1), Last(s + [r], n))
  {
    hide CountAfter, RecomputesAt, Last;
    CountStep(n, l, |s|);
    LastSlides(s, r, n);
  }

  lemma {:induction false} WindowIs(n: nat, l: nat, rs: seq<Vec>)
    requires n > 0
    ensures PushedAll(Window(n, l, 0, []), rs) == Window(n, l, CountAfter(n, l, |rs|), Last(rs, n))
  {
    if rs == [] {
      CountStep(n, l, 0);
    } else {
      hide Pushed, CountAfter, Last;
      var s, r := rs[..|rs| - 1], rs[|rs| - 1];
      WindowIs(n, l, s);
      WindowStep(n, l, s, r, Last(s, n));
      assert s + [r] == rs;
    }
  }

  /**
   After t pushes the window holds exactly the last min(t, n) residuals in order, and a noise
   matrix is re-estimated exactly at push n + l + 1 and then at every max(1, l)-th push.
   */
  lemma WindowContents(n: nat, l: nat, rs: seq<Vec>)
    requires n > 0
    ensures var w := PushedAll(Window(n, l, 0, []), rs);
      && w == Window(n, l, CountAfter(n, l, |rs|), Last(rs, n))
      && (Recomputes(w) <==> RecomputesAt(n, l, |rs| + 1))
  {
    hide PushedAll, CountAfter, RecomputesAt;
    WindowIs(n, l, rs);
    CountStep(n, l, |rs|);
  }

  // ---------- adaptive noise ----------

  ghost predicate SixEntries(rs: seq<Vec>) {
    forall i :: 0 <= i < |rs| ==> |rs[i]| == 6
  }

  /** The sum of the outer products of the residuals with themselves. */
  function SumOfOuters(rs: seq<Vec>): (s: Mat)
    requires SixEntries(rs)
    ensures IsMat(s, 6, 6)
  {
    if rs == [] then Diagonal(Zeros(6))
    else MAdd(SumOfOuters(rs[..|rs| - 1]), Outer(rs[|rs| - 1], rs[|rs| - 1]))
  }

  function SetDiagonal(a: Mat, d: Vec): (r: Mat)
    requires IsMat(a, |d|, |d|)
    ensures IsMat(r, |d|, |d|)
  {
    seq(|d|, i requires 0 <= i < |d| => a[i][i := d[i]])
  }

  function MeanWeight(rs: seq<Vec>): (c: real)
    requires |rs| > 0
    ensures c > 0.0 && c * |rs| as real == 1.0
  {
    1.0 / |rs| as real
  }

  /** The estimate before its diagonal is floored: mean of outer products plus H P H^T. */
  function RawNoise(rs: seq<Vec>, h: Mat, p: Mat): (r: Mat)
    requires |rs| > 0 && SixEntries(rs)
    requires IsMat(h, 6, 6) && IsMat(p, 6, 6)
    ensures IsMat(r, 6, 6)
  {
    MAdd(MScale(MeanWeight(rs), SumOfOuters(rs)), MatMul(MatMul(h, p), Transpose(h)))
  }

  function GpsDiagonal(b: Mat): (d: Vec)
    requires IsMat(b, 6, 6)
    ensures |d| == 6
  {
    [Max(b[0][0], 1e-16 + 2e-18), Max(b[1][1], 1e-16 - 2e-18), 1.005e-30, 1.002e-30, 1.0007e-30, 1.0001e-30]
  }

  function ImuDiagonal(b: Mat): (d: Vec)
    requires IsMat(b, 6, 6)
    ensures |d| == 6
  {
    [1e30, 1.0000005e30, 1.00002e30, 1.000015e30, Max(b[4][4], 1e-16 - 2e-18), Max(b[5][5], 1e-16 + 3e-18)]
  }

  /** A residual with entries only where the mask is 1. */
  ghost predicate Masked(r: Vec, mask: Vec) {
    |r| == |mask| == 6 && forall k :: 0 <= k < 6 && mask[k] == 0.0 ==> r[k] == 0.0
  }

  ghost predicate AllMasked(rs: seq<Vec>, mask: Vec)
    ensures AllMasked(rs, mask) ==> SixEntries(rs)
  {
    forall i :: 0 <= i < |rs| ==> Masked(rs[i], mask)
  }

  lemma {:induction false} SumOfOutersSemiDefinite(rs: seq<Vec>)
    requires SixEntries(rs)
    ensures SemiDefinite(SumOfOuters(rs), 6)
  {
    if rs == [] {
      DiagonalSemiDefinite(Zeros(6), 6);
    } else {
      var r := rs[|rs| - 1];
      SumOfOutersSemiDefinite(rs[..|rs| - 1]);
      OuterSemiDefinite(r, 6);
      AddSemiDefinite(SumOfOuters(rs[..|rs| - 1]), Outer(r, r), 6);
    }
  }

  lemma {:induction false} SumOfOutersUnobserved(rs: seq<Vec>, mask: Vec, k: nat)
    requires AllMasked(rs, mask)
    requires |mask| == 6 && k < 6 && mask[k] == 0.0
    ensures SumOfOuters(rs)[k][k] == 0.0
  {
    if rs == [] {
      ScaleEntry(0.0, Unit(6, k), k);
    } else {
      var r := rs[|rs| - 1];
      SumOfOutersUnobserved(rs[..|rs| - 1], mask, k);
      ScaleEntry(r[k], r, k);
    }
  }

  lemma SetDiagonalIsAdd(a: Mat, d: Vec, delta: Vec)
    requires IsMat(a, |d|, |d|) && |delta| == |d| >= 1
    requires forall i :: 0 <= i < |d| ==> delta[i] == d[i] - a[i][i]
    ensures SetDiagonal(a, d) == MAdd(a, Diagonal(delta))
  {
    forall i | 0 <= i < |d| ensures SetDiagonal(a, d)[i] == MAdd(a, Diagonal(delta))[i] {
      forall j | 0 <= j < |d| ensures SetDiagonal(a, d)[i][j] == MAdd(a, Diagonal(delta))[i][j] {
        ScaleEntry(delta[i], Unit(|d|, i), j);
      }
    }
  }

  /** The part of a vector the mask keeps. */
  function Kept(mask: Vec, x: Vec): Vec
    requires |mask| == |x|
  {
    seq(|x|, i requires 0 <= i < |x| => mask[i] * x[i])
  }

  function MaskedCovariance(mask: Vec, p: Mat): (r: Mat)
    requires |mask| >= 1 && IsMat(p, |mask|, |mask|)
    ensures IsMat(r, |mask|, |mask|)
  {
    MatMul(MatMul(Diagonal(mask), p), Transpose(Diagonal(mask)))
  }

  /** H P H^T sees only the kept part of a vector. */
  lemma MaskedForm(mask: Vec, p: Mat, x: Vec)
    requires |mask| == |x| >= 1 && IsMat(p, |mask|, |mask|)
    ensures Quad(MaskedCovariance(mask, p), x) == Quad(p, Kept(mask, x))
  {
    TransposeDiagonal(mask);
    QuadCongruence(Diagonal(mask), p, x);
    DiagonalActs(mask, x);
    forall i | 0 <= i < |x| ensures MatVec(Diagonal(mask), x)[i] == Kept(mask, x)[i] {
      assert Kept(mask, x)[i] == mask[i] * x[i];
    }
    assert MatVec(Diagonal(mask), x) == Kept(mask, x);
  }

  lemma MaskedUnobserved(mask: Vec, p: Mat, k: nat)
    requires k < |mask| && IsMat(p, |mask|, |mask|) && mask[k] == 0.0
    ensures MaskedCovariance(mask, p)[k][k] == 0.0
  {
    var e := Unit(|mask|, k);
    DiagonalEntry(MaskedCovariance(mask, p), |mask|, k);
    MaskedForm(mask, p, e);
    assert Kept(mask, e) == Zeros(|mask|);
    QuadOfZero(p, |mask|);
  }

  /**
   A semidefinite s plus H P H^T, with the observed diagonal raised and the unobserved one set
   above zero by delta, is definite.
   */
  lemma RaisedDefinite(s: Mat, mask: Vec, p: Mat, delta: Vec, n: nat)
    requires SemiDefinite(s, n) && Definite(p, n) && |mask| == |delta| == n
    requires forall k :: 0 <= k < n ==> delta[k] >= 0.0 && (mask[k] == 1.0 || delta[k] > 0.0)
    ensures Definite(MAdd(MAdd(s, MaskedCovariance(mask, p)), Diagonal(delta)), n)
  {
    var m := MaskedCovariance(mask, p);
    DefiniteIsSemiDefinite(p, n);
    CongruenceSemiDefinite(Diagonal(mask), p, n, n);
    DiagonalSemiDefinite(delta, n);
    AddSemiDefinite(s, m, n);
    AddSemiDefinite(MAdd(s, m), Diagonal(delta), n);
    forall x: Vec {:trigger Quad(MAdd(MAdd(s, m), Diagonal(delta)), x)} | |x| == n && x != Zeros(n)
      ensures Quad(MAdd(MAdd(s, m), Diagonal(delta)), x) > 0.0
    {
      RaisedForm(s, mask, p, delta, n, x);
    }
  }

  lemma RaisedForm(s: Mat, mask: Vec, p: Mat, delta: Vec, n: nat, x: Vec)
    requires SemiDefinite(s, n) && Definite(p, n) && |mask| == |delta| == |x| == n && x != Zeros(n)
    requires forall k :: 0 <= k < n ==> delta[k] >= 0.0 && (mask[k] == 1.0 || delta[k] > 0.0)
    ensures Quad(MAdd(MAdd(s, MaskedCovariance(mask, p)), Diagonal(delta)), x) > 0.0
  {
    var m := MaskedCovariance(mask, p);
    QuadAdd(MAdd(s, m), Diagonal(delta), x);
    QuadAdd(s, m, x);
    MaskedForm(mask, p, x);
    QuadDiagonal(delta, x);
    KeptPositive(mask, p, n, x);
    var k := NonZeroEntry(x);
    assert mask[k] != 1.0 ==> Quad(Diagonal(delta), x) > 0.0;
  }

  lemma KeptPositive(mask: Vec, p: Mat, n: nat, x: Vec)
    requires Definite(p, n) && |mask| == |x| == n
    ensures Quad(p, Kept(mask, x)) >= 0.0
    ensures forall k :: 0 <= k < n && mask[k] == 1.0 && x[k] != 0.0 ==> Quad(p, Kept(mask, x)) > 0.0
  {
    DefiniteIsSemiDefinite(p, n);
    forall k | 0 <= k < n && mask[k] == 1.0 && x[k] != 0.0 ensures Quad(p, Kept(mask, x)) > 0.0 {
      assert Kept(mask, x)[k] != Zeros(n)[k];
    }
  }

  lemma RawUnobserved(rs: seq<Vec>, mask: Vec, p: Mat, k: nat)
    requires |rs| > 0 && |mask| == 6 && IsMat(p, 6, 6) && k < 6 && mask[k] == 0.0
    requires AllMasked(rs, mask)
    ensures RawNoise(rs, Diagonal(mask), p)[k][k] == 0.0
  {
    SumOfOutersUnobserved(rs, mask, k);
    MaskedUnobserved(mask, p, k);
    ScaleEntry(MeanWeight(rs), SumOfOuters(rs)[k], k);
  }

  /** The observed diagonal is not lowered and the unobserved one, zero before, becomes positive. */
  ghost predicate Raises(d: Vec, b: Mat, mask: Vec) {
    && |mask| == |d| >= 1 && IsMat(b, |d|, |d|)
    && (forall k :: 0 <= k < |d| && mask[k] == 0.0 ==> b[k][k] == 0.0 && d[k] > 0.0)
    && (forall k :: 0 <= k < |d| && mask[k] != 0.0 ==> mask[k] == 1.0 && d[k] >= b[k][k])
  }

  lemma SetDiagonalDefinite(s: Mat, mask: Vec, p: Mat, d: Vec)
    requires |mask| == |d| >= 1 && SemiDefinite(s, |d|) && Definite(p, |d|)
    requires Raises(d, MAdd(s, MaskedCovariance(mask, p)), mask)
    ensures Definite(SetDiagonal(MAdd(s, MaskedCovariance(mask, p)), d), |d|)
  {
    var b := MAdd(s, MaskedCovariance(mask, p));
    SetDiagonalIsAdd(b, d, Deltas(d, b));
    DeltasRaise(d, b, mask);
    RaisedDefinite(s, mask, p, Deltas(d, b), |d|);
  }

  lemma DeltasRaise(d: Vec, b: Mat, mask: Vec)
    requires Raises(d, b, mask)
    ensures forall k :: 0 <= k < |d| ==> Deltas(d, b)[k] >= 0.0 && (mask[k] == 1.0 || Deltas(d, b)[k] > 0.0)
  {
  }

  function Deltas(d: Vec, b: Mat): (r: Vec)
    requires IsMat(b, |d|, |d|)
    ensures |r| == |d| && forall k :: 0 <= k < |d| ==> r[k] == d[k] - b[k][k]
  {
    seq(|d|, k requires 0 <= k < |d| => d[k] - b[k][k])
  }

  /** Flooring the diagonal of a raw estimate from masked residuals gives a definite matrix. */
  lemma FlooredDefinite(rs: seq<Vec>, mask: Vec, p: Mat, d: Vec)
    requires |rs| > 0 && |mask| == |d| == 6 && Definite(p, 6)
    requires AllMasked(rs, mask)
    requires forall k :: 0 <= k < 6 && mask[k] == 0.0 ==> d[k] > 0.0
    requires forall k :: 0 <= k < 6 && mask[k] != 0.0 ==> mask[k] == 1.0 && d[k] >= RawNoise(rs, Diagonal(mask), p)[k][k]
    ensures Definite(SetDiagonal(RawNoise(rs, Diagonal(mask), p), d), 6)
  {
    forall k | 0 <= k < 6 && mask[k] == 0.0 ensures RawNoise(rs, Diagonal(mask), p)[k][k] == 0.0 {
      RawUnobserved(rs, mask, p, k);
    }
    FlooredSum(rs, mask, p, d, MeanWeight(rs));
  }

  lemma FlooredSum(rs: seq<Vec>, mask: Vec, p: Mat, d: Vec, c: real)
    requires |mask| == |d| == 6 && Definite(p, 6) && SixEntries(rs) && c >= 0.0
    requires Raises(d, MAdd(MScale(c, SumOfOuters(rs)), MaskedCovariance(mask, p)), mask)
    ensures Definite(SetDiagonal(MAdd(MScale(c, SumOfOuters(rs)), MaskedCovariance(mask, p)), d), 6)
  {
    SumOfOutersSemiDefinite(rs);
    ScaleSemiDefinite(c, SumOfOuters(rs), 6);
    SetDiagonalDefinite(MScale(c, SumOfOuters(rs)), mask, p, d);
  }

  // ---------- what an estimate is ----------

  /** The squares of the residuals along u, added up. */
  function SquaresAlong(rs: seq<Vec>, u: Vec): real
    requires SixEntries(rs) && |u| == 6
  {
    if rs == [] then 0.0
    else
      var d := Dot(rs[|rs| - 1], u);
      SquaresAlong(rs[..|rs| - 1], u) + d * d
  }

  lemma {:induction false} SumAlong(rs: seq<Vec>, u: Vec)
    requires SixEntries(rs) && |u| == 6
    ensures Quad(SumOfOuters(rs), u) == SquaresAlong(rs, u)
  {
    hide Quad, Dot, Outer, MAdd, Diagonal;
    if rs == [] {
      NoDiagonal(u);
    } else {
      var r := rs[|rs| - 1];
      SumAlong(rs[..|rs| - 1], u);
      QuadAdd(SumOfOuters(rs[..|rs| - 1]), Outer(r, r), u);
      QuadOuter(r, u, Dot(r, u));
    }
  }

  lemma NoDiagonal(u: Vec)
    requires |u| == 6
    ensures Quad(Diagonal(Zeros(6)), u) == 0.0
  {
    DiagonalActs(Zeros(6), u);
    DotZero(MatVec(Diagonal(Zeros(6)), u), u);
  }

  function MeanOf(sum: real, count: nat): real
    requires count > 0
  {
    sum / count as real
  }

  lemma MeanIs(rs: seq<Vec>, c: real, q: real, m: real)
    requires |rs| > 0 && c == MeanWeight(rs) && m == c * q
    ensures m == MeanOf(q, |rs|)
  {
  }

  /** Along any direction the raw estimate is the mean square of the residuals and the variance the state has there. */
  lemma RawAlong(rs: seq<Vec>, h: Mat, p: Mat, u: Vec)
    requires |rs| > 0 && SixEntries(rs) && IsMat(h, 6, 6) && IsMat(p, 6, 6) && |u| == 6
    ensures Quad(RawNoise(rs, h, p), u)
         == MeanOf(SquaresAlong(rs, u), |rs|) + Quad(p, MatVec(Transpose(h), u))
  {
    hide Quad, Dot, MatMul, MatVec, MAdd, MScale, Transpose, SumOfOuters, SquaresAlong, MeanOf, MeanWeight;
    QuadAdd(MScale(MeanWeight(rs), SumOfOuters(rs)), MatMul(MatMul(h, p), Transpose(h)), u);
    MeanAlong(rs, u);
    QuadCongruence(h, p, u);
  }

  lemma MeanAlong(rs: seq<Vec>, u: Vec)
    requires |rs| > 0 && SixEntries(rs) && |u| == 6
    ensures Quad(MScale(MeanWeight(rs), SumOfOuters(rs)), u) == MeanOf(SquaresAlong(rs, u), |rs|)
  {
    hide Quad, Dot, MScale, SumOfOuters, SquaresAlong, MeanOf, MeanWeight;
    var c, s, q := MeanWeight(rs), SumOfOuters(rs), SquaresAlong(rs, u);
    SumAlong(rs, u);
    QuadScaleNamed(c, s, u, q);
    MeanIs(rs, c, q, Quad(MScale(c, s), u));
  }

  /** An estimate differs from the raw one only on the diagonal, and on the observed part of it only below the floor. */
  lemma EstimateIsRaw(raw: Mat)
    requires IsMat(raw, 6, 6)
    ensures var gps, imu := SetDiagonal(raw, GpsDiagonal(raw)), SetDiagonal(raw, ImuDiagonal(raw));
      && (forall i, j :: 0 <= i < 6 && 0 <= j < 6 && i != j ==> gps[i][j] == imu[i][j] == raw[i][j])
      && (forall k :: 0 <= k < 2 && raw[k][k] >= 1e-15 ==> gps[k][k] == raw[k][k])
      && (forall k :: 4 <= k < 6 && raw[k][k] >= 1e-15 ==> imu[k][k] == raw[k][k])
      && (forall k :: 2 <= k < 6 ==> 0.0 < gps[k][k] < 1e-29)
      && (forall k :: 0 <= k < 4 ==> imu[k][k] >= 1e30)
  {
  }

  /** What push t + 1 re-estimates from, if it does. */
  lemma WindowUsed(n: nat, l: nat, rs: seq<Vec>, residual: Vec)
    requires n > 0 && SixEntries(rs) && |residual| == 6
    ensures var w, used := PushedAll(Window(n, l, 0, []), rs), Last(rs + [residual], n);
      && SixEntries(w.queue) && SixEntries(used) && used != []
      && (Recomputes(w) <==> RecomputesAt(n, l, |rs| + 1))
      && (Recomputes(w) ==> Pushed(w, residual).queue == used)
  {
    hide RecomputesAt, CountAfter, PushedAll;
    WindowContents(n, l, rs);
    LastSlides(rs, residual, n);
    LastEntries(rs, n);
    assert SixEntries(rs + [residual]);
    LastEntries(rs + [residual], n);
    hide Last, SixEntries;
  }

  lemma LastEntries(rs: seq<Vec>, n: nat)
    requires SixEntries(rs) && n > 0
    ensures SixEntries(Last(rs, n)) && (rs != [] ==> Last(rs, n) != [])
  {
  }
}
