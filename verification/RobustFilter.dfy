/**
 The offline filter of the visualiser: a gated measurement update in Joseph form, and the
 covariance side of the loop that applies it to a nine-state model with three adaptive noise
 matrices.
 */
module RobustFilter {
  import opened LinearAlgebra
  import opened PositiveDefinite
  import opened KalmanForms

  function Min(a: real, b: real): real {
    if a <= b then a else b
  }

  function Clip(v: real, low: real, high: real): (r: real)
    requires low <= high
    ensures low <= r <= high
  {
    if v < low then low else if v > high then high else v
  }

  // ---------- the Joseph form ----------

  /** (I - K H) P (I - K H)^T + K R K^T */
  function Joseph(p: Mat, h: Mat, r: Mat, k: Mat, m: nat, n: nat): (q: Mat)
    requires IsMat(p, n, n) && IsMat(h, m, n) && IsMat(r, m, m) && IsMat(k, n, m)
    ensures IsMat(q, n, n)
  {
    var a := MSub(Identity(n), MatMul(k, h));
    MAdd(MatMul(MatMul(a, p), Transpose(a)), MatMul(MatMul(k, r), Transpose(k)))
  }

  /** For any gain the Joseph form is semidefinite. */
  lemma JosephSemiDefinite(p: Mat, h: Mat, r: Mat, k: Mat, m: nat, n: nat)
    requires SemiDefinite(p, n) && IsMat(h, m, n) && Definite(r, m) && IsMat(k, n, m)
    ensures SemiDefinite(Joseph(p, h, r, k, m, n), n)
  {
    SemiDefiniteShape(p, n);
    DefiniteShape(r, m);
    hide SemiDefinite, Definite;
    var a := MSub(Identity(n), MatMul(k, h));
    CongruenceSemiDefinite(a, p, n, n);
    DefiniteIsSemiDefinite(r, m);
    CongruenceSemiDefinite(k, r, n, m);
    AddSemiDefinite(MatMul(MatMul(a, p), Transpose(a)), MatMul(MatMul(k, r), Transpose(k)), n);
  }

  /** With the optimal gain, K S == P H^T, the Joseph form is (I - K H) P. */
  lemma JosephIsShort(p: Mat, h: Mat, r: Mat, k: Mat, m: nat, n: nat)
    requires IsMat(p, n, n) && IsMat(h, m, n) && IsMat(r, m, m) && IsMat(k, n, m)
    requires MatMul(k, InnovationCovariance(p, h, r, m, n)) == MatMul(p, Transpose(h))
    ensures Joseph(p, h, r, k, m, n) == MatMul(MSub(Identity(n), MatMul(k, h)), p)
  {
    hide MatMul, MSub, MAdd, Transpose, Identity;
    var a, ht, kt := MSub(Identity(n), MatMul(k, h)), Transpose(h), Transpose(k);
    var ap := MatMul(a, p);
    TransposeAdd(Identity(n), MatMul(k, h));
    TransposeIdentity(n);
    TransposeMul(k, h);
    MulAddRight(ap, Identity(n), MatMul(ht, kt));
    MulIdentity(ap, n, n);
    MulAssoc(ap, ht, kt);
    assert MatMul(ap, ht) == MatMul(k, r) by {
      ShortGain(p, h, r, k, m, n);
    }
    SubtractThenAdd(ap, MatMul(MatMul(k, r), kt));
  }

  /** (I - K H) P H^T == K R */
  lemma ShortGain(p: Mat, h: Mat, r: Mat, k: Mat, m: nat, n: nat)
    requires IsMat(p, n, n) && IsMat(h, m, n) && IsMat(r, m, m) && IsMat(k, n, m)
    requires MatMul(k, InnovationCovariance(p, h, r, m, n)) == MatMul(p, Transpose(h))
    ensures MatMul(MatMul(MSub(Identity(n), MatMul(k, h)), p), Transpose(h)) == MatMul(k, r)
  {
    hide MatMul, MSub, MAdd, Transpose, Identity;
    var a, ht := MSub(Identity(n), MatMul(k, h)), Transpose(h);
    var pht, hph := MatMul(p, ht), MatMul(MatMul(h, p), ht);
    MulAssoc(a, p, ht);
    MulAddLeft(Identity(n), MatMul(k, h), pht);
    MulIdentity(pht, n, m);
    MulAssoc(k, h, pht);
    MulAssoc(h, p, ht);
    MulAddRight(k, hph, r);
    AddCommutes(MatMul(k, hph), MatMul(k, r));
    AddThenSubtract(MatMul(k, r), MatMul(k, hph));
  }

  lemma SubtractThenAdd(a: Mat, b: Mat)
    requires Rect(a) && IsMat(b, |a|, Cols(a))
    ensures MAdd(MSub(a, b), b) == a
  {
    forall i | 0 <= i < |a| ensures MAdd(MSub(a, b), b)[i] == a[i] {
    }
  }

  lemma OptimalGain(p: Mat, h: Mat, r: Mat, m: nat, n: nat)
    requires SemiDefinite(p, n) && IsMat(h, m, n) && Definite(r, m)
    ensures MatMul(Gain(p, h, r, m, n), InnovationCovariance(p, h, r, m, n)) == MatMul(p, Transpose(h))
  {
    SemiDefiniteShape(p, n);
    DefiniteShape(r, m);
    hide SemiDefinite, Definite, MatMul, Transpose, InnovationCovariance;
    InnovationDefinite(p, h, r, m, n);
    var s := InnovationCovariance(p, h, r, m, n);
    InverseProperties(s, m);
    MulAssoc(MatMul(p, Transpose(h)), Inverse(s, m), s);
    MulIdentity(MatMul(p, Transpose(h)), n, m);
  }

  /**
   The Joseph update with the optimal gain equals (I - K H) P, is semidefinite, and never
   exceeds P.
   */
  lemma JosephUpdate(p: Mat, h: Mat, r: Mat, m: nat, n: nat)
    requires SemiDefinite(p, n) && IsMat(h, m, n) && Definite(r, m)
    ensures Joseph(p, h, r, Gain(p, h, r, m, n), m, n) == UpdatedCovariance(p, h, r, m, n)
    ensures SemiDefinite(UpdatedCovariance(p, h, r, m, n), n)
    ensures SemiDefinite(MSub(p, UpdatedCovariance(p, h, r, m, n)), n)
  {
    SemiDefiniteShape(p, n);
    DefiniteShape(r, m);
    hide SemiDefinite, Definite, MatMul, Joseph, Gain, InnovationCovariance;
    OptimalGain(p, h, r, m, n);
    JosephIsShort(p, h, r, Gain(p, h, r, m, n), m, n);
    JosephSemiDefinite(p, h, r, Gain(p, h, r, m, n), m, n);
    Reduction(p, h, r, m, n);
  }

  /** P - (I - K H) P == (P H^T) S^-1 (P H^T)^T */
  lemma Reduction(p: Mat, h: Mat, r: Mat, m: nat, n: nat)
    requires SemiDefinite(p, n) && IsMat(h, m, n) && Definite(r, m)
    ensures SemiDefinite(MSub(p, UpdatedCovariance(p, h, r, m, n)), n)
  {
    DefiniteShape(r, m);
    hide Definite, MatMul, MSub, InnovationCovariance;
    var k, s, g := Gain(p, h, r, m, n), InnovationCovariance(p, h, r, m, n), MatMul(p, Transpose(h));
    InnovationDefinite(p, h, r, m, n);
    InverseProperties(s, m);
    DefiniteIsSemiDefinite(Inverse(s, m), m);
    CongruenceSemiDefinite(g, Inverse(s, m), n, m);
    TransposeMul(p, Transpose(h));
    TransposeTwice(h, m, n);
    assert Transpose(g) == MatMul(h, p);
    MulAssoc(k, h, p);
    MulAddLeft(Identity(n), MatMul(k, h), p);
    MulIdentity(p, n, n);
    SubtractDifference(p, MatMul(MatMul(k, h), p));
  }

  lemma SubtractDifference(a: Mat, b: Mat)
    requires Rect(a) && IsMat(b, |a|, Cols(a))
    ensures MSub(a, MSub(a, b)) == b
  {
    forall i | 0 <= i < |a| ensures MSub(a, MSub(a, b))[i] == b[i] {
    }
  }

  // ---------- the gated update ----------

  /** The noise the update uses: inflated, at most a hundredfold, when the innovation is implausible. */
  ghost function GatedNoise(x: Vec, p: Mat, z: Vec, h: Mat, r: Mat, gate: real, m: nat, n: nat): (g: Mat)
    requires IsVec(x, n) && IsVec(z, m) && SemiDefinite(p, n) && IsMat(h, m, n) && Definite(r, m) && gate > 0.0
    ensures Definite(g, m)
  {
    var nis := InnovationStatistic(p, h, r, VSub(z, MatVec(h, x)), m, n);
    if nis > gate then
      GateScale(nis, gate);
      ScaleDefinite(Min(100.0, nis / gate), r, m);
      MScale(Min(100.0, nis / gate), r)
    else r
  }

  lemma GateScale(nis: real, gate: real)
    requires nis > gate > 0.0
    ensures 1.0 < Min(100.0, nis / gate) <= 100.0
  {
    var c := nis / gate;
    assert c * gate == nis;
    if c <= 1.0 {
      ProductSign(1.0 - c, gate, (1.0 - c) * gate);
    }
  }

  /** The factor by which a gate inflates the noise. */
  function Inflation(nis: real, gate: real): real
    requires gate > 0.0
  {
    if nis > gate then Min(100.0, nis / gate) else 1.0
  }

  /** A plausible innovation inflates nothing; beyond the gate the factor times the gate is the statistic, up to the cap. */
  lemma InflationLaws(nis: real, gate: real)
    requires gate > 0.0
    ensures nis <= gate ==> Inflation(nis, gate) == 1.0
    ensures gate <= nis <= 100.0 * gate ==> Inflation(nis, gate) * gate == nis
    ensures 100.0 * gate <= nis ==> Inflation(nis, gate) == 100.0
    ensures 1.0 <= Inflation(nis, gate) <= 100.0
  {
    if nis > gate {
      GateScale(nis, gate);
      var c := nis / gate;
      assert c * gate == nis;
      ProductSign(100.0 - c, gate, (100.0 - c) * gate);
      ProductSign(c - 100.0, gate, (c - 100.0) * gate);
    }
  }

  lemma InflationGrows(a: real, b: real, gate: real)
    requires gate > 0.0 && a <= b
    ensures Inflation(a, gate) <= Inflation(b, gate)
  {
    InflationLaws(a, gate);
    InflationLaws(b, gate);
    var c, d := Inflation(a, gate), Inflation(b, gate);
    if gate < a && b < 100.0 * gate && d < c {
      ProductSign(c - d, gate, (c - d) * gate);
    }
  }

  /** The gated noise is the noise, inflated by the statistic of the innovation. */
  lemma GatedNoiseIs(x: Vec, p: Mat, z: Vec, h: Mat, r: Mat, gate: real, m: nat, n: nat)
    requires IsVec(x, n) && IsVec(z, m) && SemiDefinite(p, n) && IsMat(h, m, n) && Definite(r, m) && gate > 0.0
    ensures GatedNoise(x, p, z, h, r, gate, m, n)
         == MScale(Inflation(InnovationStatistic(p, h, r, VSub(z, MatVec(h, x)), m, n), gate), r)
  {
    hide SemiDefinite, InnovationStatistic, MatVec, VSub;
    assert MScale(1.0, r) == r by {
      forall i | 0 <= i < m ensures MScale(1.0, r)[i] == r[i] {
      }
    }
  }

  /** A larger innovation is never given a smaller noise. */
  lemma GatedNoiseGrows(x: Vec, y: Vec, p: Mat, z: Vec, h: Mat, r: Mat, gate: real, m: nat, n: nat)
    requires IsVec(x, n) && IsVec(y, n) && IsVec(z, m) && SemiDefinite(p, n) && IsMat(h, m, n) && Definite(r, m) && gate > 0.0
    requires InnovationStatistic(p, h, r, VSub(z, MatVec(h, x)), m, n)
          <= InnovationStatistic(p, h, r, VSub(z, MatVec(h, y)), m, n)
    ensures var a, b := GatedNoise(x, p, z, h, r, gate, m, n), GatedNoise(y, p, z, h, r, gate, m, n);
      IsMat(a, m, m) && IsMat(b, m, m) && SemiDefinite(MSub(b, a), m)
  {
    DefiniteIsSemiDefinite(r, m);
    hide InnovationStatistic, GatedNoise, Inflation, MatVec, VSub, Definite, SemiDefinite;
    var s, t := InnovationStatistic(p, h, r, VSub(z, MatVec(h, x)), m, n), InnovationStatistic(p, h, r, VSub(z, MatVec(h, y)), m, n);
    GatedNoiseIs(x, p, z, h, r, gate, m, n);
    GatedNoiseIs(y, p, z, h, r, gate, m, n);
    InflationGrows(s, t, gate);
    DefiniteShape(r, m);
    ScaleSemiDefinite(Inflation(t, gate) - Inflation(s, gate), r, m);
    ScaledDifference(Inflation(t, gate), Inflation(s, gate), r, m);
  }

  lemma ScaledDifference(c: real, d: real, r: Mat, m: nat)
    requires IsMat(r, m, m)
    ensures MSub(MScale(c, r), MScale(d, r)) == MScale(c - d, r)
  {
    forall i | 0 <= i < m ensures MSub(MScale(c, r), MScale(d, r))[i] == MScale(c - d, r)[i] {
      forall j | 0 <= j < m ensures MSub(MScale(c, r), MScale(d, r))[i][j] == MScale(c - d, r)[i][j] {
        var e := r[i][j];
        EntryIs(c, r[i], j, e);
        EntryIs(d, r[i], j, e);
        EntryIs(c - d, r[i], j, e);
        assert c * e - d * e == (c - d) * e;
      }
    }
  }

  /** What the squared innovation has over the covariance left after the update. */
  ghost function InnovationExcess(x: Vec, z: Vec, h: Mat, p: Mat, m: nat, n: nat): (e: Mat)
    requires IsVec(x, n) && IsVec(z, m) && IsMat(h, m, n) && IsMat(p, n, n)
    ensures IsMat(e, m, m)
  {
    var y := VSub(z, MatVec(h, x));
    MSub(Outer(y, y), MatMul(MatMul(h, p), Transpose(h)))
  }

  /** Along any direction, the squared innovation is the excess and the variance that the observed state has left. */
  lemma ExcessAlong(x: Vec, z: Vec, h: Mat, p: Mat, m: nat, n: nat, u: Vec, d: real)
    requires IsVec(x, n) && IsVec(z, m) && IsMat(h, m, n) && IsMat(p, n, n) && IsVec(u, m)
    requires d == Dot(VSub(z, MatVec(h, x)), u)
    ensures Quad(InnovationExcess(x, z, h, p, m, n), u) == d * d - Quad(p, MatVec(Transpose(h), u))
  {
    var y := VSub(z, MatVec(h, x));
    hide Quad, Dot, MatMul, MatVec, Transpose, VSub, Outer;
    QuadCongruence(h, p, u);
    QuadOuter(y, u, d);
    QuadSub(Outer(y, y), MatMul(MatMul(h, p), Transpose(h)), u);
  }

  lemma QuadSub(a: Mat, b: Mat, x: Vec)
    requires IsMat(a, |x|, |x|) && IsMat(b, |x|, |x|)
    ensures Quad(MSub(a, b), x) == Quad(a, x) - Quad(b, x)
  {
    SubActs(a, b, x);
    DotSub(MatVec(a, x), MatVec(b, x), x);
  }

  /** robust_update: the state and covariance are the classical update with the gated noise. */
  method RobustUpdate(x: Vec, p: Mat, z: Vec, h: Mat, r: Mat, gate: real, m: nat, n: nat)
    returns (x': Vec, p': Mat, nis: real, innovationCov: Mat)
    requires IsVec(x, n) && IsVec(z, m) && SemiDefinite(p, n) && IsMat(h, m, n) && Definite(r, m) && gate > 0.0
    ensures var g := GatedNoise(x, p, z, h, r, gate, m, n);
      x' == UpdatedState(x, p, h, g, z, m, n) && p' == UpdatedCovariance(p, h, g, m, n)
    ensures nis == InnovationStatistic(p, h, r, VSub(z, MatVec(h, x)), m, n)
    ensures IsVec(x', n) && SemiDefinite(p', n) && SemiDefinite(MSub(p, p'), n)
    ensures IsMat(h, m, n) && IsMat(p', n, n) && innovationCov == InnovationExcess(x, z, h, p', m, n)
  {
    hide SemiDefinite, Definite, MatMul, MatVec, MSub, MAdd, MScale, VSub, VAdd, Transpose, Outer, Identity, Quad;
    SemiDefiniteShape(p, n);
    DefiniteShape(r, m);
    var y := VSub(z, MatVec(h, x));
    var s := MAdd(MatMul(MatMul(h, p), Transpose(h)), r);
    InnovationDefinite(p, h, r, m, n);
    var sInv := Inverse(s, m);
    nis := Quad(sInv, y);
    var noise := r;
    if nis > gate {
      GateScale(nis, gate);
      ScaleDefinite(Min(100.0, nis / gate), r, m);
      noise := MScale(Min(100.0, nis / gate), r);
      DefiniteShape(noise, m);
      s := MAdd(MatMul(MatMul(h, p), Transpose(h)), noise);
      InnovationDefinite(p, h, noise, m, n);
      sInv := Inverse(s, m);
    }
    var k := MatMul(MatMul(p, Transpose(h)), sInv);
    assert k == Gain(p, h, noise, m, n);
    x' := VAdd(x, MatVec(k, y));
    var a := MSub(Identity(n), MatMul(k, h));
    p' := MAdd(MatMul(MatMul(a, p), Transpose(a)), MatMul(MatMul(k, noise), Transpose(k)));
    JosephUpdate(p, h, noise, m, n);
    assert SemiDefinite(p', n);
    Symmetrised(p', n);
    p' := MScale(0.5, MAdd(p', Transpose(p')));
    SemiDefiniteShape(p', n);
    innovationCov := MSub(Outer(y, y), MatMul(MatMul(h, p'), Transpose(h)));
  }

  lemma Symmetrised(p: Mat, n: nat)
    requires SemiDefinite(p, n)
    ensures IsMat(p, n, n) && MScale(0.5, MAdd(p, Transpose(p))) == p
  {
    forall i | 0 <= i < n ensures MScale(0.5, MAdd(p, p))[i] == p[i] {
    }
  }

  // ---------- the covariance side of the filter loop ----------

  /** A diagonal noise matrix with positive entries. */
  ghost predicate PositiveDiagonal(r: Mat, k: nat) {
    IsMat(r, k, k) && exists d: Vec :: |d| == k && (forall i :: 0 <= i < k ==> d[i] > 0.0) && r == Diagonal(d)
  }

  lemma PositiveDiagonalDefinite(r: Mat, k: nat)
    requires PositiveDiagonal(r, k)
    ensures Definite(r, k)
  {
    var d: Vec :| |d| == k && (forall i :: 0 <= i < k ==> d[i] > 0.0) && r == Diagonal(d);
    DiagonalDefinite(d, k);
  }

  /** a R + b D stays a positive diagonal. */
  function Blend(a: real, r: Mat, b: real, s: Mat): (t: Mat)
    requires Rect(r) && IsMat(s, |r|, Cols(r))
    ensures IsMat(t, |r|, Cols(r))
  {
    MAdd(MScale(a, r), MScale(b, s))
  }

  lemma BlendPositive(a: real, r: Mat, b: real, s: Mat, k: nat)
    requires a > 0.0 && b > 0.0 && PositiveDiagonal(r, k) && PositiveDiagonal(s, k)
    ensures PositiveDiagonal(Blend(a, r, b, s), k)
  {
    var d: Vec :| |d| == k && (forall i :: 0 <= i < k ==> d[i] > 0.0) && r == Diagonal(d);
    var e: Vec :| |e| == k && (forall i :: 0 <= i < k ==> e[i] > 0.0) && s == Diagonal(e);
    var f := VAdd(VScale(a, d), VScale(b, e));
    forall i | 0 <= i < k ensures f[i] > 0.0 {
      ProductSign(a, d[i], a * d[i]);
      ProductSign(b, e[i], b * e[i]);
    }
    BlendOfDiagonals(a, d, b, e);
  }

  lemma BlendOfDiagonals(a: real, d: Vec, b: real, e: Vec)
    requires |d| == |e| >= 1
    ensures Blend(a, Diagonal(d), b, Diagonal(e)) == Diagonal(VAdd(VScale(a, d), VScale(b, e)))
  {
    var f := VAdd(VScale(a, d), VScale(b, e));
    forall i | 0 <= i < |d| ensures Blend(a, Diagonal(d), b, Diagonal(e))[i] == Diagonal(f)[i] {
      hide Diagonal, Blend;
      BlendRow(a, d, b, e, i);
    }
  }

  lemma BlendRow(a: real, d: Vec, b: real, e: Vec, i: nat)
    requires |d| == |e| && i < |d|
    ensures Blend(a, Diagonal(d), b, Diagonal(e))[i] == Diagonal(VAdd(VScale(a, d), VScale(b, e)))[i]
  {
    var n, u := |d|, Unit(|d|, i);
    forall j | 0 <= j < n
      ensures Blend(a, Diagonal(d), b, Diagonal(e))[i][j] == Diagonal(VAdd(VScale(a, d), VScale(b, e)))[i][j]
    {
      assert Diagonal(d)[i] == VScale(d[i], u) && Diagonal(e)[i] == VScale(e[i], u);
      var l := a * (d[i] * u[j]) + b * (e[i] * u[j]);
      assert l == (a * d[i] + b * e[i]) * u[j];
    }
  }

  /** Clipped diagonal entries of an innovation covariance. */
  function ClippedDiagonal(m: Mat, low: real, high: real): (r: Mat)
    requires Rect(m) && Cols(m) == |m| && low <= high
    ensures IsMat(r, |m|, |m|)
  {
    Diagonal(seq(|m|, i requires 0 <= i < |m| => Clip(m[i][i], low, high)))
  }

  lemma ClippedPositive(m: Mat, low: real, high: real, k: nat)
    requires IsMat(m, k, k) && 0.0 < low <= high
    ensures PositiveDiagonal(ClippedDiagonal(m, low, high), k)
  {
  }

  lemma ScaledIdentityPositive(c: real, k: nat)
    requires k >= 1 && c > 0.0
    ensures PositiveDiagonal(MScale(c, Identity(k)), k)
  {
    var d := seq(k, i requires 0 <= i < k => c);
    forall i | 0 <= i < k ensures MScale(c, Identity(k))[i] == Diagonal(d)[i] {
    }
    assert MScale(c, Identity(k)) == Diagonal(d);
  }

  /** The diagonal entries lie within the limits the program clips them to. */
  ghost predicate Within(r: Mat, k: nat, low: real, high: real) {
    IsMat(r, k, k) && forall i :: 0 <= i < k ==> low <= r[i][i] <= high
  }

  lemma BlendAt(a: real, r: Mat, b: real, s: Mat, k: nat, i: nat, c: real, d: real)
    requires IsMat(r, k, k) && IsMat(s, k, k) && i < k && c == r[i][i] && d == s[i][i]
    ensures Blend(a, r, b, s)[i][i] == a * c + b * d
  {
    EntryIs(a, r[i], i, c);
    EntryIs(b, s[i], i, d);
  }

  lemma DiagonalAt(d: Vec, i: nat)
    requires i < |d|
    ensures Diagonal(d)[i][i] == d[i]
  {
    EntryIs(d[i], Unit(|d|, i), i, 1.0);
  }

  lemma ClippedWithin(m: Mat, low: real, high: real, k: nat)
    requires IsMat(m, k, k) && low <= high
    ensures Within(ClippedDiagonal(m, low, high), k, low, high)
    ensures forall i :: 0 <= i < k && low <= m[i][i] <= high ==> ClippedDiagonal(m, low, high)[i][i] == m[i][i]
  {
    forall i | 0 <= i < k ensures ClippedDiagonal(m, low, high)[i][i] == Clip(m[i][i], low, high) {
      ClippedAt(m, low, high, k, i);
    }
  }

  /** An adaptive noise within its limits stays there. */
  lemma AdaptedWithin(r: Mat, m: Mat, low: real, high: real, k: nat)
    requires IsMat(r, k, k) && IsMat(m, k, k) && low <= high && Within(r, k, low, high)
    ensures Within(Blend(0.97, r, 0.03, ClippedDiagonal(m, low, high)), k, low, high)
  {
    ClippedWithin(m, low, high, k);
    var s := ClippedDiagonal(m, low, high);
    hide ClippedDiagonal, Blend;
    forall i | 0 <= i < k ensures low <= Blend(0.97, r, 0.03, s)[i][i] <= high {
      BlendAt(0.97, r, 0.03, s, k, i, r[i][i], s[i][i]);
    }
  }

  // ---------- process noise ----------

  /** How acceleration noise on axis a enters position and velocity over dt. */
  function Influence(dt: real, a: nat, i: nat): real {
    if i == a then dt * dt / 2.0 else if i == a + 3 then dt else 0.0
  }

  /** Entry (i, j) of Q before its final factor, filled block by block in the program. */
  function NoiseEntry(dt: real, qa: real, qb: real, i: nat, j: nat): real {
    if i % 3 != j % 3 then 0.0
    else if i < 3 && j < 3 then qa * (dt * dt * dt * dt) / 4.0
    else if (i < 3 && 3 <= j < 6) || (j < 3 && 3 <= i < 6) then qa * (dt * dt * dt) / 2.0
    else if 3 <= i < 6 && 3 <= j < 6 then qa * (dt * dt)
    else if i >= 6 && j >= 6 then qb * dt
    else 0.0
  }

  function ProcessNoise(dt: real, qa: real, qb: real): (q: Mat)
    ensures IsMat(q, 9, 9)
  {
    MScale(12.0, seq(9, (i: nat) => seq(9, (j: nat) => NoiseEntry(dt, qa, qb, i, j))))
  }

  function InfluenceVector(dt: real, a: nat): (v: Vec)
    ensures |v| == 9
  {
    seq(9, (i: nat) => Influence(dt, a, i))
  }

  function BiasDiagonal(qb: real, dt: real): (d: Vec)
    ensures |d| == 9
  {
    seq(9, (i: nat) => if i >= 6 then qb * dt else 0.0)
  }

  function AccelerationNoise(dt: real): (m: Mat)
    ensures IsMat(m, 9, 9)
  {
    MAdd(MAdd(Outer(InfluenceVector(dt, 0), InfluenceVector(dt, 0)), Outer(InfluenceVector(dt, 1), InfluenceVector(dt, 1))),
         Outer(InfluenceVector(dt, 2), InfluenceVector(dt, 2)))
  }

  lemma ProcessNoiseAt(dt: real, qa: real, qb: real, i: nat, j: nat, e: real)
    requires i < 9 && j < 9 && e == NoiseEntry(dt, qa, qb, i, j)
    ensures ProcessNoise(dt, qa, qb)[i][j] == 12.0 * e
  {
    EntryIs(12.0, seq(9, (k: nat) => NoiseEntry(dt, qa, qb, i, k)), j, e);
  }

  /**
   Velocity gains twelve times the given variance per squared second, each axis for itself; position
   moves with it as over half the step; the bias gains its own variance, and has no part in the rest.
   */
  lemma NoiseRelations(dt: real, qa: real, qb: real, a: nat, b: nat, v: real)
    requires a < 3 && b < 3 && v == ProcessNoise(dt, qa, qb)[3 + a][3 + b]
    ensures var q := ProcessNoise(dt, qa, qb);
      && v == (if a == b then 12.0 * (qa * (dt * dt)) else 0.0)
      && q[a][3 + b] == q[3 + a][b] == (dt / 2.0) * v
      && q[a][b] == (dt / 2.0) * ((dt / 2.0) * v)
      && q[6 + a][6 + b] == (if a == b then 12.0 * (qb * dt) else 0.0)
      && q[6 + a][b] == q[6 + a][3 + b] == q[a][6 + b] == q[3 + a][6 + b] == 0.0
  {
    NoiseBlocks(dt, qa, qb, a, b);
    forall i, j | 0 <= i < 9 && 0 <= j < 9
      ensures ProcessNoise(dt, qa, qb)[i][j] == 12.0 * NoiseEntry(dt, qa, qb, i, j)
    {
      ProcessNoiseAt(dt, qa, qb, i, j, NoiseEntry(dt, qa, qb, i, j));
    }
    hide ProcessNoise, NoiseEntry;
    HalfStep(dt, qa);
  }

  lemma NoiseBlocks(dt: real, qa: real, qb: real, a: nat, b: nat)
    requires a < 3 && b < 3
    ensures NoiseEntry(dt, qa, qb, 3 + a, 3 + b) == if a == b then qa * (dt * dt) else 0.0
    ensures NoiseEntry(dt, qa, qb, a, 3 + b) == NoiseEntry(dt, qa, qb, 3 + a, b)
         == if a == b then qa * (dt * dt * dt) / 2.0 else 0.0
    ensures NoiseEntry(dt, qa, qb, a, b) == if a == b then qa * (dt * dt * dt * dt) / 4.0 else 0.0
    ensures NoiseEntry(dt, qa, qb, 6 + a, 6 + b) == if a == b then qb * dt else 0.0
    ensures NoiseEntry(dt, qa, qb, 6 + a, b) == NoiseEntry(dt, qa, qb, 6 + a, 3 + b) == 0.0
    ensures NoiseEntry(dt, qa, qb, a, 6 + b) == NoiseEntry(dt, qa, qb, 3 + a, 6 + b) == 0.0
  {
  }

  lemma HalfStep(dt: real, qa: real)
    ensures 12.0 * (qa * (dt * dt * dt) / 2.0) == (dt / 2.0) * (12.0 * (qa * (dt * dt)))
    ensures 12.0 * (qa * (dt * dt * dt * dt) / 4.0) == (dt / 2.0) * ((dt / 2.0) * (12.0 * (qa * (dt * dt))))
  {
  }

  lemma NoiseEntryForm(dt: real, qa: real, qb: real, i: nat, j: nat)
    requires i < 9 && j < 9
    ensures NoiseEntry(dt, qa, qb, i, j)
         == qa * (Influence(dt, 0, i) * Influence(dt, 0, j) + Influence(dt, 1, i) * Influence(dt, 1, j)
                  + Influence(dt, 2, i) * Influence(dt, 2, j))
          + (if i == j && i >= 6 then qb * dt else 0.0)
  {
  }

  /** Q is a sum of outer products and a non-negative diagonal, hence semidefinite. */
  lemma ProcessNoiseSemiDefinite(dt: real, qa: real, qb: real)
    requires dt >= 0.0 && qa >= 0.0 && qb >= 0.0
    ensures SemiDefinite(ProcessNoise(dt, qa, qb), 9)
  {
    var acc, bias := AccelerationNoise(dt), Diagonal(BiasDiagonal(qb, dt));
    var entries := seq(9, (i: nat) => seq(9, (j: nat) => NoiseEntry(dt, qa, qb, i, j)));
    forall i | 0 <= i < 9 ensures entries[i] == MAdd(MScale(qa, acc), bias)[i] {
      NoiseRow(dt, qa, qb, i);
    }
    assert entries == MAdd(MScale(qa, acc), bias);
    hide SemiDefinite, Outer, Diagonal, MAdd, MScale;
    OuterSemiDefinite(InfluenceVector(dt, 0), 9);
    OuterSemiDefinite(InfluenceVector(dt, 1), 9);
    OuterSemiDefinite(InfluenceVector(dt, 2), 9);
    AddSemiDefinite(Outer(InfluenceVector(dt, 0), InfluenceVector(dt, 0)),
                    Outer(InfluenceVector(dt, 1), InfluenceVector(dt, 1)), 9);
    AddSemiDefinite(MAdd(Outer(InfluenceVector(dt, 0), InfluenceVector(dt, 0)),
                         Outer(InfluenceVector(dt, 1), InfluenceVector(dt, 1))),
                    Outer(InfluenceVector(dt, 2), InfluenceVector(dt, 2)), 9);
    ScaleSemiDefinite(qa, acc, 9);
    ProductSign(qb, dt, qb * dt);
    DiagonalSemiDefinite(BiasDiagonal(qb, dt), 9);
    AddSemiDefinite(MScale(qa, acc), bias, 9);
    ScaleSemiDefinite(12.0, entries, 9);
  }

  lemma NoiseRow(dt: real, qa: real, qb: real, i: nat)
    requires i < 9
    ensures seq(9, (j: nat) => NoiseEntry(dt, qa, qb, i, j))
         == MAdd(MScale(qa, AccelerationNoise(dt)), Diagonal(BiasDiagonal(qb, dt)))[i]
  {
    forall j | 0 <= j < 9
      ensures NoiseEntry(dt, qa, qb, i, j) == MAdd(MScale(qa, AccelerationNoise(dt)), Diagonal(BiasDiagonal(qb, dt)))[i][j]
    {
      hide AccelerationNoise, NoiseEntry, Influence, MAdd, MScale, Diagonal;
      NoiseRowEntry(dt, qa, qb, i, j);
    }
  }

  lemma NoiseRowEntry(dt: real, qa: real, qb: real, i: nat, j: nat)
    requires i < 9 && j < 9
    ensures NoiseEntry(dt, qa, qb, i, j) == MAdd(MScale(qa, AccelerationNoise(dt)), Diagonal(BiasDiagonal(qb, dt)))[i][j]
  {
    hide AccelerationNoise, Influence, NoiseEntry;
    NoiseEntryForm(dt, qa, qb, i, j);
    AccelerationEntry(dt, i, j);
    ScaleEntry(qa, AccelerationNoise(dt)[i], j);
    ScaleEntry(BiasDiagonal(qb, dt)[i], Unit(9, i), j);
  }

  lemma AccelerationEntry(dt: real, i: nat, j: nat)
    requires i < 9 && j < 9
    ensures AccelerationNoise(dt)[i][j]
         == Influence(dt, 0, i) * Influence(dt, 0, j) + Influence(dt, 1, i) * Influence(dt, 1, j)
                                         + Influence(dt, 2, i) * Influence(dt, 2, j)
  {
    EntryIs(Influence(dt, 0, i), InfluenceVector(dt, 0), j, Influence(dt, 0, j));
    EntryIs(Influence(dt, 1, i), InfluenceVector(dt, 1), j, Influence(dt, 1, j));
    EntryIs(Influence(dt, 2, i), InfluenceVector(dt, 2), j, Influence(dt, 2, j));
    hide VScale, Influence;
  }

  // ---------- one sample ----------

  datatype Track = Track(x: Vec, p: Mat, rNhc: Mat, rV: Mat, rB: Mat)

  /** What one sample contributes, before the program's limits are applied. */
  datatype Sample = Sample(elapsed: real, aWorld: Vec, sigmaA: real, sigmaB: real, stationary: bool, moving: bool,
                           acrossAxes: Mat, sigmaNhc: real, sigmaV: real, sigmaB0: real)

  ghost predicate ProperSample(s: Sample) {
    |s.aWorld| == 3 && IsMat(s.acrossAxes, 2, 3)
  }

  /** P semidefinite, the three adaptive noises diagonal with positive entries. */
  ghost predicate SoundTrack(t: Track) {
    IsVec(t.x, 9) && IsMat(t.p, 9, 9) && SemiDefinite(t.p, 9)
    && PositiveDiagonal(t.rNhc, 2) && PositiveDiagonal(t.rV, 3) && PositiveDiagonal(t.rB, 3)
  }

  function LimitedStep(elapsed: real): (dt: real)
    ensures 0.0005 <= dt <= 0.05
    ensures 0.0005 <= elapsed <= 0.05 ==> dt == elapsed
    ensures elapsed <= 0.0 ==> dt == 0.005
  {
    Clip(if elapsed <= 0.0 then 0.005 else elapsed, 0.0005, 0.05)
  }

  function TransitionEntry(dt: real, i: nat, j: nat): real {
    if i == j then 1.0
    else if i < 3 && j == i + 3 then dt
    else if i < 3 && j == i + 6 then -0.5 * dt * dt
    else if 3 <= i < 6 && j == i + 3 then -dt
    else 0.0
  }

  function Transition9(dt: real): (f: Mat)
    ensures IsMat(f, 9, 9)
  {
    seq(9, (i: nat) => seq(9, (j: nat) => TransitionEntry(dt, i, j)))
  }

  /** Position, velocity and acceleration bias after dt under the measured acceleration a. */
  function PredictedState(x: Vec, a: Vec, dt: real): (y: Vec)
    requires |x| == 9 && |a| == 3
    ensures |y| == 9
  {
    seq(9, (i: nat) requires i < 9 =>
      if i < 3 then x[i] + x[i + 3] * dt + 0.5 * (a[i] - x[i + 6]) * dt * dt
      else if i < 6 then x[i] + (a[i - 3] - x[i + 3]) * dt
      else x[i])
  }

  /** The matrix that carries the covariance is exactly the one that carries the state error. */
  lemma PredictionIsLinear(x: Vec, y: Vec, a: Vec, dt: real)
    requires |x| == |y| == 9 && |a| == 3
    ensures VSub(PredictedState(x, a, dt), PredictedState(y, a, dt)) == MatVec(Transition9(dt), VSub(x, y))
  {
    var d := VSub(x, y);
    forall i | 0 <= i < 9
      ensures VSub(PredictedState(x, a, dt), PredictedState(y, a, dt))[i] == MatVec(Transition9(dt), d)[i]
    {
      TransitionRow(dt, d, i);
    }
  }

  /**
   Velocity moves by the measured acceleration less its bias, position by the mean of the old and
   the new velocity, and the bias stays.
   */
  lemma PredictionMoves(x: Vec, a: Vec, dt: real, i: nat)
    requires |x| == 9 && |a| == 3 && i < 3
    ensures var y := PredictedState(x, a, dt);
      && y[3 + i] - x[3 + i] == dt * (a[i] - x[6 + i])
      && y[i] - x[i] == dt * ((x[3 + i] + y[3 + i]) / 2.0)
      && y[6 + i] == x[6 + i]
  {
    var c := a[i] - x[6 + i];
    assert 0.5 * c * dt * dt == dt * ((dt * c) / 2.0);
  }

  /** A constant added to the measured acceleration and to its bias moves nothing. */
  lemma BiasIsSubtracted(x: Vec, a: Vec, dt: real, c: Vec, y: Vec)
    requires |x| == |y| == 9 && |a| == |c| == 3
    requires y[..6] == x[..6] && forall i :: 0 <= i < 3 ==> y[6 + i] == x[6 + i] + c[i]
    ensures PredictedState(y, VAdd(a, c), dt)[..6] == PredictedState(x, a, dt)[..6]
  {
    forall i | 0 <= i < 6 ensures PredictedState(y, VAdd(a, c), dt)[i] == PredictedState(x, a, dt)[i] {
      assert y[..6][i] == x[..6][i];
      var k := if i < 3 then i else i - 3;
      assert y[..6][k] == x[..6][k] && y[..6][3 + k] == x[..6][3 + k];
      assert VAdd(a, c)[k] - y[6 + k] == a[k] - x[6 + k];
    }
  }

  lemma TransitionRow(dt: real, d: Vec, i: nat)
    requires |d| == 9 && i < 9
    ensures MatVec(Transition9(dt), d)[i]
         == d[i] + (if i < 3 then dt * d[i + 3] + (-0.5 * dt * dt) * d[i + 6] else if i < 6 then -dt * d[i + 3] else 0.0)
  {
    var row := Transition9(dt)[i];
    if i < 3 {
      var e := -0.5 * dt * dt;
      PositionRow(dt, i, e);
      DotCombination(row, d, i, dt, i + 3, e, i + 6);
    } else if i < 6 {
      VelocityRow(dt, i);
      DotCombination(row, d, i, -dt, i + 3, 0.0, i + 3);
    } else {
      assert row == Unit(9, i);
      DotUnit(i, d);
    }
  }

  /** c times unit j plus e times unit k, added to unit i. */
  function Combination(i: nat, c: real, j: nat, e: real, k: nat): (v: Vec)
    ensures |v| == 9
  {
    VAdd(VAdd(Unit(9, i), VScale(c, Unit(9, j))), VScale(e, Unit(9, k)))
  }

  lemma PositionRow(dt: real, i: nat, e: real)
    requires i < 3 && e == -0.5 * dt * dt
    ensures Transition9(dt)[i] == Combination(i, dt, i + 3, e, i + 6)
  {
    forall j | 0 <= j < 9 ensures Transition9(dt)[i][j] == Combination(i, dt, i + 3, e, i + 6)[j] {
      ScaleEntry(dt, Unit(9, i + 3), j);
      ScaleEntry(e, Unit(9, i + 6), j);
    }
  }

  lemma VelocityRow(dt: real, i: nat)
    requires 3 <= i < 6
    ensures Transition9(dt)[i] == Combination(i, -dt, i + 3, 0.0, i + 3)
  {
    forall j | 0 <= j < 9 ensures Transition9(dt)[i][j] == Combination(i, -dt, i + 3, 0.0, i + 3)[j] {
      ScaleEntry(-dt, Unit(9, i + 3), j);
      ScaleEntry(0.0, Unit(9, i + 3), j);
    }
  }

  lemma DotCombination(row: Vec, d: Vec, i: nat, c: real, j: nat, e: real, k: nat)
    requires |row| == |d| == 9 && i < 9 && j < 9 && k < 9 && row == Combination(i, c, j, e, k)
    ensures Dot(row, d) == d[i] + c * d[j] + e * d[k]
  {
    hide Dot, VAdd, VScale;
    var u, v := VScale(c, Unit(9, j)), VScale(e, Unit(9, k));
    DotAdd(VAdd(Unit(9, i), u), v, d);
    DotAdd(Unit(9, i), u, d);
    DotUnit(i, d);
    DotUnit(j, d);
    DotUnit(k, d);
    DotScaleNamed(c, Unit(9, j), d, d[j]);
    DotScaleNamed(e, Unit(9, k), d, d[k]);
  }

  /** A block row observing three consecutive state entries through g. */
  function ObserveFrom(g: Mat, start: nat): (h: Mat)
    requires Rect(g) && Cols(g) == 3 && start + 3 <= 9
    ensures IsMat(h, |g|, 9)
  {
    seq(|g|, i requires 0 <= i < |g| => Padded(g[i], start))
  }

  function Padded(r: Vec, start: nat): (v: Vec)
    requires |r| == 3 && start + 3 <= 9
    ensures |v| == 9
  {
    Zeros(start) + r + Zeros(6 - start)
  }

  /** What is observed from start on are the three entries there, through g. */
  lemma ObserveFromActs(g: Mat, start: nat, x: Vec)
    requires Rect(g) && Cols(g) == 3 && start + 3 <= 9 && |x| == 9
    ensures MatVec(ObserveFrom(g, start), x) == MatVec(g, x[start..start + 3])
  {
    forall i | 0 <= i < |g| ensures MatVec(ObserveFrom(g, start), x)[i] == MatVec(g, x[start..start + 3])[i] {
      var front, middle, back := x[..start], x[start..start + 3], x[start + 3..];
      assert x == front + (middle + back);
      PaddedDot(Zeros(start), g[i] + Zeros(6 - start), front, middle + back);
      PaddedDot(g[i], Zeros(6 - start), middle, back);
      DotZero(Zeros(start), front);
      DotZero(Zeros(6 - start), back);
      assert Padded(g[i], start) == Zeros(start) + (g[i] + Zeros(6 - start));
    }
  }

  lemma {:induction false} PaddedDot(a: Vec, b: Vec, x: Vec, y: Vec)
    requires |a| == |x| && |b| == |y|
    ensures Dot(a + b, x + y) == Dot(a, x) + Dot(b, y)
  {
    if a == [] {
      assert a + b == b && x + y == y;
    } else {
      PaddedDot(a[1..], b, x[1..], y);
      assert (a + b)[1..] == a[1..] + b && (x + y)[1..] == x[1..] + y;
    }
  }

  ghost predicate NoLargerThan(a: Mat, b: Mat, n: nat) {
    IsMat(a, n, n) && IsMat(b, n, n) && SemiDefinite(MSub(b, a), n)
  }

  lemma NoLargerTransitive(a: Mat, b: Mat, c: Mat, n: nat)
    requires NoLargerThan(a, b, n) && NoLargerThan(b, c, n)
    ensures NoLargerThan(a, c, n)
  {
    AddSemiDefinite(MSub(c, b), MSub(b, a), n);
    forall i | 0 <= i < n ensures MAdd(MSub(c, b), MSub(b, a))[i] == MSub(c, a)[i] {
    }
    assert MAdd(MSub(c, b), MSub(b, a)) == MSub(c, a);
  }

  lemma NoLargerReflexive(a: Mat, n: nat)
    requires IsMat(a, n, n)
    ensures NoLargerThan(a, a, n)
  {
    var z := MSub(a, a);
    SymmetricFromEntries(z, n);
    forall x: Vec {:trigger Quad(z, x)} | |x| == n ensures Quad(z, x) >= 0.0 {
      forall i | 0 <= i < n ensures MatVec(z, x)[i] == 0.0 {
        DotZero(z[i], x);
      }
      DotZero(MatVec(z, x), x);
    }
  }

  /** Q for a sample, from its limited time step and noise levels. */
  function SampleNoise(s: Sample): (q: Mat)
    ensures IsMat(q, 9, 9)
  {
    var a, b := Clip(s.sigmaA, 0.20, 25.0), Clip(s.sigmaB, 0.001, 0.50);
    ProcessNoise(LimitedStep(s.elapsed), Square(a), Square(b))
  }

  function Square(a: real): (q: real)
    ensures q >= 0.0
  {
    SquareSign(a, a * a);
    a * a
  }

  lemma PositiveSquare(a: real)
    requires a > 0.0
    ensures Square(a) > 0.0
  {
    ProductSign(a, a, a * a);
  }

  lemma SampleNoiseSemiDefinite(s: Sample)
    ensures SemiDefinite(SampleNoise(s), 9)
  {
    hide SemiDefinite, ProcessNoise;
    var a, b := Clip(s.sigmaA, 0.20, 25.0), Clip(s.sigmaB, 0.001, 0.50);
    ProcessNoiseSemiDefinite(LimitedStep(s.elapsed), Square(a), Square(b));
  }

  /** Within the program's limits the velocity gains the noise of the acceleration, and the bias its own. */
  lemma SampleNoiseAt(s: Sample, a: nat)
    requires a < 3 && 0.0005 <= s.elapsed <= 0.05 && 0.20 <= s.sigmaA <= 25.0 && 0.001 <= s.sigmaB <= 0.50
    ensures SampleNoise(s)[3 + a][3 + a] == 12.0 * (Square(s.sigmaA) * (s.elapsed * s.elapsed))
    ensures SampleNoise(s)[6 + a][6 + a] == 12.0 * (Square(s.sigmaB) * s.elapsed)
  {
    hide ProcessNoise, Square;
    var q := SampleNoise(s);
    assert q == ProcessNoise(s.elapsed, Square(s.sigmaA), Square(s.sigmaB));
    NoiseRelations(s.elapsed, Square(s.sigmaA), Square(s.sigmaB), a, a, q[3 + a][3 + a]);
  }

  ghost function PredictedCovariance(p: Mat, s: Sample): (q: Mat)
    requires IsMat(p, 9, 9)
    ensures IsMat(q, 9, 9)
  {
    var f := Transition9(LimitedStep(s.elapsed));
    MAdd(MatMul(MatMul(f, p), Transpose(f)), SampleNoise(s))
  }

  lemma PredictedSemiDefinite(p: Mat, s: Sample)
    requires SemiDefinite(p, 9)
    ensures IsMat(p, 9, 9) && SemiDefinite(PredictedCovariance(p, s), 9)
  {
    SemiDefiniteShape(p, 9);
    hide SemiDefinite, Transition9, SampleNoise, MatMul, Transpose, MAdd;
    var f := Transition9(LimitedStep(s.elapsed));
    SampleNoiseSemiDefinite(s);
    CongruenceSemiDefinite(f, p, 9, 9);
    AddSemiDefinite(MatMul(MatMul(f, p), Transpose(f)), SampleNoise(s), 9);
  }

  /** The predicted variance of any combination of the entries is that after the motion, and the noise of the sample. */
  lemma PredictedAlong(p: Mat, s: Sample, u: Vec)
    requires IsMat(p, 9, 9) && |u| == 9
    ensures Quad(PredictedCovariance(p, s), u)
         == Quad(p, MatVec(Transpose(Transition9(LimitedStep(s.elapsed))), u)) + Quad(SampleNoise(s), u)
  {
    var f := Transition9(LimitedStep(s.elapsed));
    hide Quad, MatMul, MatVec, Transpose, Transition9, SampleNoise;
    QuadCongruence(f, p, u);
    QuadAdd(MatMul(MatMul(f, p), Transpose(f)), SampleNoise(s), u);
  }

  /** The measurement noise used: the adaptive one blended with a fresh isotropic one. */
  function BlendedNoise(keep: real, r: Mat, sigma2: real, m: nat): (b: Mat)
    requires IsMat(r, m, m)
    ensures IsMat(b, m, m)
  {
    Blend(keep, r, 1.0 - keep, MScale(sigma2, Identity(m)))
  }

  /** The noise used lies 1 - keep of the way from the adaptive noise to the fresh one. */
  lemma BlendedNoiseAt(keep: real, r: Mat, sigma2: real, m: nat, i: nat, c: real)
    requires IsMat(r, m, m) && i < m && c == r[i][i]
    ensures BlendedNoise(keep, r, sigma2, m)[i][i] - c == (1.0 - keep) * (sigma2 - c)
  {
    assert MScale(sigma2, Identity(m))[i][i] == sigma2 by {
      EntryIs(sigma2, Identity(m)[i], i, 1.0);
    }
    BlendAt(keep, r, 1.0 - keep, MScale(sigma2, Identity(m)), m, i, c, sigma2);
    assert keep * c + (1.0 - keep) * sigma2 - c == (1.0 - keep) * (sigma2 - c);
  }

  lemma BlendedNoiseDefinite(keep: real, r: Mat, sigma2: real, m: nat)
    requires PositiveDiagonal(r, m) && 0.0 < keep < 1.0 && sigma2 > 0.0
    ensures Definite(BlendedNoise(keep, r, sigma2, m), m)
  {
    PositiveDiagonalShape(r, m);
    ScaledIdentityPositive(sigma2, m);
    BlendDefinite(keep, r, 1.0 - keep, MScale(sigma2, Identity(m)), m);
  }

  lemma BlendDefinite(a: real, r: Mat, b: real, s: Mat, k: nat)
    requires a > 0.0 && b > 0.0 && PositiveDiagonal(r, k) && PositiveDiagonal(s, k)
    ensures Definite(Blend(a, r, b, s), k)
  {
    PositiveDiagonalShape(r, k);
    PositiveDiagonalShape(s, k);
    hide PositiveDiagonal, Definite, Blend;
    BlendPositive(a, r, b, s, k);
    PositiveDiagonalDefinite(Blend(a, r, b, s), k);
  }

  lemma PositiveDiagonalShape(r: Mat, k: nat)
    requires PositiveDiagonal(r, k)
    ensures IsMat(r, k, k)
  {
  }

  /**
   The result of one measurement against an adaptive noise: the classical update with the blended
   and gated noise, and the noise moved towards the clipped innovation.
   */
  ghost predicate Adapted(x: Vec, p: Mat, z: Vec, h: Mat, r: Mat, keep: real, sigma2: real, gate: real,
                          low: real, high: real, m: nat, x': Vec, p': Mat, r': Mat) {
    && IsVec(x, 9) && SemiDefinite(p, 9) && IsVec(z, m) && IsMat(h, m, 9) && IsMat(r, m, m) && IsMat(p', 9, 9)
    && Definite(BlendedNoise(keep, r, sigma2, m), m) && gate > 0.0 && low <= high
    && var used := GatedNoise(x, p, z, h, BlendedNoise(keep, r, sigma2, m), gate, m, 9);
    && x' == UpdatedState(x, p, h, used, z, m, 9)
    && p' == UpdatedCovariance(p, h, used, m, 9)
    && r' == Blend(0.97, r, 0.03, ClippedDiagonal(InnovationExcess(x, z, h, p', m, 9), low, high))
  }

  /**
   Each entry of the adapted noise moves by 0.03 of the way to what the squared innovation has there
   over the variance left after the update, clipped.
   */
  lemma AdaptedNoiseAt(x: Vec, p: Mat, z: Vec, h: Mat, r: Mat, keep: real, sigma2: real, gate: real,
                       low: real, high: real, m: nat, x': Vec, p': Mat, r': Mat, i: nat, c: real, y: real)
    requires Adapted(x, p, z, h, r, keep, sigma2, gate, low, high, m, x', p', r') && i < m
    requires c == r[i][i] && y == VSub(z, MatVec(h, x))[i]
    ensures IsMat(r', m, m) && IsMat(p', 9, 9)
    ensures r'[i][i] - c == 0.03 * (Clip(y * y - Quad(p', MatVec(Transpose(h), Unit(m, i))), low, high) - c)
  {
    hide Definite, SemiDefinite, BlendedNoise, GatedNoise, UpdatedState, UpdatedCovariance, Blend, ClippedDiagonal,
         InnovationExcess, Clip;
    var e := InnovationExcess(x, z, h, p', m, 9);
    var v := VSub(z, MatVec(h, x));
    DotUnit(i, v);
    ExcessAlong(x, z, h, p', m, 9, Unit(m, i), y);
    DiagonalEntry(e, m, i);
    ClippedAt(e, low, high, m, i);
    BlendAt(0.97, r, 0.03, ClippedDiagonal(e, low, high), m, i, c, ClippedDiagonal(e, low, high)[i][i]);
  }

  lemma ClippedAt(m: Mat, low: real, high: real, k: nat, i: nat)
    requires IsMat(m, k, k) && low <= high && i < k
    ensures ClippedDiagonal(m, low, high)[i][i] == Clip(m[i][i], low, high)
  {
    DiagonalAt(seq(|m|, i requires 0 <= i < |m| => Clip(m[i][i], low, high)), i);
  }

  /** One measurement against an adaptive noise that is then blended with the clipped innovation. */
  method AdaptiveUpdate(x: Vec, p: Mat, z: Vec, h: Mat, r: Mat, keep: real, sigma2: real, gate: real,
                        low: real, high: real, m: nat)
    returns (x': Vec, p': Mat, r': Mat)
    requires IsVec(x, 9) && SemiDefinite(p, 9) && IsVec(z, m) && IsMat(h, m, 9) && PositiveDiagonal(r, m)
    requires 0.0 < keep < 1.0 && sigma2 > 0.0 && gate > 0.0 && 0.0 < low <= high
    ensures IsVec(x', 9) && SemiDefinite(p', 9) && NoLargerThan(p', p, 9) && PositiveDiagonal(r', m)
    ensures Within(r, m, low, high) ==> Within(r', m, low, high)
    ensures Adapted(x, p, z, h, r, keep, sigma2, gate, low, high, m, x', p', r')
  {
    SemiDefiniteShape(p, 9);
    PositiveDiagonalShape(r, m);
    hide SemiDefinite, Definite, PositiveDiagonal, BlendedNoise, Blend, UpdatedState, UpdatedCovariance, GatedNoise,
         ClippedDiagonal, MSub, InnovationExcess;
    BlendedNoiseDefinite(keep, r, sigma2, m);
    var nis, cov;
    x', p', nis, cov := RobustUpdate(x, p, z, h, BlendedNoise(keep, r, sigma2, m), gate, m, 9);
    SemiDefiniteShape(p', 9);
    ClippedPositive(cov, low, high, m);
    BlendPositive(0.97, r, 0.03, ClippedDiagonal(cov, low, high), m);
    if Within(r, m, low, high) {
      AdaptedWithin(r, cov, low, high, m);
    }
    r' := Blend(0.97, r, 0.03, ClippedDiagonal(cov, low, high));
  }

  /** F P F^T + Q, and the average with its transpose that the program takes to keep it symmetric. */
  method Predict(p: Mat, s: Sample) returns (predicted: Mat)
    requires SemiDefinite(p, 9)
    ensures IsMat(p, 9, 9) && predicted == PredictedCovariance(p, s) && SemiDefinite(predicted, 9)
  {
    SemiDefiniteShape(p, 9);
    hide SemiDefinite, MatMul, MAdd, MScale, Transpose, Transition9, SampleNoise;
    var f := Transition9(LimitedStep(s.elapsed));
    predicted := MAdd(MatMul(MatMul(f, p), Transpose(f)), SampleNoise(s));
    PredictedSemiDefinite(p, s);
    Symmetrised(predicted, 9);
    predicted := MScale(0.5, MAdd(predicted, Transpose(predicted)));
  }

  /** First the velocity is measured as zero, then, from that result, the acceleration as bias. */
  ghost predicate AtRestVia(x: Vec, p: Mat, s: Sample, rV: Mat, rB: Mat, x1: Vec, p1: Mat,
                            x': Vec, p': Mat, rV': Mat, rB': Mat) {
    && Adapted(x, p, Zeros(3), ObserveFrom(Identity(3), 3), rV, 0.85, Max(Square(s.sigmaV), 1e-8),
               16.27, 1e-8, 0.50, 3, x1, p1, rV')
    && Adapted(x1, p1, s.aWorld, ObserveFrom(Identity(3), 6), rB, 0.90, Max(Square(s.sigmaB0), 1e-8),
               16.27, 1e-8, 2.0, 3, x', p', rB')
  }

  ghost predicate AtRest(x: Vec, p: Mat, s: Sample, rV: Mat, rB: Mat, x': Vec, p': Mat, rV': Mat, rB': Mat) {
    exists x1, p1 :: AtRestVia(x, p, s, rV, rB, x1, p1, x', p', rV', rB')
  }

  /** At rest: the velocity is measured as zero, then the acceleration as bias. */
  method ZeroVelocity(x: Vec, p: Mat, s: Sample, rV: Mat, rB: Mat) returns (x': Vec, p': Mat, rV': Mat, rB': Mat)
    requires IsVec(x, 9) && SemiDefinite(p, 9) && ProperSample(s) && PositiveDiagonal(rV, 3) && PositiveDiagonal(rB, 3)
    ensures IsVec(x', 9) && SemiDefinite(p', 9) && NoLargerThan(p', p, 9)
    ensures PositiveDiagonal(rV', 3) && PositiveDiagonal(rB', 3)
    ensures Within(rV, 3, 1e-8, 0.50) ==> Within(rV', 3, 1e-8, 0.50)
    ensures Within(rB, 3, 1e-8, 2.0) ==> Within(rB', 3, 1e-8, 2.0)
    ensures AtRest(x, p, s, rV, rB, x', p', rV', rB')
  {
    hide SemiDefinite, PositiveDiagonal, NoLargerThan, ObserveFrom, Identity, Adapted, Within;
    var x1, p1;
    x1, p1, rV' := AdaptiveUpdate(x, p, Zeros(3), ObserveFrom(Identity(3), 3), rV, 0.85,
                                  Max(Square(s.sigmaV), 1e-8), 16.27, 1e-8, 0.50, 3);
    x', p', rB' := AdaptiveUpdate(x1, p1, s.aWorld, ObserveFrom(Identity(3), 6), rB, 0.90,
                                  Max(Square(s.sigmaB0), 1e-8), 16.27, 1e-8, 2.0, 3);
    NoLargerTransitive(p', p1, p, 9);
    assert AtRestVia(x, p, s, rV, rB, x1, p1, x', p', rV', rB');
  }

  /**
   One sample takes the track before to the track after: the prediction, at most one kind of update,
   which does not exceed it, and nothing else changed.
   */
  ghost predicate Linked(before: Track, s: Sample, predicted: Mat, after: Track) {
    && ProperSample(s) && SoundTrack(before)
    && predicted == PredictedCovariance(before.p, s)
    && SemiDefinite(predicted, 9)
    && NoLargerThan(after.p, predicted, 9)
    && var x := PredictedState(before.x, s.aWorld, LimitedStep(s.elapsed));
    if s.stationary then
      after.rNhc == before.rNhc && AtRest(x, predicted, s, before.rV, before.rB, after.x, after.p, after.rV, after.rB)
    else if s.moving then
      && after.rV == before.rV && after.rB == before.rB
      && Adapted(x, predicted, Zeros(2), ObserveFrom(s.acrossAxes, 3), before.rNhc, 0.85,
                 Square(Clip(s.sigmaNhc, 0.04, 3.0)), 13.82, 1e-6, 9.0, 2, after.x, after.p, after.rNhc)
    else after == Track(x, predicted, before.rNhc, before.rV, before.rB)
  }

  /** The adaptive noises lie within the limits of their clipping. */
  ghost predicate NoisesWithin(t: Track) {
    Within(t.rNhc, 2, 1e-6, 9.0) && Within(t.rV, 3, 1e-8, 0.50) && Within(t.rB, 3, 1e-8, 2.0)
  }

  /** What is observed of the state, less what was measured. */
  ghost function Miss(g: Mat, z: Vec, x: Vec, start: nat): (v: Vec)
    requires Rect(g) && Cols(g) == 3 && |z| == |g| && start + 3 <= |x|
    ensures |v| == |g|
  {
    VSub(z, MatVec(g, x[start..start + 3]))
  }

  /** In the measure w, the measurement is missed by no more after than before. */
  ghost predicate Pulls(w: Mat, g: Mat, z: Vec, start: nat, x: Vec, x': Vec) {
    && Rect(g) && Cols(g) == 3 && |z| == |g| && start + 3 <= |x| && start + 3 <= |x'| && Definite(w, |g|)
    && Quad(w, Miss(g, z, x', start)) <= Quad(w, Miss(g, z, x, start))
  }

  /** In some such measure. */
  ghost predicate Pulled(g: Mat, z: Vec, start: nat, x: Vec, x': Vec) {
    exists w :: Pulls(w, g, z, start, x, x')
  }

  lemma AdaptedPulls(x: Vec, p: Mat, z: Vec, g: Mat, start: nat, r: Mat, keep: real, sigma2: real, gate: real,
                     low: real, high: real, m: nat, x': Vec, p': Mat, r': Mat)
    requires IsMat(g, m, 3) && start + 3 <= 9
    requires Adapted(x, p, z, ObserveFrom(g, start), r, keep, sigma2, gate, low, high, m, x', p', r')
    ensures Pulled(g, z, start, x, x')
  {
    hide Definite, SemiDefinite, BlendedNoise, GatedNoise, UpdatedState, UpdatedCovariance, ObserveFrom, Blend,
         ClippedDiagonal, InnovationExcess, Quad, Inverse, MatVec, VSub;
    var h := ObserveFrom(g, start);
    var used := GatedNoise(x, p, z, h, BlendedNoise(keep, r, sigma2, m), gate, m, 9);
    ResidualShrinks(x, p, h, used, z, m, 9);
    InverseProperties(used, m);
    ObserveFromActs(g, start, x);
    ObserveFromActs(g, start, x');
    assert Pulls(Inverse(used, m), g, z, start, x, x');
  }

  /** At rest the velocity is pulled to zero and then the bias to the measured acceleration. */
  lemma RestPulls(x: Vec, p: Mat, s: Sample, rV: Mat, rB: Mat, x1: Vec, p1: Mat, x': Vec, p': Mat, rV': Mat, rB': Mat)
    requires ProperSample(s) && AtRestVia(x, p, s, rV, rB, x1, p1, x', p', rV', rB')
    ensures Pulled(Identity(3), Zeros(3), 3, x, x1)
    ensures Pulled(Identity(3), s.aWorld, 6, x1, x')
  {
    hide Adapted, Identity, ObserveFrom, Pulled;
    AdaptedPulls(x, p, Zeros(3), Identity(3), 3, rV, 0.85, Max(Square(s.sigmaV), 1e-8), 16.27, 1e-8, 0.50, 3, x1, p1, rV');
    AdaptedPulls(x1, p1, s.aWorld, Identity(3), 6, rB, 0.90, Max(Square(s.sigmaB0), 1e-8), 16.27, 1e-8, 2.0, 3, x', p', rB');
  }

  /**
   A sample at rest pulls the predicted velocity to zero and then the bias to the measured acceleration;
   one in motion pulls the velocity across the axes of travel to zero; any other leaves the prediction.
   The noises of what is not measured stay.
   */
  lemma SamplePulls(before: Track, s: Sample, predicted: Mat, after: Track)
    requires Linked(before, s, predicted, after)
    ensures |before.x| == 9 && ProperSample(s)
    ensures var x := PredictedState(before.x, s.aWorld, LimitedStep(s.elapsed));
      if s.stationary then
        && (exists x1 :: Pulled(Identity(3), Zeros(3), 3, x, x1)
                      && Pulled(Identity(3), s.aWorld, 6, x1, after.x))
        && after.rNhc == before.rNhc
      else if s.moving then
        && Pulled(s.acrossAxes, Zeros(2), 3, x, after.x)
        && after.rV == before.rV && after.rB == before.rB
      else after == Track(x, predicted, before.rNhc, before.rV, before.rB)
  {
    hide Adapted, ObserveFrom, Pulled, PredictedState, SemiDefinite, NoLargerThan, PositiveDiagonal, PredictedCovariance,
         AtRestVia, Identity;
    var x := PredictedState(before.x, s.aWorld, LimitedStep(s.elapsed));
    if s.stationary {
      var x1, p1 :| AtRestVia(x, predicted, s, before.rV, before.rB, x1, p1, after.x, after.p, after.rV, after.rB);
      RestPulls(x, predicted, s, before.rV, before.rB, x1, p1, after.x, after.p, after.rV, after.rB);
    } else if s.moving {
      AdaptedPulls(x, predicted, Zeros(2), s.acrossAxes, 3, before.rNhc, 0.85, Square(Clip(s.sigmaNhc, 0.04, 3.0)), 13.82,
                   1e-6, 9.0, 2, after.x, after.p, after.rNhc);
    }
  }

  /** One pass of the loop body: predict, then constrain the motion or zero the velocity and learn the bias. */
  method Advance(t: Track, s: Sample) returns (t': Track, predicted: Mat)
    requires SoundTrack(t) && ProperSample(s)
    ensures SoundTrack(t') && Linked(t, s, predicted, t')
    ensures NoisesWithin(t) ==> NoisesWithin(t')
  {
    hide SemiDefinite, PositiveDiagonal, Adapted, AtRest, NoLargerThan, PredictedState, PredictedCovariance, ObserveFrom,
         Identity, Within;
    predicted := Predict(t.p, s);
    var x, p := PredictedState(t.x, s.aWorld, LimitedStep(s.elapsed)), predicted;
    var rNhc, rV, rB := t.rNhc, t.rV, t.rB;
    NoLargerReflexive(predicted, 9);
    if !s.stationary && s.moving {
      var sigma := Clip(s.sigmaNhc, 0.04, 3.0);
      PositiveSquare(sigma);
      x, p, rNhc := AdaptiveUpdate(x, p, Zeros(2), ObserveFrom(s.acrossAxes, 3), rNhc, 0.85, Square(sigma), 13.82,
                                   1e-6, 9.0, 2);
    }
    if s.stationary {
      x, p, rV, rB := ZeroVelocity(x, p, s, rV, rB);
    }
    SemiDefiniteShape(p, 9);
    t' := Track(x, p, rNhc, rV, rB);
  }

  function StartTrack(): Track {
    Track(Zeros(9), Diagonal([0.0025, 0.0025, 0.0025, 0.25, 0.25, 0.25, 0.04, 0.04, 0.04]),
          MScale(0.04, Identity(2)), MScale(0.0009, Identity(3)), MScale(0.0064, Identity(3)))
  }

  lemma StartNoisesWithin()
    ensures NoisesWithin(StartTrack())
  {
    EntryIs(0.04, Identity(2)[0], 0, 1.0);
    EntryIs(0.04, Identity(2)[1], 1, 1.0);
    forall i | 0 <= i < 3
      ensures MScale(0.0009, Identity(3))[i][i] == 0.0009 && MScale(0.0064, Identity(3))[i][i] == 0.0064
    {
      EntryIs(0.0009, Identity(3)[i], i, 1.0);
      EntryIs(0.0064, Identity(3)[i], i, 1.0);
    }
  }

  lemma StartTrackSound()
    ensures SoundTrack(StartTrack())
  {
    hide SemiDefinite, PositiveDiagonal, Diagonal, MScale, Identity;
    DiagonalSemiDefinite([0.0025, 0.0025, 0.0025, 0.25, 0.25, 0.25, 0.04, 0.04, 0.04], 9);
    ScaledIdentityPositive(0.04, 2);
    ScaledIdentityPositive(0.0009, 3);
    ScaledIdentityPositive(0.0064, 3);
  }

  /**
   The filter loop.  tracks[k] is the filter before sample k: every predicted and every updated
   covariance is semidefinite, no update exceeds its prediction, and the noises stay positive
   diagonals within their limits.
   */
  method RunFilter(samples: seq<Sample>) returns (tracks: seq<Track>, predictions: seq<Mat>)
    requires forall i :: 0 <= i < |samples| ==> ProperSample(samples[i])
    ensures |tracks| == |samples| + 1 && |predictions| == |samples| && tracks[0] == StartTrack()
    ensures forall i :: 0 <= i <= |samples| ==> SoundTrack(tracks[i]) && NoisesWithin(tracks[i])
    ensures forall i :: 0 <= i < |samples| ==> Linked(tracks[i], samples[i], predictions[i], tracks[i + 1])
  {
    hide SoundTrack, Linked, NoisesWithin;
    StartTrackSound();
    StartNoisesWithin();
    tracks, predictions := [StartTrack()], [];
    for k := 0 to |samples|
      invariant |tracks| == k + 1 && |predictions| == k && tracks[0] == StartTrack()
      invariant forall i :: 0 <= i <= k ==> SoundTrack(tracks[i]) && NoisesWithin(tracks[i])
      invariant forall i :: 0 <= i < k ==> Linked(tracks[i], samples[i], predictions[i], tracks[i + 1])
    {
      var t, predicted := Advance(tracks[k], samples[k]);
      tracks, predictions := tracks + [t], predictions + [predicted];
    }
  }
}
