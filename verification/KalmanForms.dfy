/**
 The two forms of the Kalman measurement update.  The classical one inverts the innovation
 covariance H P H^T + R; the information form inverts P^-1 + H^T R^-1 H.  Both inverses
 exist when P and R are positive definite, and the forms agree.
 */
module KalmanForms {
  import opened LinearAlgebra
  import opened PositiveDefinite

  /** H P H^T + R */
  function InnovationCovariance(p: Mat, h: Mat, r: Mat, m: nat, n: nat): (s: Mat)
    requires IsMat(p, n, n) && IsMat(h, m, n) && IsMat(r, m, m)
    ensures IsMat(s, m, m)
  {
    MAdd(MatMul(MatMul(h, p), Transpose(h)), r)
  }

  lemma InnovationDefinite(p: Mat, h: Mat, r: Mat, m: nat, n: nat)
    requires SemiDefinite(p, n) && IsMat(h, m, n) && Definite(r, m)
    ensures Definite(InnovationCovariance(p, h, r, m, n), m)
  {
    CongruenceSemiDefinite(h, p, m, n);
    AddDefinite(r, MatMul(MatMul(h, p), Transpose(h)), m);
  }

  /** P H^T S^-1 */
  function Gain(p: Mat, h: Mat, r: Mat, m: nat, n: nat): (k: Mat)
    requires SemiDefinite(p, n) && IsMat(h, m, n) && Definite(r, m)
    ensures IsMat(k, n, m)
  {
    InnovationDefinite(p, h, r, m, n);
    MatMul(MatMul(p, Transpose(h)), Inverse(InnovationCovariance(p, h, r, m, n), m))
  }

  /** (I - K H) P */
  function UpdatedCovariance(p: Mat, h: Mat, r: Mat, m: nat, n: nat): (q: Mat)
    requires SemiDefinite(p, n) && IsMat(h, m, n) && Definite(r, m)
    ensures IsMat(q, n, n)
  {
    MatMul(MSub(Identity(n), MatMul(Gain(p, h, r, m, n), h)), p)
  }

  /** x + K (z - H x) */
  function UpdatedState(x: Vec, p: Mat, h: Mat, r: Mat, z: Vec, m: nat, n: nat): (y: Vec)
    requires IsVec(x, n) && IsVec(z, m)
    requires SemiDefinite(p, n) && IsMat(h, m, n) && Definite(r, m)
    ensures IsVec(y, n)
  {
    VAdd(x, MatVec(Gain(p, h, r, m, n), VSub(z, MatVec(h, x))))
  }

  /** H^T R^-1 */
  function WeightedTranspose(h: Mat, r: Mat, m: nat, n: nat): (w: Mat)
    requires IsMat(h, m, n) && Definite(r, m)
    ensures IsMat(w, n, m)
  {
    MatMul(Transpose(h), Inverse(r, m))
  }

  /** H^T R^-1 H: the information a measurement adds. */
  function Information(h: Mat, r: Mat, m: nat, n: nat): (w: Mat)
    requires IsMat(h, m, n) && Definite(r, m)
    ensures IsMat(w, n, n)
  {
    MatMul(WeightedTranspose(h, r, m, n), h)
  }

  lemma InformationSemiDefinite(h: Mat, r: Mat, m: nat, n: nat)
    requires IsMat(h, m, n) && Definite(r, m)
    ensures SemiDefinite(Information(h, r, m, n), n)
  {
    InverseProperties(r, m);
    DefiniteIsSemiDefinite(Inverse(r, m), m);
    CongruenceSemiDefinite(Transpose(h), Inverse(r, m), n, m);
    TransposeTwice(h, m, n);
  }

  /** P^-1 + H^T R^-1 H is positive definite, so the information form can be inverted. */
  lemma PosteriorInformationDefinite(p: Mat, h: Mat, r: Mat, m: nat, n: nat)
    requires Definite(p, n) && IsMat(h, m, n) && Definite(r, m)
    ensures Definite(MAdd(Inverse(p, n), Information(h, r, m, n)), n)
  {
    InverseProperties(p, n);
    InformationSemiDefinite(h, r, m, n);
    AddDefinite(Inverse(p, n), Information(h, r, m, n), n);
  }

  /** (P^-1 + H^T R^-1 H) P H^T == H^T R^-1 (H P H^T + R) */
  lemma PushThrough(p: Mat, h: Mat, r: Mat, m: nat, n: nat)
    requires Definite(p, n) && IsMat(h, m, n) && Definite(r, m)
    ensures MatMul(MAdd(Inverse(p, n), Information(h, r, m, n)), MatMul(p, Transpose(h)))
         == MatMul(WeightedTranspose(h, r, m, n), InnovationCovariance(p, h, r, m, n))
  {
    var pi, ht, w, a := Inverse(p, n), Transpose(h), WeightedTranspose(h, r, m, n), MatMul(p, Transpose(h));
    var hph := MatMul(MatMul(h, p), ht);
    InverseProperties(p, n);
    InverseProperties(r, m);
    MulAddLeft(pi, MatMul(w, h), a);
    assert MatMul(pi, a) == ht by {
      MulAssoc(pi, p, ht);
      MulIdentity(ht, n, m);
    }
    assert MatMul(MatMul(w, h), a) == MatMul(w, hph) by {
      MulAssoc(w, h, a);
      MulAssoc(h, p, ht);
    }
    MulAddRight(w, hph, r);
    assert MatMul(w, r) == ht by {
      MulAssoc(ht, Inverse(r, m), r);
      MulIdentity(ht, n, m);
    }
    AddCommutes(ht, MatMul(w, hph));
  }

  lemma AddCommutes(a: Mat, b: Mat)
    requires Rect(a) && IsMat(b, |a|, Cols(a))
    ensures MAdd(a, b) == MAdd(b, a)
  {
    forall i | 0 <= i < |a| ensures MAdd(a, b)[i] == MAdd(b, a)[i] {
    }
  }

  /** (P^-1 + H^T R^-1 H)^-1 H^T R^-1 == P H^T (H P H^T + R)^-1 */
  lemma GainForms(p: Mat, h: Mat, r: Mat, m: nat, n: nat)
    requires Definite(p, n) && IsMat(h, m, n) && Definite(r, m)
    ensures SemiDefinite(p, n)
    ensures Definite(MAdd(Inverse(p, n), Information(h, r, m, n)), n)
    ensures MatMul(MatMul(Inverse(MAdd(Inverse(p, n), Information(h, r, m, n)), n), Transpose(h)), Inverse(r, m))
         == Gain(p, h, r, m, n)
  {
    DefiniteIsSemiDefinite(p, n);
    PosteriorInformationDefinite(p, h, r, m, n);
    InnovationDefinite(p, h, r, m, n);
    var j, s, w := MAdd(Inverse(p, n), Information(h, r, m, n)), InnovationCovariance(p, h, r, m, n),
      WeightedTranspose(h, r, m, n);
    var a, ji, si := MatMul(p, Transpose(h)), Inverse(j, n), Inverse(s, m);
    MulAssoc(ji, Transpose(h), Inverse(r, m));
    PushThrough(p, h, r, m, n);
    CrossInverse(j, a, w, s, n, m);
  }

  /** From j * a == w * s follows a * s^-1 == j^-1 * w. */
  lemma CrossInverse(j: Mat, a: Mat, w: Mat, s: Mat, n: nat, m: nat)
    requires Definite(j, n) && Definite(s, m) && IsMat(a, n, m) && IsMat(w, n, m)
    requires MatMul(j, a) == MatMul(w, s)
    ensures MatMul(a, Inverse(s, m)) == MatMul(Inverse(j, n), w)
  {
    var ji, si := Inverse(j, n), Inverse(s, m);
    InverseProperties(j, n);
    MulIdentity(a, n, m);
    MulAssoc(ji, j, a);
    assert a == MatMul(ji, MatMul(w, s));
    MulAssoc(ji, MatMul(w, s), si);
    MulAssoc(w, s, si);
    MulIdentity(w, n, m);
  }

  /** (P^-1 + H^T R^-1 H)^-1 == (I - K H) P, and it is positive definite. */
  lemma CovarianceForms(p: Mat, h: Mat, r: Mat, m: nat, n: nat)
    requires Definite(p, n) && IsMat(h, m, n) && Definite(r, m)
    ensures SemiDefinite(p, n)
    ensures Definite(MAdd(Inverse(p, n), Information(h, r, m, n)), n)
    ensures Inverse(MAdd(Inverse(p, n), Information(h, r, m, n)), n) == UpdatedCovariance(p, h, r, m, n)
    ensures Definite(UpdatedCovariance(p, h, r, m, n), n)
  {
    GainForms(p, h, r, m, n);
    var pi, f := Inverse(p, n), Information(h, r, m, n);
    var j := MAdd(pi, f);
    var ji, k := Inverse(j, n), Gain(p, h, r, m, n);
    InverseProperties(j, n);
    InverseProperties(p, n);
    MulAddLeft(Identity(n), MatMul(k, h), p);
    MulIdentity(p, n, n);
    // k h p == ji f p, and j p == I + f p, so j^-1 = p - k h p
    MulAssoc(ji, Transpose(h), Inverse(r, m));
    MulAssoc(ji, WeightedTranspose(h, r, m, n), h);
    MulAssoc(ji, f, p);
    MulAddLeft(pi, f, p);
    assert MatMul(j, p) == MAdd(Identity(n), MatMul(f, p));
    MulAssoc(ji, j, p);
    MulAddRight(ji, Identity(n), MatMul(f, p));
    MulIdentity(ji, n, n);
    assert p == MAdd(ji, MatMul(ji, MatMul(f, p)));
    AddThenSubtract(ji, MatMul(ji, MatMul(f, p)));
  }

  lemma AddThenSubtract(a: Mat, b: Mat)
    requires Rect(a) && IsMat(b, |a|, Cols(a))
    ensures MSub(MAdd(a, b), b) == a
  {
    forall i | 0 <= i < |a| ensures MSub(MAdd(a, b), b)[i] == a[i] {
    }
  }

  /** v^T S^-1 v, the statistic of an innovation v. */
  function InnovationStatistic(p: Mat, h: Mat, r: Mat, v: Vec, m: nat, n: nat): real
    requires SemiDefinite(p, n) && IsMat(h, m, n) && Definite(r, m) && IsVec(v, m)
  {
    InnovationDefinite(p, h, r, m, n);
    Quad(Inverse(InnovationCovariance(p, h, r, m, n), m), v)
  }

  /** The weighted squares a guess y leaves: its distance from the prior and the misfit of the measurement. */
  function Cost(x: Vec, p: Mat, h: Mat, r: Mat, z: Vec, y: Vec, m: nat, n: nat): real
    requires IsVec(x, n) && IsVec(y, n) && IsVec(z, m)
    requires Definite(p, n) && IsMat(h, m, n) && Definite(r, m)
  {
    Quad(Inverse(p, n), VSub(y, x)) + Quad(Inverse(r, m), VSub(z, MatVec(h, y)))
  }

  lemma QuadOfDifference(a: Mat, x: Vec, y: Vec, n: nat)
    requires IsVec(x, n) && IsVec(y, n) && Symmetric(a, n)
    ensures Quad(a, VSub(x, y)) == Quad(a, x) - 2.0 * Dot(x, MatVec(a, y)) + Quad(a, y)
  {
    SelfAdjoint(a, y, x);
    DotSymmetric(MatVec(a, y), x);
    MatVecLinear(a, x, y);
    DotSub(x, y, VSub(MatVec(a, x), MatVec(a, y)));
    DotSub(MatVec(a, x), MatVec(a, y), x);
    DotSub(MatVec(a, x), MatVec(a, y), y);
  }

  /** J K v == H^T R^-1 v: the step of the update solves the normal equations. */
  lemma NormalEquations(p: Mat, h: Mat, r: Mat, v: Vec, m: nat, n: nat)
    requires Definite(p, n) && IsMat(h, m, n) && Definite(r, m) && IsVec(v, m)
    ensures SemiDefinite(p, n)
    ensures MatVec(MAdd(Inverse(p, n), Information(h, r, m, n)), MatVec(Gain(p, h, r, m, n), v))
         == MatVec(Transpose(h), MatVec(Inverse(r, m), v))
  {
    DefiniteIsSemiDefinite(p, n);
    InnovationDefinite(p, h, r, m, n);
    var j, s, w := MAdd(Inverse(p, n), Information(h, r, m, n)), InnovationCovariance(p, h, r, m, n),
      WeightedTranspose(h, r, m, n);
    var a, u := MatMul(p, Transpose(h)), MatVec(Inverse(s, m), v);
    PushThrough(p, h, r, m, n);
    MulActs(a, Inverse(s, m), v);
    MulActs(j, a, u);
    MulActs(w, s, u);
    MulActs(s, Inverse(s, m), v);
    IdentityActs(v);
    MulActs(Transpose(h), Inverse(r, m), v);
  }

  /** What the measurement's own weight of v loses to the update is the innovation statistic. */
  lemma StatisticSplits(p: Mat, h: Mat, r: Mat, v: Vec, m: nat, n: nat)
    requires Definite(p, n) && IsMat(h, m, n) && Definite(r, m) && IsVec(v, m)
    ensures SemiDefinite(p, n)
    ensures Quad(Inverse(r, m), v)
         == InnovationStatistic(p, h, r, v, m, n)
          + Dot(MatVec(Gain(p, h, r, m, n), v), MatVec(Transpose(h), MatVec(Inverse(r, m), v)))
  {
    DefiniteIsSemiDefinite(p, n);
    InnovationDefinite(p, h, r, m, n);
    var s := InnovationCovariance(p, h, r, m, n);
    var a, u, g := MatMul(p, Transpose(h)), MatVec(Inverse(s, m), v), MatVec(Inverse(r, m), v);
    var step := MatVec(Gain(p, h, r, m, n), v);
    MulActs(a, Inverse(s, m), v);
    assert step == MatVec(a, u);
    Adjoint(h, g, step);
    DotSymmetric(MatVec(Transpose(h), g), step);
    DotSymmetric(g, MatVec(h, step));
    assert Dot(step, MatVec(Transpose(h), g)) == Dot(MatVec(h, step), g);
    assert v == VAdd(MatVec(h, step), MatVec(r, u)) by {
      MulActs(s, Inverse(s, m), v);
      IdentityActs(v);
      AddActs(MatMul(MatMul(h, p), Transpose(h)), r, u);
      MulAssoc(h, p, Transpose(h));
      MulActs(h, a, u);
    }
    DotAdd(MatVec(h, step), MatVec(r, u), g);
    SelfAdjoint(r, u, g);
    MulActs(r, Inverse(r, m), v);
    IdentityActs(v);
    DotSymmetric(u, v);
  }

  /** The misfit of a guess d away, expanded. */
  lemma MisfitExpands(h: Mat, r: Mat, v: Vec, d: Vec, m: nat, n: nat)
    requires IsMat(h, m, n) && Definite(r, m) && IsVec(v, m) && IsVec(d, n)
    ensures Quad(Inverse(r, m), VSub(v, MatVec(h, d)))
         == Quad(Inverse(r, m), v) - 2.0 * Dot(d, MatVec(Transpose(h), MatVec(Inverse(r, m), v)))
          + Quad(Information(h, r, m, n), d)
  {
    InverseProperties(r, m);
    var ri, hd := Inverse(r, m), MatVec(h, d);
    var g := MatVec(ri, v);
    QuadOfDifference(ri, v, hd, m);
    SelfAdjoint(ri, v, hd);
    Adjoint(h, g, d);
    DotSymmetric(MatVec(Transpose(h), g), d);
    TransposeTwice(h, m, n);
    QuadCongruence(Transpose(h), ri, d);
  }

  /** Completing the square around the solution of j * step == w. */
  lemma CompleteSquare(j: Mat, d: Vec, step: Vec, w: Vec, n: nat)
    requires Symmetric(j, n) && IsVec(d, n) && IsVec(step, n) && IsVec(w, n) && MatVec(j, step) == w
    ensures Quad(j, VSub(d, step)) == Quad(j, d) - 2.0 * Dot(d, w) + Dot(step, w)
  {
    QuadOfDifference(j, d, step, n);
  }

  /** Both residuals of a guess y in terms of its distance from the prior. */
  lemma Residuals(x: Vec, p: Mat, h: Mat, r: Mat, z: Vec, y: Vec, m: nat, n: nat)
    requires IsVec(x, n) && IsVec(y, n) && IsVec(z, m)
    requires SemiDefinite(p, n) && IsMat(h, m, n) && Definite(r, m)
    ensures VSub(z, MatVec(h, y)) == VSub(VSub(z, MatVec(h, x)), MatVec(h, VSub(y, x)))
    ensures VSub(y, UpdatedState(x, p, h, r, z, m, n))
         == VSub(VSub(y, x), MatVec(Gain(p, h, r, m, n), VSub(z, MatVec(h, x))))
  {
    hide MatVec, Gain, Definite, SemiDefinite;
    MatVecLinear(h, y, x);
  }

  /**
   The update is weighted least squares: the cost of any guess exceeds the innovation statistic
   by the square of its distance from the updated state, weighted by the updated covariance.
   */
  lemma LeastSquares(x: Vec, p: Mat, h: Mat, r: Mat, z: Vec, y: Vec, m: nat, n: nat)
    requires IsVec(x, n) && IsVec(y, n) && IsVec(z, m)
    requires Definite(p, n) && IsMat(h, m, n) && Definite(r, m)
    ensures SemiDefinite(p, n) && Definite(UpdatedCovariance(p, h, r, m, n), n)
    ensures Cost(x, p, h, r, z, y, m, n)
         == InnovationStatistic(p, h, r, VSub(z, MatVec(h, x)), m, n)
          + Quad(Inverse(UpdatedCovariance(p, h, r, m, n), n), VSub(y, UpdatedState(x, p, h, r, z, m, n)))
  {
    hide Definite, SemiDefinite, Inverse, Information, UpdatedCovariance, UpdatedState, Gain, InnovationStatistic,
         MatVec, MatMul, MAdd, Transpose, Dot, Quad, VSub;
    CovarianceForms(p, h, r, m, n);
    var j := MAdd(Inverse(p, n), Information(h, r, m, n));
    InverseTwice(j, n);
    DefiniteShape(p, n);
    DefiniteSymmetric(j, n);
    var v, d := VSub(z, MatVec(h, x)), VSub(y, x);
    var step := MatVec(Gain(p, h, r, m, n), v);
    Residuals(x, p, h, r, z, y, m, n);
    MisfitExpands(h, r, v, d, m, n);
    NormalEquations(p, h, r, v, m, n);
    StatisticSplits(p, h, r, v, m, n);
    CompleteSquare(j, d, step, MatVec(Transpose(h), MatVec(Inverse(r, m), v)), n);
    QuadAdd(Inverse(p, n), Information(h, r, m, n), d);
  }

  lemma DefiniteSymmetric(a: Mat, n: nat)
    requires Definite(a, n)
    ensures Symmetric(a, n)
  {
  }

  /** The square of a vector under a positive definite matrix. */
  lemma DefiniteQuad(a: Mat, x: Vec, n: nat)
    requires Definite(a, n) && IsVec(x, n)
    ensures IsMat(a, n, n) && Quad(a, x) >= 0.0
    ensures Quad(a, x) == 0.0 <==> x == Zeros(n)
  {
    QuadOfZero(a, n);
  }

  lemma ZeroDifference(x: Vec, y: Vec, n: nat)
    requires IsVec(x, n) && IsVec(y, n)
    ensures VSub(x, y) == Zeros(n) <==> x == y
  {
    if VSub(x, y) == Zeros(n) {
      forall i | 0 <= i < n ensures x[i] == y[i] {
        assert VSub(x, y)[i] == 0.0;
      }
    }
  }

  /** The updated state is the only guess of least cost, and the innovation statistic is that cost. */
  lemma UpdateIsOptimal(x: Vec, p: Mat, h: Mat, r: Mat, z: Vec, y: Vec, m: nat, n: nat)
    requires IsVec(x, n) && IsVec(y, n) && IsVec(z, m)
    requires Definite(p, n) && IsMat(h, m, n) && Definite(r, m)
    ensures SemiDefinite(p, n)
    ensures var least := InnovationStatistic(p, h, r, VSub(z, MatVec(h, x)), m, n);
      && Cost(x, p, h, r, z, y, m, n) >= least >= 0.0
      && (Cost(x, p, h, r, z, y, m, n) == least <==> y == UpdatedState(x, p, h, r, z, m, n))
  {
    hide Definite, SemiDefinite, Inverse, UpdatedCovariance, UpdatedState, Cost, InnovationCovariance, MatVec, Quad, VSub;
    LeastSquares(x, p, h, r, z, y, m, n);
    DefiniteShape(p, n);
    DefiniteShape(r, m);
    var q, s := UpdatedCovariance(p, h, r, m, n), InnovationCovariance(p, h, r, m, n);
    InverseProperties(q, n);
    InnovationDefinite(p, h, r, m, n);
    InverseProperties(s, m);
    DefiniteQuad(Inverse(s, m), VSub(z, MatVec(h, x)), m);
    DefiniteQuad(Inverse(q, n), VSub(y, UpdatedState(x, p, h, r, z, m, n)), n);
    ZeroDifference(y, UpdatedState(x, p, h, r, z, m, n), n);
  }

  /** What is left of an innovation after the update is R S^-1 times it. */
  lemma ResidualIs(x: Vec, p: Mat, h: Mat, r: Mat, z: Vec, u: Vec, m: nat, n: nat)
    requires IsVec(x, n) && IsVec(z, m) && SemiDefinite(p, n) && IsMat(h, m, n) && Definite(r, m)
    requires Definite(InnovationCovariance(p, h, r, m, n), m)
    requires u == MatVec(Inverse(InnovationCovariance(p, h, r, m, n), m), VSub(z, MatVec(h, x)))
    ensures VSub(z, MatVec(h, UpdatedState(x, p, h, r, z, m, n))) == MatVec(r, u)
    ensures VSub(z, MatVec(h, x)) == VAdd(MatVec(MatMul(MatMul(h, p), Transpose(h)), u), MatVec(r, u))
  {
    var s, v := InnovationCovariance(p, h, r, m, n), VSub(z, MatVec(h, x));
    var a, hph := MatMul(p, Transpose(h)), MatMul(MatMul(h, p), Transpose(h));
    MulActs(s, Inverse(s, m), v);
    IdentityActs(v);
    AddActs(hph, r, u);
    MulActs(a, Inverse(s, m), v);
    MulAssoc(h, p, Transpose(h));
    MulActs(h, a, u);
    var step := MatVec(Gain(p, h, r, m, n), v);
    assert step == MatVec(a, u);
    MatVecLinear(h, x, step);
    hide MatVec, MatMul, Transpose, Inverse, Gain, Definite, SemiDefinite, InnovationCovariance;
    LessTheStep(z, MatVec(h, x), MatVec(h, step), MatVec(r, u));
  }

  lemma LessTheStep(z: Vec, hx: Vec, d: Vec, left: Vec)
    requires |z| == |hx| == |d| == |left| && VSub(z, hx) == VAdd(d, left)
    ensures VSub(z, VAdd(hx, d)) == left
  {
    forall i | 0 <= i < |z| ensures VSub(z, VAdd(hx, d))[i] == left[i] {
      assert VSub(z, hx)[i] == VAdd(d, left)[i];
    }
  }

  /** An update never leaves the measured quantity farther from the measurement than it was, in the measure of the noise. */
  lemma ResidualShrinks(x: Vec, p: Mat, h: Mat, r: Mat, z: Vec, m: nat, n: nat)
    requires IsVec(x, n) && IsVec(z, m) && SemiDefinite(p, n) && IsMat(h, m, n) && Definite(r, m)
    ensures IsMat(Inverse(r, m), m, m)
    ensures Quad(Inverse(r, m), VSub(z, MatVec(h, UpdatedState(x, p, h, r, z, m, n))))
         <= InnovationStatistic(p, h, r, VSub(z, MatVec(h, x)), m, n)
         <= Quad(Inverse(r, m), VSub(z, MatVec(h, x)))
  {
    InnovationDefinite(p, h, r, m, n);
    CongruenceSemiDefinite(h, p, m, n);
    InverseProperties(r, m);
    var s, v, hph, ri := InnovationCovariance(p, h, r, m, n), VSub(z, MatVec(h, x)),
      MatMul(MatMul(h, p), Transpose(h)), Inverse(r, m);
    var u := MatVec(Inverse(s, m), v);
    ResidualIs(x, p, h, r, z, u, m, n);
    DefiniteSymmetric(r, m);
    DefiniteSymmetric(ri, m);
    DefiniteIsSemiDefinite(ri, m);
    var a, b := MatVec(hph, u), MatVec(r, u);
    MulActs(ri, r, u);
    IdentityActs(u);
    assert MatVec(ri, b) == u;
    assert Quad(ri, a) >= 0.0 && Quad(hph, u) >= 0.0;
    hide Definite, SemiDefinite, MatVec, MatMul, Transpose, Inverse, VSub, VAdd;
    DotSymmetric(b, u);
    QuadOfSum(ri, a, b);
    DotSymmetric(a, u);
    DotAdd(a, b, u);
    DotSymmetric(v, u);
  }

  /**
   Two sensors fused at once.  With j = P^-1 + G + F the joint information, the joint state
   x + j^-1 (g u + f v) is what the classical update by the first sensor followed by the
   classical update by the second gives, and j^-1 is the covariance it gives.
   */
  lemma JointIsSequential(x: Vec, p: Mat, h1: Mat, r1: Mat, z1: Vec, h2: Mat, r2: Mat, z2: Vec, m: nat, n: nat)
    requires IsVec(x, n) && IsVec(z1, m) && IsVec(z2, m) && Definite(p, n)
    requires IsMat(h1, m, n) && Definite(r1, m) && IsMat(h2, m, n) && Definite(r2, m)
    ensures SemiDefinite(p, n)
    ensures Definite(UpdatedCovariance(p, h1, r1, m, n), n)
    ensures SemiDefinite(UpdatedCovariance(p, h1, r1, m, n), n)
    ensures var j := MAdd(MAdd(Inverse(p, n), Information(h1, r1, m, n)), Information(h2, r2, m, n));
      && Definite(j, n)
      && Inverse(j, n) == UpdatedCovariance(UpdatedCovariance(p, h1, r1, m, n), h2, r2, m, n)
      && VAdd(VAdd(x, MatVec(MatMul(MatMul(Inverse(j, n), Transpose(h1)), Inverse(r1, m)), VSub(z1, MatVec(h1, x)))),
              MatVec(MatMul(MatMul(Inverse(j, n), Transpose(h2)), Inverse(r2, m)), VSub(z2, MatVec(h2, x))))
         == UpdatedState(UpdatedState(x, p, h1, r1, z1, m, n), UpdatedCovariance(p, h1, r1, m, n), h2, r2, z2, m, n)
  {
    var j1 := MAdd(Inverse(p, n), Information(h1, r1, m, n));
    CovarianceForms(p, h1, r1, m, n);
    var p1 := UpdatedCovariance(p, h1, r1, m, n);
    InverseTwice(j1, n);
    assert Inverse(p1, n) == j1;
    CovarianceForms(p1, h2, r2, m, n);
    GainForms(p, h1, r1, m, n);
    GainForms(p1, h2, r2, m, n);
    var j := MAdd(j1, Information(h2, r2, m, n));
    SequentialState(x, j1, j, h1, r1, h2, r2, VSub(z1, MatVec(h1, x)), z2, m, n);
  }

  /** Fusing two sensors does not depend on which of them comes first. */
  lemma FusionOrderIrrelevant(x: Vec, p: Mat, h1: Mat, r1: Mat, z1: Vec, h2: Mat, r2: Mat, z2: Vec, m: nat, n: nat)
    requires IsVec(x, n) && IsVec(z1, m) && IsVec(z2, m) && Definite(p, n)
    requires IsMat(h1, m, n) && Definite(r1, m) && IsMat(h2, m, n) && Definite(r2, m)
    ensures SemiDefinite(p, n)
    ensures SemiDefinite(UpdatedCovariance(p, h1, r1, m, n), n) && SemiDefinite(UpdatedCovariance(p, h2, r2, m, n), n)
    ensures UpdatedCovariance(UpdatedCovariance(p, h1, r1, m, n), h2, r2, m, n)
         == UpdatedCovariance(UpdatedCovariance(p, h2, r2, m, n), h1, r1, m, n)
    ensures UpdatedState(UpdatedState(x, p, h1, r1, z1, m, n), UpdatedCovariance(p, h1, r1, m, n), h2, r2, z2, m, n)
         == UpdatedState(UpdatedState(x, p, h2, r2, z2, m, n), UpdatedCovariance(p, h2, r2, m, n), h1, r1, z1, m, n)
  {
    JointIsSequential(x, p, h1, r1, z1, h2, r2, z2, m, n);
    JointIsSequential(x, p, h2, r2, z2, h1, r1, z1, m, n);
    var pi, f1, f2 := Inverse(p, n), Information(h1, r1, m, n), Information(h2, r2, m, n);
    AddReordered(pi, f1, f2);
    var j := MAdd(MAdd(pi, f1), f2);
    VAddReordered(x, MatVec(MatMul(MatMul(Inverse(j, n), Transpose(h1)), Inverse(r1, m)), VSub(z1, MatVec(h1, x))),
                  MatVec(MatMul(MatMul(Inverse(j, n), Transpose(h2)), Inverse(r2, m)), VSub(z2, MatVec(h2, x))));
  }

  lemma AddReordered(a: Mat, b: Mat, c: Mat)
    requires Rect(a) && IsMat(b, |a|, Cols(a)) && IsMat(c, |a|, Cols(a))
    ensures MAdd(MAdd(a, b), c) == MAdd(MAdd(a, c), b)
  {
    forall i | 0 <= i < |a| ensures MAdd(MAdd(a, b), c)[i] == MAdd(MAdd(a, c), b)[i] {
      VAddReordered(a[i], b[i], c[i]);
    }
  }

  lemma VAddReordered(a: Vec, b: Vec, c: Vec)
    requires |a| == |b| == |c|
    ensures VAdd(VAdd(a, b), c) == VAdd(VAdd(a, c), b)
  {
  }

  /** The state half, with j1 and j = j1 + F the information matrices after each sensor. */
  lemma SequentialState(x: Vec, j1: Mat, j: Mat, h1: Mat, r1: Mat, h2: Mat, r2: Mat, u: Vec, z2: Vec, m: nat, n: nat)
    requires IsVec(x, n) && IsVec(u, m) && IsVec(z2, m) && Definite(j1, n) && Definite(j, n)
    requires IsMat(h1, m, n) && Definite(r1, m) && IsMat(h2, m, n) && Definite(r2, m)
    requires j == MAdd(j1, Information(h2, r2, m, n))
    ensures var g1 := MatMul(MatMul(Inverse(j1, n), Transpose(h1)), Inverse(r1, m));
      var g := MatMul(MatMul(Inverse(j, n), Transpose(h1)), Inverse(r1, m));
      var f := MatMul(MatMul(Inverse(j, n), Transpose(h2)), Inverse(r2, m));
      var x1 := VAdd(x, MatVec(g1, u));
      VAdd(VAdd(x, MatVec(g, u)), MatVec(f, VSub(z2, MatVec(h2, x))))
        == VAdd(x1, MatVec(f, VSub(z2, MatVec(h2, x1))))
  {
    var w1, w2 := WeightedTranspose(h1, r1, m, n), WeightedTranspose(h2, r2, m, n);
    MulAssoc(Inverse(j1, n), Transpose(h1), Inverse(r1, m));
    MulAssoc(Inverse(j, n), Transpose(h1), Inverse(r1, m));
    MulAssoc(Inverse(j, n), Transpose(h2), Inverse(r2, m));
    var d := MatVec(MatMul(Inverse(j1, n), w1), u);
    JointCorrection(j1, j, w1, w2, h2, MatVec(w1, u), n, m);
    MulActs(Inverse(j1, n), w1, u);
    MulActs(Inverse(j, n), w1, u);
    MulActs(Inverse(j, n), w2, MatVec(h2, d));
    SecondCorrection(x, d, MatMul(Inverse(j, n), w2), h2, z2, n, m);
  }

  /** Correcting by f after moving by d is moving by d - f h d and correcting from the start. */
  lemma SecondCorrection(x: Vec, d: Vec, f: Mat, h: Mat, z: Vec, n: nat, m: nat)
    requires IsVec(x, n) && IsVec(d, n) && IsVec(z, m) && IsMat(f, n, m) && IsMat(h, m, n)
    ensures VAdd(VAdd(x, VSub(d, MatVec(f, MatVec(h, d)))), MatVec(f, VSub(z, MatVec(h, x))))
         == VAdd(VAdd(x, d), MatVec(f, VSub(z, MatVec(h, VAdd(x, d)))))
  {
    var a, b := VSub(z, MatVec(h, x)), MatVec(h, d);
    MatVecLinear(h, x, d);
    assert VSub(z, VAdd(MatVec(h, x), b)) == VSub(a, b);
    MatVecLinear(f, a, b);
    Regroup(x, d, MatVec(f, b), MatVec(f, a));
  }

  lemma Regroup(x: Vec, d: Vec, b: Vec, a: Vec)
    requires |x| == |d| == |b| == |a|
    ensures VAdd(VAdd(x, VSub(d, b)), a) == VAdd(VAdd(x, d), VSub(a, b))
  {
  }

  /** j^-1 w == d - j^-1 w2 h2 d where d = j1^-1 w, because j1 = j - w2 h2. */
  lemma JointCorrection(j1: Mat, j: Mat, w1: Mat, w2: Mat, h2: Mat, w: Vec, n: nat, m: nat)
    requires Definite(j1, n) && Definite(j, n) && IsMat(w1, n, m) && IsMat(w2, n, m) && IsMat(h2, m, n) && IsVec(w, n)
    requires j == MAdd(j1, MatMul(w2, h2))
    ensures var d := MatVec(Inverse(j1, n), w);
      MatVec(Inverse(j, n), w) == VSub(d, MatVec(Inverse(j, n), MatVec(w2, MatVec(h2, d))))
  {
    var d := MatVec(Inverse(j1, n), w);
    var e := MatVec(w2, MatVec(h2, d));
    MulActs(j1, Inverse(j1, n), w);
    IdentityActs(w);
    AddActs(j1, MatMul(w2, h2), d);
    MulActs(w2, h2, d);
    UndoInformation(j, d, w, e, n);
  }

  lemma UndoInformation(j: Mat, d: Vec, w: Vec, e: Vec, n: nat)
    requires Definite(j, n) && IsVec(d, n) && IsVec(w, n) && IsVec(e, n)
    requires MatVec(j, d) == VAdd(w, e)
    ensures MatVec(Inverse(j, n), w) == VSub(d, MatVec(Inverse(j, n), e))
  {
    var ji := Inverse(j, n);
    InverseProperties(j, n);
    MulActs(ji, j, d);
    IdentityActs(d);
    MatVecLinear(ji, w, e);
    MoveTerm(d, MatVec(ji, w), MatVec(ji, e));
  }

  lemma MoveTerm(d: Vec, a: Vec, b: Vec)
    requires |d| == |a| == |b| && d == VAdd(a, b)
    ensures a == VSub(d, b)
  {
  }
}
