/**
 What one step of the adaptive GPS/IMU filter is meant to compute, in classical Kalman form:
 predict, update each hypothesis with the gain P H^T (H P H^T + R)^-1, fuse the hypotheses
 by fuzzy weights, and re-estimate a sensor's noise from its window of residuals.  That the
 three covariances stay positive definite through any run is proved here; the class in
 FusionFilter computes the same step in information form.
 */
module FusionModel {
  import opened LinearAlgebra
  import opened PositiveDefinite
  import opened KalmanForms
  import opened MotionModel
  import opened AdaptiveNoise

  const GPS_MASK: Vec := [1.0, 1.0, 0.0, 0.0, 0.0, 0.0]
  const IMU_MASK: Vec := [0.0, 0.0, 0.0, 0.0, 1.0, 1.0]
  const JERK_PSD: real := 0.1

  /** H_GPS observes position, H_IMU observes acceleration. */
  function ObservationGps(): (h: Mat)
    ensures IsMat(h, 6, 6)
  {
    Diagonal(GPS_MASK)
  }

  function ObservationImu(): (h: Mat)
    ensures IsMat(h, 6, 6)
  {
    Diagonal(IMU_MASK)
  }

  // ---------- fuzzy weights ----------

  ghost predicate IsCosine(cos: real -> real) {
    forall t :: -1.0 <= cos(t) <= 1.0
  }

  /** How far a chi-squared statistic counts as valid, falling from 1 to 0 between the bounds. */
  function Membership(cos: real -> real, statistic: real, lower: real, upper: real, isGps: bool): (mu: real)
    requires IsCosine(cos)
    ensures 0.0 <= mu <= 1.0
    ensures statistic <= lower ==> mu == 1.0
    ensures lower < statistic && upper <= statistic ==> mu == 0.0
    ensures isGps && lower < statistic < upper ==> mu >= 0.01
  {
    if statistic <= lower then 1.0
    else if statistic >= upper then 0.0
    else
      var t := (statistic - lower) / (upper - lower);
      var mu := 0.5 * (1.0 + cos(3.1415926535 * t));
      if isGps then Max(mu, 0.01) else mu
  }

  /** The weights of: no sensor valid, only GPS, only IMU, both. */
  datatype Weights = Weights(none: real, gps: real, imu: real, both: real)

  ghost predicate Convex(w: Weights) {
    w.none >= 0.0 && w.gps >= 0.0 && w.imu >= 0.0 && w.both >= 0.0 && w.none + w.gps + w.imu + w.both == 1.0
  }

  /** Independent memberships give the weight of each combination as a product. */
  ghost function ProductWeights(g: real, i: real): (w: Weights)
    requires 0.0 <= g <= 1.0 && 0.0 <= i <= 1.0
    ensures Convex(w)
    ensures w.gps + w.both == g && w.imu + w.both == i && w.both == g * i
  {
    ProductSign(1.0 - g, 1.0 - i, (1.0 - g) * (1.0 - i));
    ProductSign(g, 1.0 - i, g * (1.0 - i));
    ProductSign(1.0 - g, i, (1.0 - g) * i);
    ProductSign(g, i, g * i);
    Weights((1.0 - g) * (1.0 - i), g * (1.0 - i), (1.0 - g) * i, g * i)
  }

  // ---------- the state of the filter ----------

  datatype Bounds = Bounds(lowerGps: real, upperGps: real, lowerImu: real, upperImu: real)

  datatype Filter = Filter(x: Vec, p: Mat, rGps: Mat, rImu: Mat, q: Mat, gps: Window, imu: Window, bounds: Bounds)

  ghost predicate WindowOf(w: Window, mask: Vec) {
    |w.queue| <= w.n && AllMasked(w.queue, mask)
  }

  /** The three covariances are positive definite and the residuals seen so far are masked. */
  ghost predicate Sound(f: Filter) {
    && IsVec(f.x, 6)
    && Definite(f.p, 6)
    && Definite(f.rGps, 6)
    && Definite(f.rImu, 6)
    && SemiDefinite(f.q, 6)
    && WindowOf(f.gps, GPS_MASK)
    && WindowOf(f.imu, IMU_MASK)
  }

  /** A state estimate with its covariance. */
  datatype Estimate = Estimate(x: Vec, p: Mat)

  ghost predicate Proper(e: Estimate) {
    IsVec(e.x, 6) && Definite(e.p, 6)
  }

  // ---------- the reference step ----------

  /** x = F x, P = F P F^T + Q */
  ghost function Predicted(f: Filter, dt: real): (e: Estimate)
    requires Sound(f)
    ensures Proper(e)
  {
    PredictionDefinite(f.p, f.q, dt);
    Estimate(MatVec(BuildFk(dt), f.x), MAdd(MatMul(MatMul(BuildFk(dt), f.p), Transpose(BuildFk(dt))), f.q))
  }

  /** The classical measurement update of an estimate. */
  ghost function Updated(e: Estimate, h: Mat, r: Mat, z: Vec): (u: Estimate)
    requires Proper(e) && IsMat(h, 6, 6) && Definite(r, 6) && IsVec(z, 6)
    ensures Proper(u)
  {
    CovarianceForms(e.p, h, r, 6, 6);
    Estimate(UpdatedState(e.x, e.p, h, r, z, 6, 6), UpdatedCovariance(e.p, h, r, 6, 6))
  }

  /** The normalised innovation squared, v^T S^-1 v. */
  ghost function Nis(e: Estimate, h: Mat, r: Mat, z: Vec): real
    requires Proper(e) && IsMat(h, 6, 6) && Definite(r, 6) && IsVec(z, 6)
  {
    DefiniteIsSemiDefinite(e.p, 6);
    InnovationStatistic(e.p, h, r, VSub(z, MatVec(h, e.x)), 6, 6)
  }

  /** The covariance of a hypothesis around the fused state x. */
  ghost function Around(x: Vec, e: Estimate): (m: Mat)
    requires IsVec(x, 6) && IsVec(e.x, 6) && IsMat(e.p, 6, 6)
    ensures IsMat(m, 6, 6)
  {
    MAdd(e.p, Outer(VSub(x, e.x), VSub(x, e.x)))
  }

  /** The fused estimate of a step without GPS. */
  ghost function FusedImu(f: Filter, cos: real -> real, dt: real, z: Vec): (e: Estimate)
    requires Sound(f) && IsCosine(cos) && IsVec(z, 6)
    ensures IsVec(e.x, 6) && IsMat(e.p, 6, 6)
  {
    var prior := Predicted(f, dt);
    var imu := Updated(prior, ObservationImu(), f.rImu, z);
    var mu := Membership(cos, Nis(prior, ObservationImu(), f.rImu, z), f.bounds.lowerImu, f.bounds.upperImu, false);
    var x := VAdd(VScale(1.0 - mu, prior.x), VScale(mu, imu.x));
    Estimate(x, MAdd(MScale(1.0 - mu, prior.p), MScale(mu, Around(x, imu))))
  }

  /** The fused estimate of a step with GPS; both sensors are applied one after the other. */
  ghost function FusedGps(f: Filter, cos: real -> real, dt: real, zGps: Vec, zImu: Vec): (e: Estimate)
    requires Sound(f) && IsCosine(cos) && IsVec(zGps, 6) && IsVec(zImu, 6)
    ensures IsVec(e.x, 6) && IsMat(e.p, 6, 6)
  {
    var prior := Predicted(f, dt);
    var gps := Updated(prior, ObservationGps(), f.rGps, zGps);
    var imu := Updated(prior, ObservationImu(), f.rImu, zImu);
    var both := Updated(gps, ObservationImu(), f.rImu, zImu);
    var g := Membership(cos, Nis(prior, ObservationGps(), f.rGps, zGps), f.bounds.lowerGps, f.bounds.upperGps, true);
    var i := Membership(cos, Nis(prior, ObservationImu(), f.rImu, zImu), f.bounds.lowerImu, f.bounds.upperImu, false);
    Mixed(prior, gps, imu, both, ProductWeights(g, i))
  }

  /** The moments of the mixture; the prediction enters without a spread term. */
  ghost function Mixed(prior: Estimate, gps: Estimate, imu: Estimate, both: Estimate, w: Weights): (e: Estimate)
    requires Proper(prior) && Proper(gps) && Proper(imu) && Proper(both)
    ensures IsVec(e.x, 6) && IsMat(e.p, 6, 6)
  {
    var x := VAdd(VAdd(VAdd(VScale(w.none, prior.x), VScale(w.gps, gps.x)), VScale(w.imu, imu.x)), VScale(w.both, both.x));
    Estimate(x, MAdd(MAdd(MAdd(MScale(w.none, prior.p), MScale(w.gps, Around(x, gps))), MScale(w.imu, Around(x, imu))),
                     MScale(w.both, Around(x, both))))
  }

  /** The IMU measurement as the filter uses it: its velocity entries are cleared. */
  function ClearedVelocity(z: Vec): (r: Vec)
    requires |z| == 6
    ensures |r| == 6 && r[2] == 0.0 && r[3] == 0.0
    ensures forall k :: 0 <= k < 6 && k != 2 && k != 3 ==> r[k] == z[k]
  {
    z[2 := 0.0][3 := 0.0]
  }

  /** The noise matrix after a residual is pushed, given the window before. */
  ghost function GpsNoiseAfter(r: Mat, w: Window, residual: Vec, p: Mat): (m: Mat)
    requires IsMat(r, 6, 6) && IsMat(p, 6, 6) && SixEntries(w.queue) && |residual| == 6
    ensures IsMat(m, 6, 6)
  {
    if Recomputes(w) then
      var raw := RawNoise(Pushed(w, residual).queue, ObservationGps(), p);
      SetDiagonal(raw, GpsDiagonal(raw))
    else r
  }

  ghost function ImuNoiseAfter(r: Mat, w: Window, residual: Vec, p: Mat): (m: Mat)
    requires IsMat(r, 6, 6) && IsMat(p, 6, 6) && SixEntries(w.queue) && |residual| == 6
    ensures IsMat(m, 6, 6)
  {
    if Recomputes(w) then
      var raw := RawNoise(Pushed(w, residual).queue, ObservationImu(), p);
      SetDiagonal(raw, ImuDiagonal(raw))
    else r
  }

  ghost function StepImu(f: Filter, cos: real -> real, dt: real, zImu: Vec): Filter
    requires Sound(f) && IsCosine(cos) && IsVec(zImu, 6)
  {
    var z := ClearedVelocity(zImu);
    var e := FusedImu(f, cos, dt, z);
    var residual := VSub(z, MatVec(ObservationImu(), e.x));
    f.(x := e.x, p := e.p, rImu := ImuNoiseAfter(f.rImu, f.imu, residual, e.p), imu := Pushed(f.imu, residual))
  }

  ghost function StepGps(f: Filter, cos: real -> real, dt: real, zGps: Vec, zImu: Vec): Filter
    requires Sound(f) && IsCosine(cos) && IsVec(zGps, 6) && IsVec(zImu, 6)
  {
    var z := ClearedVelocity(zImu);
    var e := FusedGps(f, cos, dt, zGps, z);
    var residualGps, residualImu := VSub(zGps, MatVec(ObservationGps(), e.x)), VSub(z, MatVec(ObservationImu(), e.x));
    f.(x := e.x, p := e.p,
       rGps := GpsNoiseAfter(f.rGps, f.gps, residualGps, e.p), gps := Pushed(f.gps, residualGps),
       rImu := ImuNoiseAfter(f.rImu, f.imu, residualImu, e.p), imu := Pushed(f.imu, residualImu))
  }

  // ---------- what a step means ----------

  /** Between its bounds membership falls with the statistic when the cosine falls over half a turn. */
  ghost predicate FallsOverHalfTurn(cos: real -> real) {
    forall s, t :: 0.0 <= s < t <= 3.1415926535 ==> cos(t) < cos(s)
  }

  lemma Portion(statistic: real, lower: real, upper: real) returns (t: real)
    requires lower < statistic < upper
    ensures t == (statistic - lower) / (upper - lower) && 0.0 < t < 1.0
    ensures t * (upper - lower) == statistic - lower
  {
    var d := upper - lower;
    t := (statistic - lower) / d;
    assert t * d == statistic - lower;
    if t <= 0.0 {
      ProductSign(-t, d, -t * d);
    } else if t >= 1.0 {
      ProductSign(t - 1.0, d, (t - 1.0) * d);
    }
  }

  /** A share t of the way between the bounds, twice the membership less one is the cosine of that share of half a turn. */
  lemma MembershipBetween(cos: real -> real, t: real, lower: real, upper: real, statistic: real)
    requires IsCosine(cos) && lower < upper && 0.0 < t < 1.0 && statistic == lower + t * (upper - lower)
    ensures 2.0 * Membership(cos, statistic, lower, upper, false) - 1.0 == cos(3.1415926535 * t)
    ensures Membership(cos, statistic, lower, upper, true) == Max(Membership(cos, statistic, lower, upper, false), 0.01)
  {
    var d := upper - lower;
    ProductSign(t, d, t * d);
    ProductSign(1.0 - t, d, (1.0 - t) * d);
    var s := Portion(statistic, lower, upper);
    assert (s - t) * d == 0.0;
    assert s == t;
  }

  lemma MembershipFalls(cos: real -> real, a: real, b: real, lower: real, upper: real, isGps: bool)
    requires IsCosine(cos) && FallsOverHalfTurn(cos) && a <= b
    ensures Membership(cos, b, lower, upper, isGps) <= Membership(cos, a, lower, upper, isGps)
    ensures lower < a < b < upper && !isGps ==>
      Membership(cos, b, lower, upper, isGps) < Membership(cos, a, lower, upper, isGps)
  {
    if lower < a < b < upper {
      var s := Portion(a, lower, upper);
      var t := Portion(b, lower, upper);
      ProductSign(upper - lower, s - t, (upper - lower) * (s - t));
      assert s < t;
      assert cos(3.1415926535 * t) < cos(3.1415926535 * s);
    }
  }

  /** With a cosine that is odd about the quarter turn, statistics mirrored between the bounds have complementary memberships. */
  lemma MembershipMirrored(cos: real -> real, d: real, lower: real, upper: real)
    requires IsCosine(cos) && 0.0 < d < upper - lower
    requires forall t :: cos(3.1415926535 - t) == -cos(t)
    ensures Membership(cos, lower + d, lower, upper, false) + Membership(cos, upper - d, lower, upper, false) == 1.0
  {
    var s := Portion(lower + d, lower, upper);
    var t := Portion(upper - d, lower, upper);
    var w := upper - lower;
    assert (s + t - 1.0) * w == 0.0;
    assert s + t == 1.0;
    assert cos(3.1415926535 - 3.1415926535 * s) == -cos(3.1415926535 * s);
    assert 3.1415926535 - 3.1415926535 * s == 3.1415926535 * t;
  }

  /** Of each axis, the velocity moves by the acceleration and the position by the mean of the old and the new velocity. */
  lemma PredictedMoves(f: Filter, dt: real, s: nat)
    requires Sound(f) && s < 2
    ensures var x, y := f.x, Predicted(f, dt).x;
      && y[4 + s] == x[4 + s]
      && y[2 + s] == x[2 + s] + dt * x[4 + s]
      && y[s] == x[s] + dt * ((x[2 + s] + y[2 + s]) / 2.0)
  {
    TransitionMoves(dt, f.x, s);
  }

  /** Predicting over a and then over b is predicting over both at once. */
  lemma PredictionsCompose(f: Filter, g: Filter, a: real, b: real)
    requires Sound(f) && Sound(g) && g.x == Predicted(f, a).x
    ensures Predicted(g, b).x == Predicted(f, a + b).x
  {
    TransitionsCompose(b, a);
    MulActs(BuildFk(b), BuildFk(a), f.x);
  }

  /** The predicted variance of any combination u of the entries is that of u after the motion, and the process noise. */
  lemma PredictedSpread(f: Filter, dt: real, u: Vec)
    requires Sound(f) && IsVec(u, 6)
    ensures Quad(Predicted(f, dt).p, u) == Quad(f.p, MatVec(Transpose(BuildFk(dt)), u)) + Quad(f.q, u)
  {
    DefiniteShape(f.p, 6);
    hide Definite, BuildFk, MatVec, MatMul, Quad;
    QuadCongruence(BuildFk(dt), f.p, u);
    QuadAdd(MatMul(MatMul(BuildFk(dt), f.p), Transpose(BuildFk(dt))), f.q, u);
  }

  lemma NothingOf(x: Vec)
    ensures VScale(0.0, x) == Zeros(|x|) && VScale(1.0, x) == x
    ensures VAdd(Zeros(|x|), x) == x && VAdd(x, Zeros(|x|)) == x
  {
  }

  lemma NothingOfMatrix(a: Mat)
    requires IsMat(a, 6, 6)
    ensures MScale(0.0, a) == ZeroMatrix() && MScale(1.0, a) == a
    ensures MAdd(ZeroMatrix(), a) == a && MAdd(a, ZeroMatrix()) == a
  {
    forall i | 0 <= i < 6
      ensures MScale(0.0, a)[i] == Zeros(6) && MScale(1.0, a)[i] == a[i]
      ensures MAdd(ZeroMatrix(), a)[i] == a[i] && MAdd(a, ZeroMatrix())[i] == a[i]
    {
      NothingOf(a[i]);
    }
  }

  /** Around its own state an estimate has its own covariance. */
  lemma AroundItself(e: Estimate)
    requires Proper(e)
    ensures Around(e.x, e) == e.p
  {
    var d := VSub(e.x, e.x);
    assert d == Zeros(6);
    forall i | 0 <= i < 6 ensures Outer(d, d)[i] == Zeros(6) {
      NothingOf(d);
    }
    assert Outer(d, d) == ZeroMatrix();
    NothingOfMatrix(e.p);
  }

  lemma OneOfFour(a: Vec, b: Vec, c: Vec, d: Vec)
    requires |a| == |b| == |c| == |d|
    ensures VAdd(VAdd(VAdd(VScale(1.0, a), VScale(0.0, b)), VScale(0.0, c)), VScale(0.0, d)) == a
    ensures VAdd(VAdd(VAdd(VScale(0.0, a), VScale(1.0, b)), VScale(0.0, c)), VScale(0.0, d)) == b
    ensures VAdd(VAdd(VAdd(VScale(0.0, a), VScale(0.0, b)), VScale(1.0, c)), VScale(0.0, d)) == c
    ensures VAdd(VAdd(VAdd(VScale(0.0, a), VScale(0.0, b)), VScale(0.0, c)), VScale(1.0, d)) == d
  {
    NothingOf(a);
    NothingOf(b);
    NothingOf(c);
    NothingOf(d);
    NothingOf(Zeros(|a|));
    hide VAdd, VScale;
  }

  lemma OneOfFourMatrices(a: Mat, b: Mat, c: Mat, d: Mat)
    requires IsMat(a, 6, 6) && IsMat(b, 6, 6) && IsMat(c, 6, 6) && IsMat(d, 6, 6)
    ensures MAdd(MAdd(MAdd(MScale(1.0, a), MScale(0.0, b)), MScale(0.0, c)), MScale(0.0, d)) == a
    ensures MAdd(MAdd(MAdd(MScale(0.0, a), MScale(1.0, b)), MScale(0.0, c)), MScale(0.0, d)) == b
    ensures MAdd(MAdd(MAdd(MScale(0.0, a), MScale(0.0, b)), MScale(1.0, c)), MScale(0.0, d)) == c
    ensures MAdd(MAdd(MAdd(MScale(0.0, a), MScale(0.0, b)), MScale(0.0, c)), MScale(1.0, d)) == d
  {
    hide MAdd, MScale, ZeroMatrix;
    NothingOfMatrix(a);
    NothingOfMatrix(b);
    NothingOfMatrix(c);
    NothingOfMatrix(d);
    NothingOfMatrix(ZeroMatrix());
  }

  /** A mixture with all its weight on one hypothesis is that hypothesis. */
  lemma MixtureOfOne(prior: Estimate, gps: Estimate, imu: Estimate, both: Estimate)
    requires Proper(prior) && Proper(gps) && Proper(imu) && Proper(both)
    ensures Mixed(prior, gps, imu, both, Weights(1.0, 0.0, 0.0, 0.0)) == prior
    ensures Mixed(prior, gps, imu, both, Weights(0.0, 1.0, 0.0, 0.0)) == gps
    ensures Mixed(prior, gps, imu, both, Weights(0.0, 0.0, 1.0, 0.0)) == imu
    ensures Mixed(prior, gps, imu, both, Weights(0.0, 0.0, 0.0, 1.0)) == both
  {
    DefiniteShape(prior.p, 6);
    DefiniteShape(gps.p, 6);
    DefiniteShape(imu.p, 6);
    DefiniteShape(both.p, 6);
    hide Definite, VAdd, VScale, MAdd, MScale, Around;
    OneOfFour(prior.x, gps.x, imu.x, both.x);
    OneOfFourMatrices(prior.p, Around(prior.x, gps), Around(prior.x, imu), Around(prior.x, both));
    OneOfFourMatrices(prior.p, Around(gps.x, gps), Around(gps.x, imu), Around(gps.x, both));
    OneOfFourMatrices(prior.p, Around(imu.x, gps), Around(imu.x, imu), Around(imu.x, both));
    OneOfFourMatrices(prior.p, Around(both.x, gps), Around(both.x, imu), Around(both.x, both));
    AroundItself(gps);
    AroundItself(imu);
    AroundItself(both);
  }

  /** The step without GPS is the mixture in which the fix has no weight. */
  lemma ImuStepIsMixture(f: Filter, cos: real -> real, dt: real, z: Vec, any: Estimate)
    requires Sound(f) && IsCosine(cos) && IsVec(z, 6) && Proper(any)
    ensures var prior := Predicted(f, dt);
      var mu := Membership(cos, Nis(prior, ObservationImu(), f.rImu, z), f.bounds.lowerImu, f.bounds.upperImu, false);
      FusedImu(f, cos, dt, z)
        == Mixed(prior, any, Updated(prior, ObservationImu(), f.rImu, z), any, Weights(1.0 - mu, 0.0, mu, 0.0))
  {
    hide Definite, Predicted, Updated, Nis, Membership, VAdd, VScale, MAdd, MScale, Around;
    var prior := Predicted(f, dt);
    var imu := Updated(prior, ObservationImu(), f.rImu, z);
    var mu := Membership(cos, Nis(prior, ObservationImu(), f.rImu, z), f.bounds.lowerImu, f.bounds.upperImu, false);
    DefiniteShape(prior.p, 6);
    DefiniteShape(imu.p, 6);
    DefiniteShape(any.p, 6);
    DroppedTerms(VScale(1.0 - mu, prior.x), VScale(mu, imu.x), any.x);
    var x := FusedImu(f, cos, dt, z).x;
    DroppedMatrices(MScale(1.0 - mu, prior.p), MScale(mu, Around(x, imu)), Around(x, any));
  }

  lemma DroppedTerms(a: Vec, b: Vec, e: Vec)
    requires |a| == |b| == |e|
    ensures VAdd(VAdd(VAdd(a, VScale(0.0, e)), b), VScale(0.0, e)) == VAdd(a, b)
  {
    NothingOf(a);
    NothingOf(e);
    NothingOf(VAdd(a, b));
    hide VAdd, VScale;
  }

  lemma DroppedMatrices(a: Mat, b: Mat, e: Mat)
    requires IsMat(a, 6, 6) && IsMat(b, 6, 6) && IsMat(e, 6, 6)
    ensures MAdd(MAdd(MAdd(a, MScale(0.0, e)), b), MScale(0.0, e)) == MAdd(a, b)
  {
    hide MAdd, MScale, ZeroMatrix;
    NothingOfMatrix(a);
    NothingOfMatrix(e);
    NothingOfMatrix(MAdd(a, b));
  }

  /** A sensor is certain at or below its lower bound, and refuted above it at or above the upper one. */
  predicate Settled(statistic: real, lower: real, upper: real, certain: bool) {
    if certain then statistic <= lower else lower < statistic && upper <= statistic
  }

  lemma SettledMembership(cos: real -> real, statistic: real, lower: real, upper: real, isGps: bool, certain: bool)
    requires IsCosine(cos) && Settled(statistic, lower, upper, certain)
    ensures Membership(cos, statistic, lower, upper, isGps) == if certain then 1.0 else 0.0
  {
  }

  /** The classical update by the sensors chosen, GPS first. */
  ghost function Selected(f: Filter, prior: Estimate, zGps: Vec, z: Vec, gps: bool, imu: bool): (e: Estimate)
    requires Sound(f) && Proper(prior) && IsVec(zGps, 6) && IsVec(z, 6)
    ensures Proper(e)
  {
    var u := if gps then Updated(prior, ObservationGps(), f.rGps, zGps) else prior;
    if imu then Updated(u, ObservationImu(), f.rImu, z) else u
  }

  /** A step without GPS leaves the update by a certain IMU, and the prediction when the IMU is refuted. */
  lemma StepImuSelects(f: Filter, cos: real -> real, dt: real, zImu: Vec, imu: bool)
    requires Sound(f) && IsCosine(cos) && IsVec(zImu, 6)
    requires Settled(Nis(Predicted(f, dt), ObservationImu(), f.rImu, ClearedVelocity(zImu)),
                     f.bounds.lowerImu, f.bounds.upperImu, imu)
    ensures var g := StepImu(f, cos, dt, zImu);
      Estimate(g.x, g.p) == Selected(f, Predicted(f, dt), zImu, ClearedVelocity(zImu), false, imu)
  {
    hide Definite, Predicted, Updated, Nis, FusedImu, Mixed, ClearedVelocity, Pushed, ImuNoiseAfter, Membership, Settled;
    var z, prior := ClearedVelocity(zImu), Predicted(f, dt);
    ImuStepIsMixture(f, cos, dt, z, prior);
    MixtureOfOne(prior, prior, Updated(prior, ObservationImu(), f.rImu, z), prior);
    SettledMembership(cos, Nis(prior, ObservationImu(), f.rImu, z), f.bounds.lowerImu, f.bounds.upperImu, false, imu);
  }

  /**
   A step with GPS whose sensors are each certain or refuted leaves exactly the update by those that
   are certain: by both one after the other, by the only one, or by none the prediction.
   */
  lemma StepGpsSelects(f: Filter, cos: real -> real, dt: real, zGps: Vec, zImu: Vec, gps: bool, imu: bool)
    requires Sound(f) && IsCosine(cos) && IsVec(zGps, 6) && IsVec(zImu, 6)
    requires Settled(Nis(Predicted(f, dt), ObservationGps(), f.rGps, zGps), f.bounds.lowerGps, f.bounds.upperGps, gps)
    requires Settled(Nis(Predicted(f, dt), ObservationImu(), f.rImu, ClearedVelocity(zImu)),
                     f.bounds.lowerImu, f.bounds.upperImu, imu)
    ensures var g := StepGps(f, cos, dt, zGps, zImu);
      Estimate(g.x, g.p) == Selected(f, Predicted(f, dt), zGps, ClearedVelocity(zImu), gps, imu)
  {
    hide Definite, Predicted, Updated, Nis, Mixed, ClearedVelocity, Pushed, ImuNoiseAfter, GpsNoiseAfter, ProductWeights,
         Membership, Settled;
    var z, prior := ClearedVelocity(zImu), Predicted(f, dt);
    var u, v := Updated(prior, ObservationGps(), f.rGps, zGps), Updated(prior, ObservationImu(), f.rImu, z);
    MixtureOfOne(prior, u, v, Updated(u, ObservationImu(), f.rImu, z));
    var b := f.bounds;
    var g := Membership(cos, Nis(prior, ObservationGps(), f.rGps, zGps), b.lowerGps, b.upperGps, true);
    var i := Membership(cos, Nis(prior, ObservationImu(), f.rImu, z), b.lowerImu, b.upperImu, false);
    SettledMembership(cos, Nis(prior, ObservationGps(), f.rGps, zGps), b.lowerGps, b.upperGps, true, gps);
    SettledMembership(cos, Nis(prior, ObservationImu(), f.rImu, z), b.lowerImu, b.upperImu, false, imu);
    CornerWeights(gps, imu, g, i);
    assert FusedGps(f, cos, dt, zGps, z) == Mixed(prior, u, v, Updated(u, ObservationImu(), f.rImu, z), ProductWeights(g, i));
  }

  lemma WeightsAre(g: real, i: real, gi: real)
    requires 0.0 <= g <= 1.0 && 0.0 <= i <= 1.0 && gi == g * i
    ensures ProductWeights(g, i) == Weights(1.0 - g - i + gi, g - gi, i - gi, gi)
  {
  }

  /** Memberships that are all or nothing put all the weight on one combination. */
  lemma CornerWeights(gps: bool, imu: bool, g: real, i: real)
    requires g == (if gps then 1.0 else 0.0) && i == (if imu then 1.0 else 0.0)
    ensures ProductWeights(g, i)
         == if gps then if imu then Weights(0.0, 0.0, 0.0, 1.0) else Weights(0.0, 1.0, 0.0, 0.0)
            else if imu then Weights(0.0, 0.0, 1.0, 0.0) else Weights(1.0, 0.0, 0.0, 0.0)
  {
    WeightsAre(g, i, g * i);
    hide ProductWeights;
  }

  /** The variance of an estimate along u, around the state x. */
  ghost function Along(x: Vec, e: Estimate, u: Vec): real
    requires IsVec(x, 6) && Proper(e) && IsVec(u, 6)
  {
    var d := Dot(u, x) - Dot(u, e.x);
    Quad(e.p, u) + d * d
  }

  lemma AroundAlong(x: Vec, e: Estimate, u: Vec)
    requires IsVec(x, 6) && Proper(e) && IsVec(u, 6)
    ensures Quad(Around(x, e), u) == Along(x, e, u)
  {
    var v := VSub(x, e.x);
    var d := Dot(u, x) - Dot(u, e.x);
    DefiniteShape(e.p, 6);
    hide Quad, Dot, MAdd, Outer, VSub, Definite;
    QuadAdd(e.p, Outer(v, v), u);
    DotSub(x, e.x, u);
    DotSymmetric(v, u);
    QuadOuter(v, u, d);
  }

  /** The mean of four values by weight. */
  function Mean(w: Weights, none: real, gps: real, imu: real, both: real): real {
    Share(w.none, none) + Share(w.gps, gps) + Share(w.imu, imu) + Share(w.both, both)
  }

  function Share(weight: real, value: real): real {
    weight * value
  }

  /**
   The fused state and covariance are the moments of the mixture along every direction; only the
   prediction enters without its distance from the mean.
   */
  lemma MixtureMoments(prior: Estimate, gps: Estimate, imu: Estimate, both: Estimate, w: Weights, u: Vec)
    requires Proper(prior) && Proper(gps) && Proper(imu) && Proper(both) && IsVec(u, 6)
    ensures var e := Mixed(prior, gps, imu, both, w);
      && Dot(u, e.x) == Mean(w, Dot(u, prior.x), Dot(u, gps.x), Dot(u, imu.x), Dot(u, both.x))
      && Quad(e.p, u) == Mean(w, Quad(prior.p, u), Along(e.x, gps, u), Along(e.x, imu, u), Along(e.x, both, u))
  {
    DefiniteShape(prior.p, 6);
    hide Quad, Dot, MAdd, MScale, VAdd, VScale, Around, Along, Definite, Mean;
    var e := Mixed(prior, gps, imu, both, w);
    MeanAlong(w, prior.x, gps.x, imu.x, both.x, u, Dot(u, prior.x), Dot(u, gps.x), Dot(u, imu.x), Dot(u, both.x));
    AroundAlong(e.x, gps, u);
    AroundAlong(e.x, imu, u);
    AroundAlong(e.x, both, u);
    FormAlong(w, prior.p, Around(e.x, gps), Around(e.x, imu), Around(e.x, both), u,
              Quad(prior.p, u), Along(e.x, gps, u), Along(e.x, imu, u), Along(e.x, both, u));
  }

  lemma MeanAlong(w: Weights, a: Vec, b: Vec, c: Vec, d: Vec, u: Vec, a': real, b': real, c': real, d': real)
    requires |a| == |b| == |c| == |d| == |u|
    requires a' == Dot(u, a) && b' == Dot(u, b) && c' == Dot(u, c) && d' == Dot(u, d)
    ensures Dot(u, VAdd(VAdd(VAdd(VScale(w.none, a), VScale(w.gps, b)), VScale(w.imu, c)), VScale(w.both, d)))
         == Mean(w, a', b', c', d')
  {
    hide VAdd, VScale, Share;
    var p, q, r, s := VScale(w.none, a), VScale(w.gps, b), VScale(w.imu, c), VScale(w.both, d);
    FourAlong(p, q, r, s, u);
    ScaledAlong(w.none, a, u, a');
    ScaledAlong(w.gps, b, u, b');
    ScaledAlong(w.imu, c, u, c');
    ScaledAlong(w.both, d, u, d');
  }

  lemma FourAlong(p: Vec, q: Vec, r: Vec, s: Vec, u: Vec)
    requires |p| == |q| == |r| == |s| == |u|
    ensures Dot(u, VAdd(VAdd(VAdd(p, q), r), s)) == Dot(u, p) + Dot(u, q) + Dot(u, r) + Dot(u, s)
  {
    hide Dot, VAdd;
    DotAdd(VAdd(VAdd(p, q), r), s, u);
    DotAdd(VAdd(p, q), r, u);
    DotAdd(p, q, u);
  }

  lemma ScaledAlong(c: real, a: Vec, u: Vec, d: real)
    requires |a| == |u| && d == Dot(u, a)
    ensures Dot(u, VScale(c, a)) == Share(c, d)
  {
    hide Dot, VScale;
    DotSymmetric(u, a);
    DotSymmetric(u, VScale(c, a));
    DotScaleNamed(c, a, u, d);
  }

  lemma ScaledForm(c: real, a: Mat, u: Vec, q: real)
    requires IsMat(a, |u|, |u|) && q == Quad(a, u)
    ensures Quad(MScale(c, a), u) == Share(c, q)
  {
    QuadScaleNamed(c, a, u, q);
  }

  lemma FormAlong(w: Weights, a: Mat, b: Mat, c: Mat, d: Mat, u: Vec, a': real, b': real, c': real, d': real)
    requires IsMat(a, 6, 6) && IsMat(b, 6, 6) && IsMat(c, 6, 6) && IsMat(d, 6, 6) && |u| == 6
    requires a' == Quad(a, u) && b' == Quad(b, u) && c' == Quad(c, u) && d' == Quad(d, u)
    ensures Quad(MAdd(MAdd(MAdd(MScale(w.none, a), MScale(w.gps, b)), MScale(w.imu, c)), MScale(w.both, d)), u)
         == Mean(w, a', b', c', d')
  {
    hide Quad, MAdd, MScale, Share;
    var p, q, r, s := MScale(w.none, a), MScale(w.gps, b), MScale(w.imu, c), MScale(w.both, d);
    QuadAdd(MAdd(MAdd(p, q), r), s, u);
    QuadAdd(MAdd(p, q), r, u);
    QuadAdd(p, q, u);
    ScaledForm(w.none, a, u, a');
    ScaledForm(w.gps, b, u, b');
    ScaledForm(w.imu, c, u, c');
    ScaledForm(w.both, d, u, d');
  }

  /** A window takes up the residual that the state after the step leaves, and the noise is re-estimated with its covariance. */
  lemma StepLeavesResiduals(f: Filter, cos: real -> real, dt: real, zGps: Vec, zImu: Vec)
    requires Sound(f) && IsCosine(cos) && IsVec(zGps, 6) && IsVec(zImu, 6)
    ensures var g := StepGps(f, cos, dt, zGps, zImu);
      && IsVec(g.x, 6) && IsMat(g.p, 6, 6)
      && var left := VSub(zGps, MatVec(ObservationGps(), g.x));
      && g.gps == Pushed(f.gps, left) && g.rGps == GpsNoiseAfter(f.rGps, f.gps, left, g.p)
    ensures forall g :: g == StepGps(f, cos, dt, zGps, zImu) || g == StepImu(f, cos, dt, zImu) ==>
      && IsVec(g.x, 6) && IsMat(g.p, 6, 6)
      && var left := VSub(ClearedVelocity(zImu), MatVec(ObservationImu(), g.x));
      && g.imu == Pushed(f.imu, left) && g.rImu == ImuNoiseAfter(f.rImu, f.imu, left, g.p)
  {
    hide FusedGps, FusedImu, Definite, ObservationGps, ObservationImu, Pushed, ImuNoiseAfter, GpsNoiseAfter,
         ClearedVelocity, MatVec, VSub;
  }

  /**
   After t residuals the noise is re-estimated by push t + 1 exactly at the times of WindowContents,
   and then from the last n residuals, the new one among them.
   */
  lemma NoiseOverRun(n: nat, l: nat, rs: seq<Vec>, residual: Vec, r: Mat, p: Mat)
    requires n > 0 && SixEntries(rs) && |residual| == 6 && IsMat(r, 6, 6) && IsMat(p, 6, 6)
    ensures var w, used := PushedAll(Window(n, l, 0, []), rs), Last(rs + [residual], n);
      && SixEntries(w.queue) && SixEntries(used) && used != []
      && var gps, imu := RawNoise(used, ObservationGps(), p), RawNoise(used, ObservationImu(), p);
      && GpsNoiseAfter(r, w, residual, p) == (if RecomputesAt(n, l, |rs| + 1) then SetDiagonal(gps, GpsDiagonal(gps)) else r)
      && ImuNoiseAfter(r, w, residual, p) == (if RecomputesAt(n, l, |rs| + 1) then SetDiagonal(imu, ImuDiagonal(imu)) else r)
  {
    hide Recomputes, RecomputesAt, PushedAll, Pushed, Last, SixEntries, RawNoise, SetDiagonal, GpsDiagonal, ImuDiagonal,
         ObservationGps, ObservationImu;
    WindowUsed(n, l, rs, residual);
  }

  // ---------- the step keeps the filter sound ----------

  /** F P F^T + Q is definite for every time step, because F is unit triangular. */
  lemma PredictionDefinite(p: Mat, q: Mat, dt: real)
    requires Definite(p, 6) && SemiDefinite(q, 6)
    ensures Definite(MAdd(MatMul(MatMul(BuildFk(dt), p), Transpose(BuildFk(dt))), q), 6)
  {
    forall x: Vec | |x| == 6 && MatVec(Transpose(BuildFk(dt)), x) == Zeros(6) ensures x == Zeros(6) {
      TransitionInvertible(dt, x);
    }
    CongruenceDefinite(BuildFk(dt), p, 6, 6);
    AddDefinite(MatMul(MatMul(BuildFk(dt), p), Transpose(BuildFk(dt))), q, 6);
  }

  /** F(-dt) undoes F(dt). */
  lemma TransitionInvertible(dt: real, x: Vec)
    requires |x| == 6 && MatVec(Transpose(BuildFk(dt)), x) == Zeros(6)
    ensures x == Zeros(6)
  {
    hide MatMul, MatVec, Transpose, Dot;
    var f, b := BuildFk(dt), BuildFk(-dt);
    TransitionsCompose(dt, -dt);
    TransposeMul(f, b);
    TransposeIdentity(6);
    MulActs(Transpose(b), Transpose(f), x);
    IdentityActs(x);
    forall i | 0 <= i < 6 ensures x[i] == 0.0 {
      DotZero(Zeros(6), Transpose(b)[i]);
      MatVecAt(Transpose(b), Zeros(6), i);
    }
  }

  lemma AroundDefinite(x: Vec, e: Estimate)
    requires IsVec(x, 6) && Proper(e)
    ensures Definite(Around(x, e), 6)
  {
    OuterSemiDefinite(VSub(x, e.x), 6);
    AddDefinite(e.p, Outer(VSub(x, e.x), VSub(x, e.x)), 6);
  }

  /** Weighting keeps semidefiniteness, and a positive weight keeps definiteness. */
  lemma Weighted(c: real, m: Mat)
    requires c >= 0.0 && Definite(m, 6)
    ensures SemiDefinite(MScale(c, m), 6)
    ensures c > 0.0 ==> Definite(MScale(c, m), 6)
  {
    DefiniteIsSemiDefinite(m, 6);
    ScaleSemiDefinite(c, m, 6);
    if c > 0.0 {
      ScaleDefinite(c, m, 6);
    }
  }

  lemma SumDefinite(a: Mat, b: Mat)
    requires SemiDefinite(a, 6) && SemiDefinite(b, 6)
    ensures SemiDefinite(MAdd(a, b), 6)
    ensures Definite(a, 6) || Definite(b, 6) ==> Definite(MAdd(a, b), 6)
  {
    AddSemiDefinite(a, b, 6);
    if Definite(a, 6) {
      AddDefinite(a, b, 6);
    } else if Definite(b, 6) {
      AddDefinite(b, a, 6);
    }
  }

  lemma MixedDefinite(prior: Estimate, gps: Estimate, imu: Estimate, both: Estimate, w: Weights)
    requires Proper(prior) && Proper(gps) && Proper(imu) && Proper(both) && Convex(w)
    ensures Definite(Mixed(prior, gps, imu, both, w).p, 6)
  {
    var x := Mixed(prior, gps, imu, both, w).x;
    AroundDefinite(x, gps);
    AroundDefinite(x, imu);
    AroundDefinite(x, both);
    var a, b, c, d := MScale(w.none, prior.p), MScale(w.gps, Around(x, gps)), MScale(w.imu, Around(x, imu)),
      MScale(w.both, Around(x, both));
    Weighted(w.none, prior.p);
    Weighted(w.gps, Around(x, gps));
    Weighted(w.imu, Around(x, imu));
    Weighted(w.both, Around(x, both));
    SumDefinite(a, b);
    SumDefinite(MAdd(a, b), c);
    SumDefinite(MAdd(MAdd(a, b), c), d);
  }

  lemma FusedImuDefinite(f: Filter, cos: real -> real, dt: real, z: Vec)
    requires Sound(f) && IsCosine(cos) && IsVec(z, 6)
    ensures Definite(FusedImu(f, cos, dt, z).p, 6)
  {
    var prior := Predicted(f, dt);
    var imu := Updated(prior, ObservationImu(), f.rImu, z);
    var mu := Membership(cos, Nis(prior, ObservationImu(), f.rImu, z), f.bounds.lowerImu, f.bounds.upperImu, false);
    var x := FusedImu(f, cos, dt, z).x;
    AroundDefinite(x, imu);
    Weighted(1.0 - mu, prior.p);
    Weighted(mu, Around(x, imu));
    SumDefinite(MScale(1.0 - mu, prior.p), MScale(mu, Around(x, imu)));
  }

  lemma FusedGpsDefinite(f: Filter, cos: real -> real, dt: real, zGps: Vec, zImu: Vec)
    requires Sound(f) && IsCosine(cos) && IsVec(zGps, 6) && IsVec(zImu, 6)
    ensures Definite(FusedGps(f, cos, dt, zGps, zImu).p, 6)
  {
    hide Predicted, Updated, Nis, Mixed, Definite;
    var prior := Predicted(f, dt);
    var gps := Updated(prior, ObservationGps(), f.rGps, zGps);
    var imu := Updated(prior, ObservationImu(), f.rImu, zImu);
    var both := Updated(gps, ObservationImu(), f.rImu, zImu);
    var g := Membership(cos, Nis(prior, ObservationGps(), f.rGps, zGps), f.bounds.lowerGps, f.bounds.upperGps, true);
    var i := Membership(cos, Nis(prior, ObservationImu(), f.rImu, zImu), f.bounds.lowerImu, f.bounds.upperImu, false);
    MixedDefinite(prior, gps, imu, both, ProductWeights(g, i));
  }

  /** The residual of a masked measurement is masked. */
  lemma ResidualMasked(z: Vec, mask: Vec, x: Vec)
    requires |x| == 6 && Masked(z, mask)
    ensures Masked(VSub(z, MatVec(Diagonal(mask), x)), mask)
  {
    DiagonalActs(mask, x);
  }

  lemma PushKeepsWindow(w: Window, r: Vec, mask: Vec)
    requires WindowOf(w, mask) && Masked(r, mask)
    ensures WindowOf(Pushed(w, r), mask)
    ensures Recomputes(w) ==> |Pushed(w, r).queue| > 0
  {
  }

  lemma GpsNoiseDefinite(r: Mat, w: Window, residual: Vec, p: Mat)
    requires Definite(r, 6) && Definite(p, 6) && WindowOf(w, GPS_MASK) && Masked(residual, GPS_MASK)
    ensures Definite(GpsNoiseAfter(r, w, residual, p), 6)
  {
    PushKeepsWindow(w, residual, GPS_MASK);
    if Recomputes(w) {
      GpsFloorDefinite(Pushed(w, residual).queue, p);
    }
  }

  lemma GpsFloorDefinite(rs: seq<Vec>, p: Mat)
    requires |rs| > 0 && AllMasked(rs, GPS_MASK) && Definite(p, 6)
    ensures var raw := RawNoise(rs, ObservationGps(), p);
      Definite(SetDiagonal(raw, GpsDiagonal(raw)), 6)
  {
    assert SixEntries(rs);
    hide RawNoise, Definite;
    FlooredDefinite(rs, GPS_MASK, p, GpsDiagonal(RawNoise(rs, ObservationGps(), p)));
  }

  lemma ImuNoiseDefinite(r: Mat, w: Window, residual: Vec, p: Mat)
    requires Definite(r, 6) && Definite(p, 6) && WindowOf(w, IMU_MASK) && Masked(residual, IMU_MASK)
    ensures Definite(ImuNoiseAfter(r, w, residual, p), 6)
  {
    PushKeepsWindow(w, residual, IMU_MASK);
    if Recomputes(w) {
      ImuFloorDefinite(Pushed(w, residual).queue, p);
    }
  }

  lemma ImuFloorDefinite(rs: seq<Vec>, p: Mat)
    requires |rs| > 0 && AllMasked(rs, IMU_MASK) && Definite(p, 6)
    ensures var raw := RawNoise(rs, ObservationImu(), p);
      Definite(SetDiagonal(raw, ImuDiagonal(raw)), 6)
  {
    assert SixEntries(rs);
    hide RawNoise, Definite;
    FlooredDefinite(rs, IMU_MASK, p, ImuDiagonal(RawNoise(rs, ObservationImu(), p)));
  }

  /** What the navigation code passes in: [x, y, 0, 0, 0, 0] and [0, 0, vx, vy, ax, ay]. */
  ghost predicate GpsMeasurement(z: Vec) {
    Masked(z, GPS_MASK)
  }

  ghost predicate ImuMeasurement(z: Vec) {
    |z| == 6 && z[0] == 0.0 && z[1] == 0.0
  }

  lemma StepImuSound(f: Filter, cos: real -> real, dt: real, zImu: Vec)
    requires Sound(f) && IsCosine(cos) && ImuMeasurement(zImu)
    ensures Sound(StepImu(f, cos, dt, zImu))
  {
    hide FusedImu, Definite, ImuNoiseAfter, Pushed, MatVec, VSub;
    var z := ClearedVelocity(zImu);
    var e := FusedImu(f, cos, dt, z);
    var r := VSub(z, MatVec(ObservationImu(), e.x));
    FusedImuDefinite(f, cos, dt, z);
    ResidualMasked(z, IMU_MASK, e.x);
    PushKeepsWindow(f.imu, r, IMU_MASK);
    ImuNoiseDefinite(f.rImu, f.imu, r, e.p);
  }

  lemma StepGpsSound(f: Filter, cos: real -> real, dt: real, zGps: Vec, zImu: Vec)
    requires Sound(f) && IsCosine(cos) && GpsMeasurement(zGps) && ImuMeasurement(zImu)
    ensures Sound(StepGps(f, cos, dt, zGps, zImu))
  {
    hide FusedGps, Definite, GpsNoiseAfter, ImuNoiseAfter, Pushed, MatVec, VSub;
    var z := ClearedVelocity(zImu);
    var e := FusedGps(f, cos, dt, zGps, z);
    var rg, ri := VSub(zGps, MatVec(ObservationGps(), e.x)), VSub(z, MatVec(ObservationImu(), e.x));
    FusedGpsDefinite(f, cos, dt, zGps, z);
    ResidualMasked(zGps, GPS_MASK, e.x);
    ResidualMasked(z, IMU_MASK, e.x);
    PushKeepsWindow(f.gps, rg, GPS_MASK);
    PushKeepsWindow(f.imu, ri, IMU_MASK);
    GpsNoiseDefinite(f.rGps, f.gps, rg, e.p);
    ImuNoiseDefinite(f.rImu, f.imu, ri, e.p);
  }

  // ---------- runs ----------

  datatype Input = ImuOnly(dt: real, zImu: Vec) | WithGps(dt: real, zGps: Vec, zImu: Vec)

  ghost predicate Acceptable(i: Input) {
    ImuMeasurement(i.zImu) && (i.WithGps? ==> GpsMeasurement(i.zGps))
  }

  ghost function Step(f: Filter, cos: real -> real, i: Input): (g: Filter)
    requires Sound(f) && IsCosine(cos) && Acceptable(i)
    ensures Sound(g)
  {
    match i
    case ImuOnly(dt, z) =>
      StepImuSound(f, cos, dt, z);
      StepImu(f, cos, dt, z)
    case WithGps(dt, zGps, z) =>
      StepGpsSound(f, cos, dt, zGps, z);
      StepGps(f, cos, dt, zGps, z)
  }

  ghost predicate AllAcceptable(inputs: seq<Input>) {
    forall k :: 0 <= k < |inputs| ==> Acceptable(inputs[k])
  }

  /** The filter after a run. */
  ghost function Run(f: Filter, cos: real -> real, inputs: seq<Input>): (g: Filter)
    requires Sound(f) && IsCosine(cos) && AllAcceptable(inputs)
    ensures Sound(g)
  {
    if inputs == [] then f
    else Step(Run(f, cos, inputs[..|inputs| - 1]), cos, inputs[|inputs| - 1])
  }

  /** The matrices and state the navigation controller configures the filter with. */
  function ControllerStart(lat: real, lon: real, bounds: Bounds, nGps: nat, lGps: nat, nImu: nat, lImu: nat): Filter {
    Filter([lon, lat, 1e-15, 1e-15, 1e-16, 1e-16],
           Diagonal([1.2e-10, 1e-10, 1.9e-8, 1.32e-8, 1.2e-10, 1.8e-10]),
           Diagonal([1e-10, 1.2e-10, 1.56e-1, 1.01e-1, 1.3e-1, 1.09e-1]),
           Diagonal([1.2e-1, 1.1e-1, 1.2e-4, 1e-4, 1e-4, 1.4e-4]),
           UpdatedQ(JERK_PSD, 1.0 / 100.0, true),
           Window(nGps, lGps, 0, []), Window(nImu, lImu, 0, []), bounds)
  }

  lemma ControllerStartSound(lat: real, lon: real, bounds: Bounds, nGps: nat, lGps: nat, nImu: nat, lImu: nat)
    ensures Sound(ControllerStart(lat, lon, bounds, nGps, lGps, nImu, lImu))
  {
    hide Definite, Diagonal, UpdatedQ;
    StartP();
    StartNoise();
    NoiseSemiDefinite(JERK_PSD, 1.0 / 100.0, true);
  }

  lemma StartP()
    ensures Definite(Diagonal([1.2e-10, 1e-10, 1.9e-8, 1.32e-8, 1.2e-10, 1.8e-10]), 6)
  {
    hide Definite, Diagonal;
    DiagonalDefinite([1.2e-10, 1e-10, 1.9e-8, 1.32e-8, 1.2e-10, 1.8e-10], 6);
  }

  lemma StartNoise()
    ensures Definite(Diagonal([1e-10, 1.2e-10, 1.56e-1, 1.01e-1, 1.3e-1, 1.09e-1]), 6)
    ensures Definite(Diagonal([1.2e-1, 1.1e-1, 1.2e-4, 1e-4, 1e-4, 1.4e-4]), 6)
  {
    hide Definite, Diagonal;
    DiagonalDefinite([1e-10, 1.2e-10, 1.56e-1, 1.01e-1, 1.3e-1, 1.09e-1], 6);
    DiagonalDefinite([1.2e-1, 1.1e-1, 1.2e-4, 1e-4, 1e-4, 1.4e-4], 6);
  }

  /**
   From the controller's start, after any sequence of steps with or without GPS, with any time
   steps and any measurements of the documented shape, P, R_GPS and R_IMU are symmetric
   positive definite, so every inverse a further step takes exists.
   */
  lemma RunsStayDefinite(lat: real, lon: real, bounds: Bounds, nGps: nat, lGps: nat, nImu: nat, lImu: nat,
                         cos: real -> real, inputs: seq<Input>)
    requires IsCosine(cos) && AllAcceptable(inputs)
    ensures var start := ControllerStart(lat, lon, bounds, nGps, lGps, nImu, lImu);
      && Sound(start)
      && Definite(Run(start, cos, inputs).p, 6)
      && Definite(Run(start, cos, inputs).rGps, 6)
      && Definite(Run(start, cos, inputs).rImu, 6)
  {
    hide Run, Definite, ControllerStart;
    ControllerStartSound(lat, lon, bounds, nGps, lGps, nImu, lImu);
  }
}
