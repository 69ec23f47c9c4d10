/**
 The filter object.  Its steps work in information form: they invert P^-1 + H^T R^-1 H for
 every hypothesis, as the program does, and are proved to compute the classical reference
 step of FusionModel and to keep the three covariances positive definite.
 */
module FusionFilter {
  import opened LinearAlgebra
  import opened PositiveDefinite
  import opened KalmanForms
  import opened MotionModel
  import opened AdaptiveNoise
  import opened FusionModel

  // ---------- the information form of one hypothesis ----------

  /** (P^-1 + H^T R^-1 H)^-1 */
  function InformationCovariance(prior: Mat, h: Mat, r: Mat): (p: Mat)
    requires Definite(prior, 6) && IsMat(h, 6, 6) && Definite(r, 6)
    ensures IsMat(p, 6, 6)
  {
    PosteriorInformationDefinite(prior, h, r, 6, 6);
    Inverse(MAdd(Inverse(prior, 6), Information(h, r, 6, 6)), 6)
  }

  /** The covariance of both sensors together. */
  function JointCovariance(prior: Mat, h1: Mat, r1: Mat, h2: Mat, r2: Mat): (p: Mat)
    requires Definite(prior, 6) && IsMat(h1, 6, 6) && Definite(r1, 6) && IsMat(h2, 6, 6) && Definite(r2, 6)
    ensures IsMat(p, 6, 6)
  {
    PosteriorInformationDefinite(prior, h1, r1, 6, 6);
    InformationSemiDefinite(h2, r2, 6, 6);
    AddDefinite(MAdd(Inverse(prior, 6), Information(h1, r1, 6, 6)), Information(h2, r2, 6, 6), 6);
    Inverse(MAdd(MAdd(Inverse(prior, 6), Information(h1, r1, 6, 6)), Information(h2, r2, 6, 6)), 6)
  }

  /** The gain of a sensor whose hypothesis has the covariance p: p H^T R^-1. */
  function InformationGain(p: Mat, h: Mat, r: Mat): (k: Mat)
    requires IsMat(p, 6, 6) && IsMat(h, 6, 6) && Definite(r, 6)
    ensures IsMat(k, 6, 6)
  {
    MatMul(MatMul(p, Transpose(h)), Inverse(r, 6))
  }

  lemma HypothesisForms(e: Estimate, h: Mat, r: Mat, z: Vec)
    requires Proper(e) && IsMat(h, 6, 6) && Definite(r, 6) && IsVec(z, 6)
    ensures var p := InformationCovariance(e.p, h, r);
      Updated(e, h, r, z) == Estimate(VAdd(e.x, MatVec(InformationGain(p, h, r), VSub(z, MatVec(h, e.x)))), p)
  {
    hide Definite, Inverse, Information, UpdatedCovariance, Gain;
    CovarianceForms(e.p, h, r, 6, 6);
    GainForms(e.p, h, r, 6, 6);
  }

  lemma JointForms(e: Estimate, h1: Mat, r1: Mat, z1: Vec, h2: Mat, r2: Mat, z2: Vec)
    requires Proper(e) && IsVec(z1, 6) && IsVec(z2, 6)
    requires IsMat(h1, 6, 6) && Definite(r1, 6) && IsMat(h2, 6, 6) && Definite(r2, 6)
    ensures var p := JointCovariance(e.p, h1, r1, h2, r2);
      Updated(Updated(e, h1, r1, z1), h2, r2, z2)
        == Estimate(VAdd(VAdd(e.x, MatVec(InformationGain(p, h1, r1), VSub(z1, MatVec(h1, e.x)))),
                         MatVec(InformationGain(p, h2, r2), VSub(z2, MatVec(h2, e.x)))), p)
  {
    hide Definite, Inverse, Information, UpdatedCovariance, Gain, UpdatedState;
    JointIsSequential(e.x, e.p, h1, r1, z1, h2, r2, z2, 6, 6);
  }

  // ---------- the fuzzy weights ----------

  /** The clamped weights, which are the product weights for memberships in [0, 1]. */
  function Betas(g: real, i: real): (w: Weights)
    requires 0.0 <= g <= 1.0 && 0.0 <= i <= 1.0
    ensures w == ProductWeights(g, i) && Convex(w)
    ensures w.gps + w.both == g && w.imu + w.both == i && w.both == g * i
  {
    var gi := g * i;
    assert ProductWeights(g, i) == Weights(1.0 - g - i + gi, g - gi, i - gi, gi);
    Weights(Max(1.0 - g - i + gi, 0.0), Max(g - gi, 0.0), Max(i - gi, 0.0), Max(gi, 0.0))
  }

  lemma SoundShapes(f: Filter)
    requires Sound(f)
    ensures IsMat(f.p, 6, 6) && IsMat(f.rGps, 6, 6) && IsMat(f.rImu, 6, 6) && IsMat(f.q, 6, 6)
  {
  }

  class Fusion {
    const cos: real -> real
    const bounds: Bounds
    const nGps: nat
    const lGps: nat
    const nImu: nat
    const lImu: nat
    var x: Vec
    var p: Mat
    var rGps: Mat
    var rImu: Mat
    var q: Mat
    var propagatedLag: Mat
    var countGps: nat
    var countImu: nat
    var queueGps: seq<Vec>
    var queueImu: seq<Vec>

    ghost function State(): Filter
      reads this
    {
      Filter(x, p, rGps, rImu, q, Window(nGps, lGps, countGps, queueGps), Window(nImu, lImu, countImu, queueImu), bounds)
    }

    ghost predicate Valid()
      reads this
    {
      Sound(State()) && IsCosine(cos)
    }

    /** The given process noise is replaced at once by that of a hundredth of a second with GPS. */
    constructor (x0: Vec, p0: Mat, rGps0: Mat, rImu0: Mat, q0: Mat, bounds: Bounds,
                 nGps: nat, lGps: nat, nImu: nat, lImu: nat, cos: real -> real)
      requires IsVec(x0, 6) && Definite(p0, 6) && Definite(rGps0, 6) && Definite(rImu0, 6) && IsMat(q0, 6, 6)
      requires IsCosine(cos)
      ensures Valid() && this.cos == cos
      ensures State() == Filter(x0, p0, rGps0, rImu0, UpdatedQ(JERK_PSD, 1.0 / 100.0, true),
                                Window(nGps, lGps, 0, []), Window(nImu, lImu, 0, []), bounds)
    {
      this.cos, this.bounds := cos, bounds;
      this.nGps, this.lGps, this.nImu, this.lImu := nGps, lGps, nImu, lImu;
      x, p, rGps, rImu, q, propagatedLag := x0, p0, rGps0, rImu0, q0, q0;
      countGps, countImu, queueGps, queueImu := 0, 0, [], [];
      new;
      UpdateQ(1.0 / 100.0, true);
      NoiseSemiDefinite(JERK_PSD, 1.0 / 100.0, true);
    }

    method UpdateQ(dt: real, hasGps: bool)
      modifies this`q
      ensures q == UpdatedQ(JERK_PSD, dt, hasGps)
    {
      if dt <= 0.0 {
        q := ZeroMatrix();
        return;
      }
      var b := Blocks(Noise3(EffectiveDensity(JERK_PSD, hasGps), dt));
      q := MScale(0.5, MAdd(b, Transpose(b)));
    }

    method PushInnovationGps(residual: Vec, posterior: Mat)
      requires |residual| == 6 && IsMat(posterior, 6, 6) && SixEntries(queueGps) && IsMat(rGps, 6, 6) && |queueGps| <= nGps
      modifies this`queueGps, this`countGps, this`rGps
      ensures Window(nGps, lGps, countGps, queueGps) == Pushed(old(Window(nGps, lGps, countGps, queueGps)), residual)
      ensures rGps == GpsNoiseAfter(old(rGps), old(Window(nGps, lGps, countGps, queueGps)), residual, posterior)
    {
      if nGps == 0 {
        return;
      }
      if |queueGps| < nGps {
        queueGps := queueGps + [residual];
        return;
      }
      queueGps := queueGps[1..];
      queueGps := queueGps + [residual];
      if countGps >= lGps {
        var sum := SumInnovations(queueGps);
        var raw := MAdd(MScale(MeanWeight(queueGps), sum),
                        MatMul(MatMul(ObservationGps(), posterior), Transpose(ObservationGps())));
        rGps := SetDiagonal(raw, GpsDiagonal(raw));
        countGps := 0;
      }
      countGps := countGps + 1;
    }

    method PushInnovationImu(residual: Vec, posterior: Mat)
      requires |residual| == 6 && IsMat(posterior, 6, 6) && SixEntries(queueImu) && IsMat(rImu, 6, 6) && |queueImu| <= nImu
      modifies this`queueImu, this`countImu, this`rImu
      ensures Window(nImu, lImu, countImu, queueImu) == Pushed(old(Window(nImu, lImu, countImu, queueImu)), residual)
      ensures rImu == ImuNoiseAfter(old(rImu), old(Window(nImu, lImu, countImu, queueImu)), residual, posterior)
    {
      if nImu == 0 {
        return;
      }
      if |queueImu| < nImu {
        queueImu := queueImu + [residual];
        return;
      }
      queueImu := queueImu[1..];
      queueImu := queueImu + [residual];
      if countImu >= lImu {
        var sum := SumInnovations(queueImu);
        var raw := MAdd(MScale(MeanWeight(queueImu), sum),
                        MatMul(MatMul(ObservationImu(), posterior), Transpose(ObservationImu())));
        rImu := SetDiagonal(raw, ImuDiagonal(raw));
        countImu := 0;
      }
      countImu := countImu + 1;
    }

    /**
     A step without a GPS fix.  It clears the velocity entries of the caller's measurement.  The
     returned covariance is that of the prediction, not the fused one the filter keeps.
     */
    method StepImuOnly(dt: real, zImu: array<real>) returns (outX: Vec, outP: Mat)
      requires Valid() && ImuMeasurement(zImu[..])
      modifies this, zImu
      ensures zImu[..] == ClearedVelocity(old(zImu[..]))
      ensures Valid() && State() == StepImu(old(State()), cos, dt, old(zImu[..]))
      ensures outX == x && outP == Predicted(old(State()), dt).p
    {
      hide Definite, MatMul, MatVec, MAdd, MScale, Outer, VAdd, VSub, VScale, Transpose, BuildFk, Membership,
           InformationCovariance, JointCovariance, InformationGain, InnovationStatistic, Updated,
           ObservationGps, ObservationImu, Pushed, ImuNoiseAfter;
      ghost var before, given := State(), zImu[..];
      SoundShapes(before);
      zImu[2], zImu[3] := 0.0, 0.0;
      var z := zImu[..];
      assert z == ClearedVelocity(given);
      var fk := BuildFk(dt);
      var priorX := MatVec(fk, x);
      propagatedLag := MatMul(MatMul(fk, p), Transpose(fk));
      var priorP := MAdd(propagatedLag, q);
      ghost var prior := Predicted(before, dt);
      assert prior == Estimate(priorX, priorP);
      DefiniteIsSemiDefinite(priorP, 6);
      var innovation := VSub(z, MatVec(ObservationImu(), priorX));
      var mu := Membership(cos, InnovationStatistic(priorP, ObservationImu(), rImu, innovation, 6, 6),
                           bounds.lowerImu, bounds.upperImu, false);
      var none, imu := Max(1.0 - mu, 0.0), Max(mu, 0.0);
      var covarianceImu := InformationCovariance(priorP, ObservationImu(), rImu);
      var jointP := JointCovariance(priorP, ObservationGps(), rGps, ObservationImu(), rImu);
      var gain := InformationGain(covarianceImu, ObservationImu(), rImu);
      var xImu := VAdd(priorX, MatVec(gain, innovation));
      HypothesisForms(prior, ObservationImu(), rImu, z);
      x := VAdd(VScale(none, priorX), VScale(imu, xImu));
      var spread := VSub(x, xImu);
      p := MAdd(MScale(none, priorP), MScale(imu, MAdd(covarianceImu, Outer(spread, spread))));
      assert Estimate(x, p) == FusedImu(before, cos, dt, z);
      var residual := VSub(z, MatVec(ObservationImu(), x));
      PushInnovationImu(residual, p);
      StepImuSound(before, cos, dt, given);
      outX, outP := x, priorP;
    }

    /** A step with a GPS fix.  It clears the velocity entries of the caller's IMU measurement, before it reads the fix. */
    method StepWithGps(dt: real, zGps: array<real>, zImu: array<real>) returns (outX: Vec, outP: Mat)
      requires Valid() && GpsMeasurement(zGps[..]) && ImuMeasurement(zImu[..])
      modifies this, zImu
      ensures zImu[..] == ClearedVelocity(old(zImu[..]))
      ensures Valid() && State() == StepGps(old(State()), cos, dt, zGps[..], old(zImu[..]))
      ensures outX == x && outP == p
    {
      hide Definite, MatMul, MatVec, MAdd, MScale, Outer, VAdd, VSub, VScale, Transpose, BuildFk, Membership,
           InformationCovariance, JointCovariance, InformationGain, InnovationStatistic, Updated, Betas, ProductWeights,
           ObservationGps, ObservationImu, Pushed, ImuNoiseAfter, GpsNoiseAfter;
      ghost var before, given := State(), zImu[..];
      SoundShapes(before);
      zImu[2], zImu[3] := 0.0, 0.0;
      var z := zImu[..];
      assert z == ClearedVelocity(given);
      var gps := zGps[..];
      var fk := BuildFk(dt);
      var priorX := MatVec(fk, x);
      propagatedLag := MatMul(MatMul(fk, p), Transpose(fk));
      var priorP := MAdd(propagatedLag, q);
      ghost var prior := Predicted(before, dt);
      assert prior == Estimate(priorX, priorP);
      DefiniteIsSemiDefinite(priorP, 6);
      var innovationImu := VSub(z, MatVec(ObservationImu(), priorX));
      var innovationGps := VSub(gps, MatVec(ObservationGps(), priorX));
      var muGps := Membership(cos, InnovationStatistic(priorP, ObservationGps(), rGps, innovationGps, 6, 6),
                              bounds.lowerGps, bounds.upperGps, true);
      var muImu := Membership(cos, InnovationStatistic(priorP, ObservationImu(), rImu, innovationImu, 6, 6),
                              bounds.lowerImu, bounds.upperImu, false);
      var w := Betas(muGps, muImu);
      var jointP := JointCovariance(priorP, ObservationGps(), rGps, ObservationImu(), rImu);
      var covarianceImu := InformationCovariance(priorP, ObservationImu(), rImu);
      var covarianceGps := InformationCovariance(priorP, ObservationGps(), rGps);
      var xImu := VAdd(priorX, MatVec(InformationGain(covarianceImu, ObservationImu(), rImu), innovationImu));
      var xGps := VAdd(priorX, MatVec(InformationGain(covarianceGps, ObservationGps(), rGps), innovationGps));
      var xBoth := VAdd(VAdd(priorX, MatVec(InformationGain(jointP, ObservationGps(), rGps), innovationGps)),
                        MatVec(InformationGain(jointP, ObservationImu(), rImu), innovationImu));
      HypothesisForms(prior, ObservationImu(), rImu, z);
      HypothesisForms(prior, ObservationGps(), rGps, gps);
      JointForms(prior, ObservationGps(), rGps, gps, ObservationImu(), rImu, z);
      x := VAdd(VAdd(VAdd(VScale(w.none, priorX), VScale(w.gps, xGps)), VScale(w.imu, xImu)), VScale(w.both, xBoth));
      var spreadImu, spreadGps, spreadBoth := VSub(x, xImu), VSub(x, xGps), VSub(x, xBoth);
      p := MAdd(MAdd(MAdd(MScale(w.none, priorP), MScale(w.gps, MAdd(covarianceGps, Outer(spreadGps, spreadGps)))),
                     MScale(w.imu, MAdd(covarianceImu, Outer(spreadImu, spreadImu)))),
                MScale(w.both, MAdd(jointP, Outer(spreadBoth, spreadBoth))));
      assert Estimate(x, p) == FusedGps(before, cos, dt, gps, z);
      var residualGps := VSub(gps, MatVec(ObservationGps(), x));
      var residualImu := VSub(z, MatVec(ObservationImu(), x));
      PushInnovationGps(residualGps, p);
      PushInnovationImu(residualImu, p);
      StepGpsSound(before, cos, dt, gps, given);
      outX, outP := x, p;
    }
  }

  method SumInnovations(rs: seq<Vec>) returns (sum: Mat)
    requires SixEntries(rs)
    ensures sum == SumOfOuters(rs)
  {
    sum := Diagonal(Zeros(6));
    assert rs[..0] == [];
    for k := 0 to |rs|
      invariant sum == SumOfOuters(rs[..k])
    {
      assert rs[..k + 1][..k] == rs[..k];
      sum := MAdd(sum, Outer(rs[k], rs[k]));
    }
    assert rs[..|rs|] == rs;
  }
}
