/**
 From sensor events to the filter: the controller hands on what the pairing dispatches, with the
 step width it limits and the measurement vectors in their documented shape.
 */
module NavigationPipeline {
  import S = SensorPairing
  import F = FusionModel
  import P = PositiveDefinite
  import L = LinearAlgebra
  import R = Rotation

  /** What the rotation and the kinetic state make of the samples of one dispatch. */
  datatype Motion = Motion(vx: real, vy: real, ax: real, ay: real)

  function FilterInput(d: S.Dispatch, m: Motion): (i: F.Input)
    ensures 0.0 < i.dt <= 0.5
  {
    var zImu := [0.0, 0.0, m.vx, m.vy, m.ax, m.ay];
    if d.fix.Some? then
      F.WithGps(S.Clamped(d.dt), [d.fix.value.longitude, d.fix.value.latitude, 0.0, 0.0, 0.0, 0.0], zImu)
    else F.ImuOnly(S.Clamped(d.dt), zImu)
  }

  function FilterInputs(ds: seq<S.Dispatch>, ms: seq<Motion>): seq<F.Input>
    requires |ms| == |ds|
  {
    seq(|ds|, k requires 0 <= k < |ds| => FilterInput(ds[k], ms[k]))
  }

  lemma InputAcceptable(d: S.Dispatch, m: Motion)
    ensures F.Acceptable(FilterInput(d, m))
  {
    if d.fix.Some? {
      var z := [d.fix.value.longitude, d.fix.value.latitude, 0.0, 0.0, 0.0, 0.0];
      assert F.GpsMeasurement(z);
    }
  }

  /** A fix where the controller has started the filter does not surprise it: its innovation is zero. */
  lemma FixAtStartIsExpected(d: S.Dispatch, m: Motion, bounds: F.Bounds, nGps: nat, lGps: nat, nImu: nat, lImu: nat)
    requires d.fix.Some?
    ensures var f := F.ControllerStart(d.fix.value.latitude, d.fix.value.longitude, bounds, nGps, lGps, nImu, lImu);
      var i := FilterInput(d, m);
      && i.WithGps? && |i.zGps| == |f.x| == 6
      && L.VSub(i.zGps, L.MatVec(F.ObservationGps(), f.x)) == L.Zeros(6)
  {
    var x := [d.fix.value.longitude, d.fix.value.latitude, 1e-15, 1e-15, 1e-16, 1e-16];
    L.DiagonalActs(F.GPS_MASK, x);
    var z, y := FilterInput(d, m).zGps, L.MatVec(F.ObservationGps(), x);
    forall k | 0 <= k < 6 ensures L.VSub(z, y)[k] == 0.0 {
      assert y[k] == F.GPS_MASK[k] * x[k];
    }
  }

  /** A motion with the acceleration the filter holds does not surprise it, whatever its velocity. */
  lemma SameMotionIsExpected(d: S.Dispatch, m: Motion, x: L.Vec)
    requires |x| == 6 && x[4] == m.ax && x[5] == m.ay
    ensures var z := FilterInput(d, m).zImu;
      |z| == 6 && L.VSub(F.ClearedVelocity(z), L.MatVec(F.ObservationImu(), x)) == L.Zeros(6)
  {
    L.DiagonalActs(F.IMU_MASK, x);
    var z, y := F.ClearedVelocity(FilterInput(d, m).zImu), L.MatVec(F.ObservationImu(), x);
    forall k | 0 <= k < 6 ensures L.VSub(z, y)[k] == 0.0 {
      assert y[k] == F.IMU_MASK[k] * x[k];
    }
  }

  /** What the pairing tests before a dispatch is what the rotation to true north needs, and a latitude on the globe. */
  lemma MeasurableIsRotatable(fix: S.Fix, rv: S.Rotation, n: real, a: R.Vector, c: real, s: real)
    requires R.IsNorm(n, R.Quaternion(rv.i, rv.j, rv.k, rv.w))
    ensures S.Measurable(fix, rv)
       <==> -90.0 <= fix.latitude <= 90.0 && R.ToTrueEnu(rv.w, rv.i, rv.j, rv.k, a, n, c, s).Some?
  {
    SmallNorm(n, rv.i * rv.i, rv.j * rv.j, rv.k * rv.k, rv.w * rv.w);
    RotatableIs(rv.w, rv.i, rv.j, rv.k, a, n, c, s);
    hide R.ToTrueEnu;
  }

  lemma SmallNorm(n: real, ii: real, jj: real, kk: real, ww: real)
    requires n >= 0.0 && n * n == ii + jj + kk + ww
    ensures n < 1e-12 <==> ww + ii + jj + kk < 1e-24
  {
    var q := n * n;
    if n < 1e-12 {
      L.ProductSign(1e-12 - n, 1e-12 + n, (1e-12 - n) * (1e-12 + n));
    } else {
      var d := n - 1e-12;
      var e := d * d;
      L.SquareSign(d, e);
      assert q == e + 2e-12 * d + 1e-24;
    }
  }

  lemma RotatableIs(w: real, i: real, j: real, k: real, a: R.Vector, n: real, c: real, s: real)
    ensures R.ToTrueEnu(w, i, j, k, a, n, c, s).Some? <==> n >= 1e-12
  {
    hide R.MagneticMatrix, R.Times, R.Declined;
  }

  /**
   Whatever events arrive and in whatever order, every call into the filter is one it is made for,
   its step lies in (0, 0.5], and the covariances it works with are positive definite throughout.
   */
  lemma FilterNeverBreaks(run: seq<S.Event>, ms: seq<Motion>, lat: real, lon: real, bounds: F.Bounds,
                          nGps: nat, lGps: nat, nImu: nat, lImu: nat, cos: real -> real)
    requires |ms| == |S.After(run).dispatches| && F.IsCosine(cos)
    ensures var inputs := FilterInputs(S.After(run).dispatches, ms);
      var start := F.ControllerStart(lat, lon, bounds, nGps, lGps, nImu, lImu);
      && F.AllAcceptable(inputs) && F.Sound(start)
      && (forall k :: 0 <= k < |inputs| ==> 0.0 < inputs[k].dt <= 0.5)
      && P.Definite(F.Run(start, cos, inputs).p, 6)
      && P.Definite(F.Run(start, cos, inputs).rGps, 6)
      && P.Definite(F.Run(start, cos, inputs).rImu, 6)
  {
    hide F.Acceptable, F.Run, F.Sound, F.ControllerStart, P.Definite, S.After, FilterInput;
    var ds := S.After(run).dispatches;
    var inputs := FilterInputs(ds, ms);
    forall k | 0 <= k < |inputs| ensures F.Acceptable(inputs[k]) {
      InputAcceptable(ds[k], ms[k]);
    }
    F.RunsStayDefinite(lat, lon, bounds, nGps, lGps, nImu, lImu, cos, inputs);
  }
}
