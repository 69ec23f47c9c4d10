/**
 How GPS fixes and inertial samples are paired before they reach the filter.  Each callback is one
 step; a sequence of events is a run.
 */
module SensorPairing {
  import opened Wrappers

  datatype Fix = Fix(valid: bool, timestamp: real, latitude: real, longitude: real)

  /** Hardware timestamps are unsigned 64-bit microseconds. */
  datatype Acceleration = Acceleration(x: real, y: real, z: real, timestamp: nat)
  datatype Rotation = Rotation(w: real, i: real, j: real, k: real, timestamp: nat)
  datatype Rate = Rate(roll: real, pitch: real, raw: real, timestamp: nat)

  /** A fix with its age at the moment of the call, or one call of the sensor callback. */
  datatype Event =
    | Gps(update: Fix, age: real)
    | Sensor(rv: Option<Rotation>, la: Option<Acceleration>, rr: Option<Rate>)

  /** One call into the filter; at, laAt and rvAt are the positions of events in the run. */
  datatype Dispatch = Dispatch(at: nat, fix: Option<Fix>, la: Acceleration, laAt: nat, rv: Rotation, rvAt: nat, dt: real)

  datatype State = State(
    rotationReady: bool, accelerationReady: bool, rateReady: bool,
    rotation: Rotation, acceleration: Acceleration, rate: Rate,
    latestGps: Option<Fix>, gpsSent: bool, lastTime: nat,
    // history
    clock: nat, laAt: nat, rvAt: nat, dispatches: seq<Dispatch>)

  const STALE_TIME_OUT_SECONDS: real := 5.0
  const WORD: int := 0x1_0000_0000_0000_0000

  function Initial(): State {
    State(false, false, false, Rotation(0.0, 0.0, 0.0, 0.0, 0), Acceleration(0.0, 0.0, 0.0, 0), Rate(0.0, 0.0, 0.0, 0),
          None, false, 0, 0, 0, 0, [])
  }

  /** The fix is valid, not stale, and newer than the one before. */
  predicate Accepts(s: State, u: Fix, age: real) {
    u.valid && age <= STALE_TIME_OUT_SECONDS && (s.latestGps.Some? ==> u.timestamp > s.latestGps.value.timestamp)
  }

  function Stored(s: State, e: Event): State
    requires e.Sensor?
  {
    s.(accelerationReady := s.accelerationReady || e.la.Some?,
       acceleration := if e.la.Some? then e.la.value else s.acceleration,
       laAt := if e.la.Some? then s.clock else s.laAt,
       rotationReady := s.rotationReady || e.rv.Some?,
       rotation := if e.rv.Some? then e.rv.value else s.rotation,
       rvAt := if e.rv.Some? then s.clock else s.rvAt,
       rateReady := s.rateReady || e.rr.Some?,
       rate := if e.rr.Some? then e.rr.value else s.rate)
  }

  predicate Ready(s: State) {
    s.rotationReady && s.accelerationReady && s.rateReady
  }

  /** Otherwise a latitude or a quaternion makes the measurement throw, and nothing is dispatched. */
  predicate Measurable(fix: Fix, rv: Rotation) {
    -90.0 <= fix.latitude <= 90.0
    && rv.w * rv.w + rv.i * rv.i + rv.j * rv.j + rv.k * rv.k >= 1e-24
  }

  function Oldest(s: State): nat {
    if s.acceleration.timestamp <= s.rotation.timestamp then s.acceleration.timestamp else s.rotation.timestamp
  }

  /** The unsigned difference, which wraps when the sensors' clock has gone back; a hundredth of a second if it is zero. */
  function Since(time: nat, last: nat): (dt: real)
    ensures dt > 0.0
    ensures 0 < time - last < WORD ==> dt * 1000000.0 == (time - last) as real
  {
    var d := (time - last) % WORD;
    if d == 0 then 0.01 else d as real / 1000000.0
  }

  function Elapsed(s: State): (dt: real)
    ensures dt > 0.0
  {
    Since(Oldest(s), s.lastTime)
  }

  function Dispatched(s: State): State
    requires s.latestGps.Some?
  {
    var fix := if s.gpsSent then None else s.latestGps;
    s.(lastTime := Oldest(s), gpsSent := true, rotationReady := false, accelerationReady := false,
       dispatches := s.dispatches + [Dispatch(s.clock, fix, s.acceleration, s.laAt, s.rotation, s.rvAt, Elapsed(s))])
  }

  function Handled(s: State, e: Event): State {
    match e
    case Gps(u, age) => if Accepts(s, u, age) then s.(latestGps := Some(u), gpsSent := false) else s
    case Sensor(_, _, _) =>
      var t := Stored(s, e);
      if Ready(t) && t.latestGps.Some? && Measurable(t.latestGps.value, t.rotation) then Dispatched(t) else t
  }

  function Apply(s: State, e: Event): State {
    var t := Handled(s, e);
    t.(clock := s.clock + 1)
  }

  function After(run: seq<Event>): State {
    if run == [] then Initial() else Apply(After(run[..|run| - 1]), run[|run| - 1])
  }

  // ---------- the controller ----------

  /** The step width the filter is run with. */
  function Clamped(dt: real): (r: real)
    ensures 0.0 < r <= 0.5
    ensures 0.0 < dt <= 0.5 ==> r == dt
  {
    if dt <= 0.0 || dt > 0.5 then 0.01 else dt
  }

  // ---------- what every event keeps ----------

  /** Of the events before end, number k is the last with an acceleration, and it is la. */
  predicate NewestAcceleration(run: seq<Event>, end: nat, k: nat, la: Acceleration) {
    && k < end <= |run| && run[k].Sensor? && run[k].la == Some(la)
    && forall j :: k < j < end && run[j].Sensor? ==> run[j].la.None?
  }

  predicate NewestRotation(run: seq<Event>, end: nat, k: nat, rv: Rotation) {
    && k < end <= |run| && run[k].Sensor? && run[k].rv == Some(rv)
    && forall j :: k < j < end && run[j].Sensor? ==> run[j].rv.None?
  }

  /** A dispatch uses the newest samples of the run. */
  predicate Carried(run: seq<Event>, d: Dispatch) {
    NewestAcceleration(run, d.at + 1, d.laAt, d.la) && NewestRotation(run, d.at + 1, d.rvAt, d.rv)
  }

  /** What is held for the next dispatch is the newest of its kind in the run. */
  predicate Held(run: seq<Event>, s: State) {
    && (s.accelerationReady ==> NewestAcceleration(run, |run|, s.laAt, s.acceleration))
    && (s.rotationReady ==> NewestRotation(run, |run|, s.rvAt, s.rotation))
  }

  predicate AllCarried(run: seq<Event>, ds: seq<Dispatch>) {
    forall k :: 0 <= k < |ds| ==> Carried(run, ds[k])
  }

  /** Both samples of a dispatch were stored after the dispatch before it. */
  predicate Apart(ds: seq<Dispatch>) {
    forall k :: 0 < k < |ds| ==> ds[k - 1].at < ds[k].laAt && ds[k - 1].at < ds[k].rvAt
  }

  predicate HeldApart(s: State) {
    s.dispatches != [] ==>
      var last := s.dispatches[|s.dispatches| - 1];
      && (s.accelerationReady ==> last.at < s.laAt)
      && (s.rotationReady ==> last.at < s.rvAt)
      && last.at < s.clock
  }

  /** The timestamps of the fixes dispatched, in order. */
  function FixTimes(ds: seq<Dispatch>): seq<real> {
    if ds == [] then []
    else
      var d := ds[|ds| - 1];
      FixTimes(ds[..|ds| - 1]) + if d.fix.Some? then [d.fix.value.timestamp] else []
  }

  predicate Increasing(ts: seq<real>) {
    forall a, b :: 0 <= a < b < |ts| ==> ts[a] < ts[b]
  }

  /** All fixes dispatched are older than an unsent one, and no newer than a sent one. */
  predicate Bounded(ts: seq<real>, latest: Option<Fix>, sent: bool) {
    forall a :: 0 <= a < |ts| ==>
      && latest.Some?
      && ts[a] <= latest.value.timestamp
      && (!sent ==> ts[a] < latest.value.timestamp)
  }

  predicate FixesBounded(s: State) {
    Bounded(FixTimes(s.dispatches), s.latestGps, s.gpsSent)
  }

  predicate Inv(run: seq<Event>, s: State) {
    && s.clock == |run| && Held(run, s) && AllCarried(run, s.dispatches) && Apart(s.dispatches) && HeldApart(s)
    && Increasing(FixTimes(s.dispatches)) && FixesBounded(s)
  }

  lemma NewestExtends(run: seq<Event>, e: Event)
    ensures forall end, k, la {:trigger NewestAcceleration(run + [e], end, k, la)} ::
      NewestAcceleration(run, end, k, la) ==> NewestAcceleration(run + [e], end, k, la)
    ensures forall end, k, rv {:trigger NewestRotation(run + [e], end, k, rv)} ::
      NewestRotation(run, end, k, rv) ==> NewestRotation(run + [e], end, k, rv)
  {
  }

  /** Storing the samples of an event keeps what is held the newest. */
  lemma StoredHeld(run: seq<Event>, s: State, e: Event)
    requires s.clock == |run| && Held(run, s) && e.Sensor?
    ensures Held(run + [e], Stored(s, e))
  {
    var r, t := run + [e], Stored(s, e);
    if t.accelerationReady {
      assert NewestAcceleration(r, |r|, t.laAt, t.acceleration);
    }
    if t.rotationReady {
      assert NewestRotation(r, |r|, t.rvAt, t.rotation);
    }
  }

  lemma StoredApart(s: State, e: Event)
    requires HeldApart(s) && e.Sensor?
    ensures HeldApart(Stored(s, e))
  {
  }

  lemma GpsHeld(run: seq<Event>, s: State, t: State, e: Event)
    requires Held(run, s) && e.Gps? && t.accelerationReady == s.accelerationReady && t.rotationReady == s.rotationReady
    requires t.laAt == s.laAt && t.rvAt == s.rvAt && t.acceleration == s.acceleration && t.rotation == s.rotation
    ensures Held(run + [e], t)
  {
    if s.accelerationReady {
      assert NewestAcceleration(run + [e], |run + [e]|, s.laAt, s.acceleration);
    }
    if s.rotationReady {
      assert NewestRotation(run + [e], |run + [e]|, s.rvAt, s.rotation);
    }
  }

  lemma GpsFixes(s: State, e: Event)
    requires e.Gps? && FixesBounded(s) && HeldApart(s)
    ensures FixesBounded(Apply(s, e)) && HeldApart(Apply(s, e))
  {
    hide Dispatched, Stored, Ready, FixTimes;
    var ts := FixTimes(s.dispatches);
    assert Bounded(ts, s.latestGps, s.gpsSent);
    if Accepts(s, e.update, e.age) {
      assert Bounded(ts, Some(e.update), false);
    }
  }

  lemma GpsKeeps(run: seq<Event>, s: State, e: Event)
    requires Inv(run, s) && e.Gps?
    ensures Inv(run + [e], Apply(s, e))
  {
    var t := Apply(s, e);
    GpsHeld(run, s, t, e);
    GpsFixes(s, e);
    CarriedOn(run, s.dispatches, e);
    hide AllCarried, Apart, Increasing, FixTimes, Held, HeldApart, FixesBounded, Dispatched, Stored, Ready;
  }

  lemma CarriedOn(run: seq<Event>, ds: seq<Dispatch>, e: Event)
    requires AllCarried(run, ds)
    ensures AllCarried(run + [e], ds)
  {
    NewestExtends(run, e);
    hide NewestAcceleration, NewestRotation;
  }

  lemma FixTimesAppend(ds: seq<Dispatch>, d: Dispatch)
    ensures FixTimes(ds + [d]) == FixTimes(ds) + if d.fix.Some? then [d.fix.value.timestamp] else []
  {
    assert (ds + [d])[..|ds|] == ds;
  }

  lemma DispatchedFixes(t: State)
    requires t.latestGps.Some? && Increasing(FixTimes(t.dispatches)) && FixesBounded(t)
    ensures Increasing(FixTimes(Dispatched(t).dispatches)) && FixesBounded(Dispatched(t))
  {
    hide Elapsed, Oldest;
    var u := Dispatched(t);
    FixTimesAppend(t.dispatches, u.dispatches[|t.dispatches|]);
    hide FixTimes;
  }

  lemma DispatchedCarried(run: seq<Event>, t: State)
    requires run != [] && t.clock == |run| - 1 && Held(run, t) && AllCarried(run, t.dispatches)
    requires t.latestGps.Some? && t.accelerationReady && t.rotationReady
    ensures AllCarried(run, Dispatched(t).dispatches)
  {
    hide Elapsed, Oldest, NewestAcceleration, NewestRotation;
  }

  lemma DispatchedApart(t: State)
    requires t.latestGps.Some? && t.accelerationReady && t.rotationReady && Apart(t.dispatches) && HeldApart(t)
    ensures Apart(Dispatched(t).dispatches)
  {
    hide Elapsed, Oldest;
  }

  predicate Goes(t: State) {
    Ready(t) && t.latestGps.Some? && Measurable(t.latestGps.value, t.rotation)
  }

  lemma SensorIs(s: State, e: Event)
    requires e.Sensor?
    ensures var t := Stored(s, e);
      && Apply(s, e) == (if Goes(t) then Dispatched(t) else t).(clock := s.clock + 1)
      && t.dispatches == s.dispatches && t.latestGps == s.latestGps && t.gpsSent == s.gpsSent && t.clock == s.clock
  {
    hide Measurable, Dispatched;
  }

  lemma GoesIs(t: State)
    requires Goes(t)
    ensures t.latestGps.Some? && t.accelerationReady && t.rotationReady
  {
  }

  lemma SensorKeeps(run: seq<Event>, s: State, e: Event)
    requires Inv(run, s) && e.Sensor?
    ensures Inv(run + [e], Apply(s, e))
  {
    var r, t := run + [e], Stored(s, e);
    StoredHeld(run, s, e);
    StoredApart(s, e);
    CarriedOn(run, s.dispatches, e);
    SensorIs(s, e);
    assert FixesBounded(t);
    hide Stored, Goes, Held, HeldApart, FixesBounded, AllCarried, Apart, Increasing, FixTimes, Apply;
    if Goes(t) {
      GoesIs(t);
      DispatchedFixes(t);
      DispatchedCarried(r, t);
      DispatchedApart(t);
      DispatchedRest(r, t);
      DispatchedInv(r, t);
    } else {
      ClockForward(r, t);
    }
  }

  lemma DispatchedInv(run: seq<Event>, t: State)
    requires t.latestGps.Some? && Increasing(FixTimes(Dispatched(t).dispatches))
    requires AllCarried(run, Dispatched(t).dispatches) && Apart(Dispatched(t).dispatches)
    requires var u := Dispatched(t).(clock := |run|); Held(run, u) && HeldApart(u) && FixesBounded(u)
    ensures Inv(run, Dispatched(t).(clock := |run|))
  {
    hide Dispatched, Held, HeldApart, FixesBounded, AllCarried, Apart, Increasing, FixTimes;
  }

  lemma DispatchedRest(run: seq<Event>, t: State)
    requires t.latestGps.Some? && t.clock < |run|
    ensures var u := Dispatched(t).(clock := |run|);
      Held(run, u) && HeldApart(u) && (FixesBounded(Dispatched(t)) ==> FixesBounded(u))
  {
    hide Elapsed, Oldest, FixTimes, NewestAcceleration, NewestRotation;
  }

  lemma ClockForward(run: seq<Event>, t: State)
    requires Held(run, t) && HeldApart(t) && FixesBounded(t) && t.clock < |run|
    ensures var u := t.(clock := |run|); Held(run, u) && HeldApart(u) && FixesBounded(u)
  {
  }

  lemma {:induction false} Reachable(run: seq<Event>)
    ensures Inv(run, After(run))
  {
    hide Inv, Apply;
    if run == [] {
      InitialInv();
    } else {
      var n := |run| - 1;
      Reachable(run[..n]);
      assert run == run[..n] + [run[n]];
      if run[n].Gps? {
        GpsKeeps(run[..n], After(run[..n]), run[n]);
      } else {
        SensorKeeps(run[..n], After(run[..n]), run[n]);
      }
    }
  }

  lemma InitialInv()
    ensures Inv([], Initial())
  {
  }

  // ---------- the properties of every run ----------

  /** The fixes that reach the filter have strictly increasing timestamps, so none reaches it twice. */
  lemma FixesIncrease(run: seq<Event>)
    ensures Increasing(FixTimes(After(run).dispatches))
  {
    hide *;
    Reachable(run);
    InvFixes(run, After(run));
  }

  lemma InvFixes(run: seq<Event>, s: State)
    requires Inv(run, s)
    ensures Increasing(FixTimes(s.dispatches)) && s.clock == |run|
  {
  }

  /**
   Every dispatch uses the newest acceleration and the newest rotation vector of the run, both
   stored since the dispatch before it, and runs the filter with a step in (0, 0.5].
   */
  lemma DispatchesArePaired(run: seq<Event>, k: nat)
    requires k < |After(run).dispatches|
    ensures var ds := After(run).dispatches;
      && NewestAcceleration(run, ds[k].at + 1, ds[k].laAt, ds[k].la)
      && NewestRotation(run, ds[k].at + 1, ds[k].rvAt, ds[k].rv)
      && (k > 0 ==> ds[k - 1].at < ds[k].laAt && ds[k - 1].at < ds[k].rvAt)
      && 0.0 < Clamped(ds[k].dt) <= 0.5
  {
    hide After, NewestAcceleration, NewestRotation;
    Reachable(run);
    assert Carried(run, After(run).dispatches[k]);
  }

  lemma DispatchGrows(s: State, e: Event)
    requires |Apply(s, e).dispatches| > |s.dispatches|
    ensures var t := Apply(s, e);
      var d := t.dispatches[|s.dispatches|];
      && s.latestGps.Some? && d.at == s.clock && t.gpsSent
      && d.fix == (if s.gpsSent then None else s.latestGps)
  {
    hide Measurable, Elapsed, Oldest;
    if e.Sensor? {
      SensorIs(s, e);
      hide Apply, Stored;
    }
  }

  // ---------- where an accepted fix goes ----------

  ghost predicate AcceptedAt(run: seq<Event>, k: nat) {
    k < |run| && run[k].Gps? && Accepts(After(run[..k]), run[k].update, run[k].age)
  }

  ghost predicate DispatchesAt(run: seq<Event>, k: nat) {
    k < |run| && |After(run[..k + 1]).dispatches| > |After(run[..k]).dispatches|
  }

  /** The dispatch that event k of the run makes. */
  ghost function DispatchAt(run: seq<Event>, k: nat): Dispatch
    requires DispatchesAt(run, k)
  {
    After(run[..k + 1]).dispatches[|After(run[..k]).dispatches|]
  }

  /** Event i is the last before j that brought an accepted fix. */
  ghost predicate LatestAccepted(run: seq<Event>, i: nat, j: nat) {
    i < j <= |run| && AcceptedAt(run, i) && forall k :: i < k < j ==> !AcceptedAt(run, k)
  }

  ghost predicate DispatchesBetween(run: seq<Event>, i: nat, j: nat) {
    exists k :: i < k < j && DispatchesAt(run, k)
  }

  /** What one event does to the fix that is held and to the mark that it was sent. */
  lemma FixStep(s: State, e: Event)
    ensures var t := Apply(s, e);
      if e.Gps? && Accepts(s, e.update, e.age) then
        t.latestGps == Some(e.update) && !t.gpsSent && t.dispatches == s.dispatches
      else t.latestGps == s.latestGps && t.gpsSent == (s.gpsSent || |t.dispatches| > |s.dispatches|)
  {
    hide Measurable, Elapsed, Oldest;
    if e.Sensor? {
      SensorIs(s, e);
      hide Apply, Stored, Accepts;
    }
  }

  lemma AfterNext(run: seq<Event>, k: nat)
    requires k < |run|
    ensures After(run[..k + 1]) == Apply(After(run[..k]), run[k])
  {
    assert run[..k + 1] == run[..k] + [run[k]];
    AfterAppend(run[..k], run[k]);
  }

  /** Until the next one is accepted, the fix of event i is held, marked as sent once a dispatch has been made. */
  lemma {:induction false} HeldUntilReplaced(run: seq<Event>, i: nat, j: nat)
    requires LatestAccepted(run, i, j)
    ensures After(run[..j]).latestGps == Some(run[i].update)
    ensures After(run[..j]).gpsSent <==> DispatchesBetween(run, i, j)
  {
    hide After, Apply, Accepts;
    AfterNext(run, j - 1);
    FixStep(After(run[..j - 1]), run[j - 1]);
    if i < j - 1 {
      HeldUntilReplaced(run, i, j - 1);
      assert !AcceptedAt(run, j - 1);
      assert DispatchesBetween(run, i, j) <==> DispatchesBetween(run, i, j - 1) || DispatchesAt(run, j - 1);
    }
  }

  lemma KeptUnlessAccepted(run: seq<Event>, k: nat)
    requires k < |run| && !AcceptedAt(run, k)
    ensures After(run[..k + 1]).latestGps == After(run[..k]).latestGps
  {
    hide After, Apply, Accepts;
    AfterNext(run, k);
    FixStep(After(run[..k]), run[k]);
  }

  /** A fix is held only if one was accepted. */
  lemma {:induction false} HeldWasAccepted(run: seq<Event>, j: nat) returns (i: nat)
    requires j <= |run| && After(run[..j]).latestGps.Some?
    ensures LatestAccepted(run, i, j)
  {
    assert run[..0] == [];
    assert j > 0;
    hide After, AcceptedAt;
    if AcceptedAt(run, j - 1) {
      i := j - 1;
    } else {
      KeptUnlessAccepted(run, j - 1);
      i := HeldWasAccepted(run, j - 1);
    }
  }

  /** What an event of a run does is the same in every longer run. */
  lemma SameInLonger(run: seq<Event>, n: nat, j: nat)
    requires n <= |run| && DispatchesAt(run[..n], j)
    ensures DispatchesAt(run, j) && DispatchAt(run, j) == DispatchAt(run[..n], j)
  {
    hide After;
    assert run[..n][..j] == run[..j] && run[..n][..j + 1] == run[..j + 1];
  }

  /** Event j of the run makes the dispatch d. */
  ghost predicate Makes(run: seq<Event>, j: nat, d: Dispatch) {
    d.at == j && DispatchesAt(run, j) && DispatchAt(run, j) == d
  }

  lemma LastDispatch(run: seq<Event>, e: Event, s: State, t: State)
    requires s == After(run) && t == Apply(s, e) && |t.dispatches| > |s.dispatches|
    ensures Makes(run + [e], |run|, t.dispatches[|s.dispatches|])
  {
    hide Apply, Inv;
    AfterAppend(run, e);
    assert (run + [e])[..|run|] == run && (run + [e])[..|run| + 1] == run + [e];
    hide After;
    Reachable(run);
    InvFixes(run, s);
    DispatchGrows(s, e);
  }

  /** The recorded dispatches are those the events make. */
  lemma {:induction false} Recorded(run: seq<Event>, k: nat, d: Dispatch)
    requires k < |After(run).dispatches| && After(run).dispatches[k] == d
    ensures Makes(run, d.at, d)
  {
    assert run != [];
    var n := |run| - 1;
    var r, e := run[..n], run[n];
    var s := After(r);
    hide Apply, DispatchesAt, DispatchAt;
    DispatchesAppend(s, e);
    if k < |s.dispatches| {
      Recorded(r, k, d);
      SameInLonger(run, n, d.at);
    } else {
      LastDispatch(r, e, s, Apply(s, e));
      assert r + [e] == run;
    }
  }

  lemma DispatchesAppend(s: State, e: Event)
    ensures s.dispatches <= Apply(s, e).dispatches && |Apply(s, e).dispatches| <= |s.dispatches| + 1
  {
    hide Measurable, Elapsed, Oldest;
    if e.Sensor? {
      SensorIs(s, e);
      hide Apply, Stored;
    }
  }

  /**
   With event i the last accepted fix before the dispatch of event j, that dispatch carries it
   if it is the first since, and no fix if it is a later one.
   */
  lemma NextDispatchCarriesFix(run: seq<Event>, i: nat, j: nat)
    requires LatestAccepted(run, i, j) && DispatchesAt(run, j)
    ensures DispatchAt(run, j).fix == if DispatchesBetween(run, i, j) then None else Some(run[i].update)
  {
    hide After, Apply, Accepts;
    AfterNext(run, j);
    DispatchGrows(After(run[..j]), run[j]);
    HeldUntilReplaced(run, i, j);
  }

  /** Every dispatch of a run is made by one event, which an accepted fix precedes. */
  lemma EveryDispatchFollowsFix(run: seq<Event>, k: nat)
    requires k < |After(run).dispatches|
    ensures var d := After(run).dispatches[k];
      Makes(run, d.at, d) && exists i :: LatestAccepted(run, i, d.at)
  {
    var j := After(run).dispatches[k].at;
    Recorded(run, k, After(run).dispatches[k]);
    hide After, Apply, Accepts, Inv;
    AfterNext(run, j);
    DispatchGrows(After(run[..j]), run[j]);
    var i := HeldWasAccepted(run, j);
  }

  // ---------- which fixes are accepted ----------

  /** A fix that is valid and not stale. */
  predicate Usable(e: Event) {
    e.Gps? && e.update.valid && e.age <= 5.0
  }

  ghost predicate UsableAt(run: seq<Event>, k: nat) {
    k < |run| && Usable(run[k])
  }

  /** The fix held is a usable one of the run, and none of them is newer. */
  ghost predicate HoldsNewest(run: seq<Event>, s: State) {
    && (forall k: nat :: UsableAt(run, k) ==> s.latestGps.Some? && run[k].update.timestamp <= s.latestGps.value.timestamp)
    && (s.latestGps.Some? ==> exists k: nat :: UsableAt(run, k) && s.latestGps == Some(run[k].update))
  }

  lemma HoldsNewestStep(run: seq<Event>, s: State, e: Event)
    requires HoldsNewest(run, s)
    ensures HoldsNewest(run + [e], Apply(s, e))
  {
    hide Apply;
    var all, t := run + [e], Apply(s, e);
    FixStep(s, e);
    forall k: nat | k < |run| ensures UsableAt(all, k) == UsableAt(run, k) && all[k] == run[k] {
    }
    if e.Gps? && Accepts(s, e.update, e.age) {
      assert UsableAt(all, |run|) && t.latestGps == Some(all[|run|].update);
    } else if s.latestGps.Some? {
      var k: nat :| UsableAt(run, k) && s.latestGps == Some(run[k].update);
      assert UsableAt(all, k) && t.latestGps == Some(all[k].update);
    }
  }

  lemma {:induction false} HeldIsNewest(run: seq<Event>)
    ensures HoldsNewest(run, After(run))
  {
    hide Apply, HoldsNewest;
    if run == [] {
      NothingHeld();
    } else {
      var n := |run| - 1;
      HeldIsNewest(run[..n]);
      HoldsNewestStep(run[..n], After(run[..n]), run[n]);
      assert run[..n] + [run[n]] == run;
    }
  }

  lemma NothingHeld()
    ensures HoldsNewest([], After([]))
  {
  }

  /** A fix is accepted exactly if it is valid, at most five seconds old and newer than every such fix before it. */
  lemma AcceptedExactly(run: seq<Event>, i: nat)
    requires i < |run|
    ensures AcceptedAt(run, i) <==>
      Usable(run[i]) && forall k: nat :: k < i && Usable(run[k]) ==> run[k].update.timestamp < run[i].update.timestamp
    ensures AcceptedAt(run, i) ==> After(run[..i + 1]).latestGps == Some(run[i].update)
  {
    var s := After(run[..i]);
    HeldIsNewest(run[..i]);
    AfterNext(run, i);
    hide After, Apply;
    FixStep(s, run[i]);
    forall k: nat | k < i ensures UsableAt(run[..i], k) <==> Usable(run[k]) {
    }
    if s.latestGps.Some? {
      var k: nat :| UsableAt(run[..i], k) && s.latestGps == Some(run[..i][k].update);
      assert Usable(run[k]) && run[..i][k] == run[k];
    }
  }

  /** Every fix that reaches the filter came with an event before it, valid and at most five seconds old. */
  lemma FusedFixIsUsable(run: seq<Event>, k: nat)
    requires k < |After(run).dispatches| && After(run).dispatches[k].fix.Some?
    ensures var d := After(run).dispatches[k];
      exists i: nat :: i < d.at <= |run| && run[i].Gps? && run[i].update == d.fix.value && d.fix.value.valid && run[i].age <= 5.0
  {
    EveryDispatchFollowsFix(run, k);
    var d := After(run).dispatches[k];
    hide After;
    var i :| LatestAccepted(run, i, d.at);
    NextDispatchCarriesFix(run, i, d.at);
    AcceptedExactly(run, i);
  }

  // ---------- when an event dispatches ----------

  ghost predicate NoDispatch(run: seq<Event>, i: nat, j: nat) {
    forall k: nat :: i <= k < j ==> !DispatchesAt(run, k)
  }

  ghost predicate AccelerationAt(run: seq<Event>, i: nat) {
    i < |run| && run[i].Sensor? && run[i].la.Some?
  }

  ghost predicate RotationAt(run: seq<Event>, i: nat) {
    i < |run| && run[i].Sensor? && run[i].rv.Some?
  }

  ghost predicate RateAt(run: seq<Event>, i: nat) {
    i < |run| && run[i].Sensor? && run[i].rr.Some?
  }

  /** Up to event j, not included, a sample has come and no dispatch since has used it. */
  ghost predicate Unused(run: seq<Event>, i: nat, j: nat) {
    i < j && NoDispatch(run, i, j)
  }

  /** What the flags mean after the first j events. */
  ghost predicate FlagsMean(run: seq<Event>, j: nat, s: State) {
    && (s.accelerationReady <==> exists i: nat :: AccelerationAt(run, i) && Unused(run, i, j))
    && (s.rotationReady <==> exists i: nat :: RotationAt(run, i) && Unused(run, i, j))
    && (s.rateReady <==> exists i: nat :: RateAt(run, i) && i < j)
  }

  /** Of the state before an event and the event, the flags after it. */
  lemma FlagsStep(s: State, e: Event)
    ensures var t := Apply(s, e); var goes := |t.dispatches| > |s.dispatches|;
      && (t.accelerationReady <==> !goes && (s.accelerationReady || (e.Sensor? && e.la.Some?)))
      && (t.rotationReady <==> !goes && (s.rotationReady || (e.Sensor? && e.rv.Some?)))
      && (t.rateReady <==> s.rateReady || (e.Sensor? && e.rr.Some?))
  {
    hide Measurable, Elapsed, Oldest;
  }

  lemma UnusedStep(run: seq<Event>, i: nat, j: nat)
    ensures Unused(run, i, j + 1) <==> !DispatchesAt(run, j) && (i == j || Unused(run, i, j))
  {
    hide DispatchesAt;
    if !DispatchesAt(run, j) && (i == j || Unused(run, i, j)) {
      assert NoDispatch(run, i, j + 1);
    }
    if Unused(run, i, j + 1) {
      assert i < j ==> NoDispatch(run, i, j);
    }
  }

  lemma {:induction false} FlagsAre(run: seq<Event>, j: nat)
    requires j <= |run|
    ensures FlagsMean(run, j, After(run[..j]))
  {
    if j == 0 {
      assert run[..0] == [];
    } else {
      hide After, Apply, Unused, DispatchesAt;
      var k := j - 1;
      FlagsAre(run, k);
      AfterNext(run, k);
      FlagsStep(After(run[..k]), run[k]);
      GrowthIsDispatch(run, k);
      forall i: nat ensures Unused(run, i, j) <==> !DispatchesAt(run, k) && (i == k || Unused(run, i, k)) {
        UnusedStep(run, i, k);
      }
      FlagsNext(run, k, After(run[..k]), After(run[..j]));
    }
  }

  lemma GrowthIsDispatch(run: seq<Event>, k: nat)
    requires k < |run|
    ensures DispatchesAt(run, k) <==> |After(run[..k + 1]).dispatches| > |After(run[..k]).dispatches|
  {
    hide After;
  }

  lemma FlagsNext(run: seq<Event>, k: nat, s: State, t: State)
    requires k < |run| && FlagsMean(run, k, s)
    requires forall i: nat :: Unused(run, i, k + 1) <==> !DispatchesAt(run, k) && (i == k || Unused(run, i, k))
    requires t.accelerationReady <==> !DispatchesAt(run, k) && (s.accelerationReady || AccelerationAt(run, k))
    requires t.rotationReady <==> !DispatchesAt(run, k) && (s.rotationReady || RotationAt(run, k))
    requires t.rateReady <==> s.rateReady || RateAt(run, k)
    ensures FlagsMean(run, k + 1, t)
  {
    hide Unused, DispatchesAt;
    if AccelerationAt(run, k) && !DispatchesAt(run, k) {
      assert Unused(run, k, k + 1);
    }
    if RotationAt(run, k) && !DispatchesAt(run, k) {
      assert Unused(run, k, k + 1);
    }
  }

  /**
   An event dispatches exactly if it is one of the sensors', a rotation rate has come at any time, an
   acceleration and a rotation vector have come since the dispatch before, and there is a fix to measure with.
   */
  lemma DispatchesExactly(run: seq<Event>, j: nat)
    requires j < |run|
    ensures DispatchesAt(run, j) <==>
      && run[j].Sensor?
      && (exists i: nat :: i <= j && RateAt(run, i))
      && (exists i: nat :: i <= j && AccelerationAt(run, i) && NoDispatch(run, i, j))
      && (exists i: nat :: i <= j && RotationAt(run, i) && NoDispatch(run, i, j))
      && After(run[..j]).latestGps.Some?
      && Measurable(After(run[..j]).latestGps.value, Stored(After(run[..j]), run[j]).rotation)
  {
    var s, e := After(run[..j]), run[j];
    AfterNext(run, j);
    FlagsAre(run, j);
    hide After, Measurable, Elapsed, Oldest;
    if e.Sensor? {
      SensorIs(s, e);
      assert AccelerationAt(run, j) ==> NoDispatch(run, j, j);
      assert RotationAt(run, j) ==> NoDispatch(run, j, j);
      FlagsWith(run, j, s, Stored(s, e));
      GoesExactly(s, e);
    } else {
      FixStep(s, e);
      GpsNeverDispatches(s, e);
    }
  }

  lemma GpsNeverDispatches(s: State, e: Event)
    requires e.Gps?
    ensures Apply(s, e).dispatches == s.dispatches
  {
  }

  lemma GoesExactly(s: State, e: Event)
    requires e.Sensor?
    ensures |Apply(s, e).dispatches| > |s.dispatches| <==> Goes(Stored(s, e))
  {
    var t := Stored(s, e);
    StoredTime(s, e);
    SensorIs(s, e);
    if Goes(t) {
      DispatchedTime(t);
      assert |Apply(s, e).dispatches| == |Dispatched(t).dispatches|;
    } else {
      assert Apply(s, e).dispatches == t.dispatches;
    }
  }

  lemma FlagsWith(run: seq<Event>, j: nat, s: State, t: State)
    requires j < |run| && run[j].Sensor? && FlagsMean(run, j, s) && t == Stored(s, run[j])
    ensures t.accelerationReady <==> exists i: nat :: i <= j && AccelerationAt(run, i) && NoDispatch(run, i, j)
    ensures t.rotationReady <==> exists i: nat :: i <= j && RotationAt(run, i) && NoDispatch(run, i, j)
    ensures t.rateReady <==> exists i: nat :: i <= j && RateAt(run, i)
  {
    hide DispatchesAt;
    assert NoDispatch(run, j, j);
    assert t.rateReady <==> s.rateReady || RateAt(run, j);
    forall i: nat ensures Unused(run, i, j) <==> i < j && NoDispatch(run, i, j) {
    }
  }

  // ---------- the steps of the filter ----------

  /** The older of the two hardware times of a dispatch. */
  function OlderTime(d: Dispatch): nat {
    if d.la.timestamp <= d.rv.timestamp then d.la.timestamp else d.rv.timestamp
  }

  /** Each step but the first is the time since the dispatch before. */
  ghost predicate Timed(s: State) {
    && (s.dispatches != [] ==> s.lastTime == OlderTime(s.dispatches[|s.dispatches| - 1]))
    && forall k :: 0 < k < |s.dispatches| ==>
         s.dispatches[k].dt == Since(OlderTime(s.dispatches[k]), OlderTime(s.dispatches[k - 1]))
  }

  lemma TimedStep(s: State, e: Event)
    requires Timed(s)
    ensures Timed(Apply(s, e))
  {
    hide Measurable, Since, OlderTime, Stored;
    if e.Gps? {
      GpsNeverDispatches(s, e);
    } else {
      SensorIs(s, e);
      StoredTime(s, e);
      var t := Stored(s, e);
      if Goes(t) {
        DispatchedTime(t);
      }
    }
  }

  lemma StoredTime(s: State, e: Event)
    requires e.Sensor?
    ensures Stored(s, e).lastTime == s.lastTime && Stored(s, e).dispatches == s.dispatches
  {
  }

  lemma DispatchedTime(t: State)
    requires t.latestGps.Some?
    ensures var u := Dispatched(t);
      && u.dispatches[..|t.dispatches|] == t.dispatches && |u.dispatches| == |t.dispatches| + 1
      && u.lastTime == OlderTime(u.dispatches[|t.dispatches|])
      && u.dispatches[|t.dispatches|].dt == Since(u.lastTime, t.lastTime)
  {
  }

  lemma {:induction false} TimedRun(run: seq<Event>)
    ensures Timed(After(run))
  {
    hide Apply, Timed;
    if run == [] {
      NothingTimed();
    } else {
      TimedRun(run[..|run| - 1]);
      TimedStep(After(run[..|run| - 1]), run[|run| - 1]);
    }
  }

  lemma NothingTimed()
    ensures Timed(After([]))
  {
  }

  /** The steps that the controller hands to the filter with the dispatches after the first, added up. */
  function StepSum(ds: seq<Dispatch>): real {
    if |ds| <= 1 then 0.0 else StepSum(ds[..|ds| - 1]) + Clamped(ds[|ds| - 1].dt)
  }

  /** Each dispatch is later than the one before, by at most half a second. */
  predicate Steady(ds: seq<Dispatch>) {
    forall k :: 0 < k < |ds| ==> 0 < OlderTime(ds[k]) - OlderTime(ds[k - 1]) <= 500000
  }

  /** Over steady dispatches the steps of the filter add up to the time that has passed. */
  lemma StepsAddUp(run: seq<Event>, n: nat)
    requires var ds := After(run).dispatches; 0 < n <= |ds| && Steady(ds[..n])
    ensures var ds := After(run).dispatches;
      StepSum(ds[..n]) * 1000000.0 == (OlderTime(ds[n - 1]) - OlderTime(ds[0])) as real
  {
    TimedRun(run);
    hide After;
    TimedStepsAddUp(After(run).dispatches[..n]);
  }

  lemma {:induction false} TimedStepsAddUp(ds: seq<Dispatch>)
    requires ds != [] && Steady(ds)
    requires forall k :: 0 < k < |ds| ==> ds[k].dt == Since(OlderTime(ds[k]), OlderTime(ds[k - 1]))
    ensures StepSum(ds) * 1000000.0 == (OlderTime(ds[|ds| - 1]) - OlderTime(ds[0])) as real
  {
    hide OlderTime;
    var n := |ds| - 1;
    if n > 0 {
      TimedStepsAddUp(ds[..n]);
      var d := OlderTime(ds[n]) - OlderTime(ds[n - 1]);
      assert 0 < d <= 500000 && ds[n].dt * 1000000.0 == d as real;
      assert Clamped(ds[n].dt) == ds[n].dt;
    }
  }

  lemma AfterAppend(run: seq<Event>, e: Event)
    ensures After(run + [e]) == Apply(After(run), e)
  {
    assert (run + [e])[..|run|] == run;
  }

  /** No rotation rate, no dispatch: its flag is never reset, but it has to be set once. */
  lemma {:induction false} RateComesFirst(run: seq<Event>)
    requires forall k :: 0 <= k < |run| && run[k].Sensor? ==> run[k].rr.None?
    ensures !After(run).rateReady && After(run).dispatches == []
  {
    hide Measurable, Dispatched;
    if run != [] {
      var n := |run| - 1;
      RateComesFirst(run[..n]);
    }
  }

  // ---------- the object ----------

  class ImuManager {
    var imuRotationVectorReady: bool
    var imuLinearAccelerationReady: bool
    var imuRotationRateReady: bool
    var imuRotationVector: Rotation
    var imuLinearAcceleration: Acceleration
    var imuRotationRate: Rate
    var latestGps: Option<Fix>
    var gpsSentToEkf: bool
    var lastEkfMachineTime: nat
    ghost var clock: nat
    ghost var laAt: nat
    ghost var rvAt: nat
    ghost var dispatches: seq<Dispatch>

    ghost function Model(): State
      reads this
    {
      State(imuRotationVectorReady, imuLinearAccelerationReady, imuRotationRateReady,
            imuRotationVector, imuLinearAcceleration, imuRotationRate,
            latestGps, gpsSentToEkf, lastEkfMachineTime, clock, laAt, rvAt, dispatches)
    }

    constructor ()
      ensures Model() == Initial()
    {
      imuRotationVectorReady, imuLinearAccelerationReady, imuRotationRateReady := false, false, false;
      imuRotationVector, imuLinearAcceleration := Rotation(0.0, 0.0, 0.0, 0.0, 0), Acceleration(0.0, 0.0, 0.0, 0);
      imuRotationRate, latestGps, gpsSentToEkf, lastEkfMachineTime := Rate(0.0, 0.0, 0.0, 0), None, false, 0;
      clock, laAt, rvAt, dispatches := 0, 0, 0, [];
    }

    method UpdateLatestGps(update: Fix, deltaTime: real)
      modifies this
      ensures Model() == Apply(old(Model()), Gps(update, deltaTime))
    {
      clock := clock + 1;
      if !update.valid {
        return;
      }
      if deltaTime > 5.0 {
        return;
      }
      if latestGps.Some? && update.timestamp <= latestGps.value.timestamp {
        return;
      }
      latestGps := Some(update);
      gpsSentToEkf := false;
    }

    /** Throws when there is something to dispatch but no fix yet, or none to measure with. */
    method SensorCallback(optRv: Option<Rotation>, optLa: Option<Acceleration>, optRr: Option<Rate>) returns (thrown: bool)
      modifies this
      ensures Model() == Apply(old(Model()), Sensor(optRv, optLa, optRr))
      ensures thrown <==> Ready(Stored(old(Model()), Sensor(optRv, optLa, optRr))) && dispatches == old(dispatches)
    {
      thrown := false;
      StoreImuValue(optRv, optLa, optRr);
      hide Measurable, Elapsed, Oldest;
      if imuRotationVectorReady && imuLinearAccelerationReady && imuRotationRateReady {
        thrown := DispatchToEkf();
      }
      clock := clock + 1;
    }

    method StoreImuValue(optRv: Option<Rotation>, optLa: Option<Acceleration>, optRr: Option<Rate>)
      modifies this
      ensures Model() == Stored(old(Model()), Sensor(optRv, optLa, optRr))
    {
      if optLa.Some? {
        imuLinearAccelerationReady := true;
        imuLinearAcceleration := optLa.value;
        laAt := clock;
      }
      if optRv.Some? {
        imuRotationVectorReady := true;
        imuRotationVector := optRv.value;
        rvAt := clock;
      }
      if optRr.Some? {
        imuRotationRateReady := true;
        imuRotationRate := optRr.value;
      }
    }

    method DispatchToEkf() returns (thrown: bool)
      requires Ready(Model())
      modifies this
      ensures thrown <==> !(old(latestGps).Some? && Measurable(old(latestGps).value, old(imuRotationVector)))
      ensures Model() == if thrown then old(Model()) else Dispatched(old(Model()))
    {
      var sent, fix := gpsSentToEkf, latestGps;
      if fix.None? || !Measurable(fix.value, imuRotationVector) {
        return true;
      }
      ghost var before := Model();
      var dtSeconds := PrepareEkfTiming();
      if !sent {
        dispatches := dispatches + [Dispatch(clock, fix, imuLinearAcceleration, laAt, imuRotationVector, rvAt, dtSeconds)];
        gpsSentToEkf := true;
      } else {
        dispatches := dispatches + [Dispatch(clock, None, imuLinearAcceleration, laAt, imuRotationVector, rvAt, dtSeconds)];
      }
      imuRotationVectorReady := false;
      imuLinearAccelerationReady := false;
      thrown := false;
    }

    method PrepareEkfTiming() returns (dtSeconds: real)
      modifies this`lastEkfMachineTime
      ensures dtSeconds == Elapsed(old(Model())) && lastEkfMachineTime == Oldest(old(Model()))
    {
      var oldest := if imuLinearAcceleration.timestamp <= imuRotationVector.timestamp
                    then imuLinearAcceleration.timestamp else imuRotationVector.timestamp;
      dtSeconds := ((oldest - lastEkfMachineTime) % 0x1_0000_0000_0000_0000) as real / 1000000.0;
      lastEkfMachineTime := oldest;
      if dtSeconds <= 0.0 {
        dtSeconds := 0.01;
      }
    }
  }
}
