/**
 The serial protocol and the pairing of sensors together: what becomes of the firmware's messages
 when they reach the filter's front end.
 */
module HostPipeline {
  import opened BitAlgebra
  import P = FrameProtocol
  import S = SensorPairing

  /** A call of the sensor callback passes on the one message it was made for. */
  predicate Feeds(m: P.Message, e: S.Event) {
    && e.Sensor?
    && (e.la.Some? <==> m.Acceleration?)
    && (e.rv.Some? <==> m.RotationVector?)
    && (e.rr.Some? <==> m.RotationRate?)
  }

  function Sensors(run: seq<S.Event>): seq<S.Event> {
    if run == [] then [] else (if run[0].Sensor? then [run[0]] else []) + Sensors(run[1..])
  }

  /** The sensor events of the run are the calls the serial reader makes, in order. */
  predicate FedBy(run: seq<S.Event>, deliveries: seq<P.Message>) {
    && |Sensors(run)| == |deliveries|
    && forall k :: 0 <= k < |deliveries| ==> Feeds(deliveries[k], Sensors(run)[k])
  }

  lemma {:induction false} SensorsHoldAll(run: seq<S.Event>, k: nat)
    requires k < |run| && run[k].Sensor?
    ensures run[k] in Sensors(run)
  {
    if k > 0 {
      SensorsHoldAll(run[1..], k - 1);
    }
  }

  lemma {:induction false} DeliverableKinds(ms: seq<P.Message>)
    ensures forall m :: m in P.Deliverable(ms) ==> P.Understood(m)
  {
    if ms != [] {
      DeliverableKinds(ms[1..]);
    }
  }

  /**
   Whatever the firmware sends, wherever its transmission stops and whatever fixes arrive, the
   filter is never run on it: the rotation rate that has to come first is the message whose type
   the two ends number differently.
   */
  lemma FirmwareNeverDispatches(noise: seq<Bits>, ms: seq<P.Message>, n: nat, current: P.StatusReport, run: seq<S.Event>)
    requires P.MAGIC !in noise && forall m :: m in ms ==> P.WellFormed(m)
    requires n <= |P.Transmission(ms)|
    requires FedBy(run, P.DecodeAll(noise + P.Transmission(ms)[..n], current).deliveries)
    ensures S.After(run).dispatches == []
  {
    P.CutStreamDecoded(noise, ms, n, current);
    var ds := P.Deliverable(ms[..P.Whole(ms, n)]);
    DeliverableKinds(ms[..P.Whole(ms, n)]);
    forall k | 0 <= k < |run| && run[k].Sensor? ensures run[k].rr.None? {
      SensorsHoldAll(run, k);
      var j :| 0 <= j < |Sensors(run)| && Sensors(run)[j] == run[k];
      assert Feeds(ds[j], Sensors(run)[j]) && ds[j] in ds;
    }
    S.RateComesFirst(run);
  }
}
