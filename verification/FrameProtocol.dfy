/**
 The frames between the microcontroller and the host: a start byte, a type, a length, the
 payload and two checksum bytes.  The two ends number their types differently: 3 is a rotation
 rate to the firmware and a status to the host, 4 the other way round.
 */
module FrameProtocol {
  import opened BitAlgebra
  import opened CrcModel
  import opened CrcDetection
  import opened Wrappers

  /** The fields are the bytes of the packed structs, as both ends lay them out. */
  datatype Message =
    | Acceleration(x: seq<Bits>, y: seq<Bits>, z: seq<Bits>, timestamp: seq<Bits>)
    | RotationVector(i: seq<Bits>, j: seq<Bits>, k: seq<Bits>, w: seq<Bits>, accuracy: seq<Bits>, timestamp: seq<Bits>)
    | RotationRate(roll: seq<Bits>, pitch: seq<Bits>, raw: seq<Bits>, timestamp: seq<Bits>)
    | Status(status: Bits, timestamp: seq<Bits>)

  /** 0xA5 */
  const MAGIC: Bits := {0, 2, 5, 7}

  ghost predicate Bytes(s: seq<Bits>, n: nat) {
    |s| == n && AreBytes(s)
  }

  ghost predicate WellFormed(m: Message) {
    match m
    case Acceleration(x, y, z, t) => Bytes(x, 4) && Bytes(y, 4) && Bytes(z, 4) && Bytes(t, 8)
    case RotationVector(i, j, k, w, a, t) =>
      Bytes(i, 4) && Bytes(j, 4) && Bytes(k, 4) && Bytes(w, 4) && Bytes(a, 4) && Bytes(t, 8)
    case RotationRate(r, p, w, t) => Bytes(r, 4) && Bytes(p, 4) && Bytes(w, 4) && Bytes(t, 8)
    case Status(s, t) => Below(s, 8) && Bytes(t, 8)
  }

  // ---------- the sender ----------

  /** The type numbers of the firmware, 1 to 4. */
  function Id(m: Message): Bits {
    match m
    case Acceleration(_, _, _, _) => {0}
    case RotationVector(_, _, _, _, _, _) => {1}
    case RotationRate(_, _, _, _) => {0, 1}
    case Status(_, _) => {2}
  }

  /** 20, 28, 20 and 9 bytes. */
  function LengthByte(m: Message): Bits {
    match m
    case Acceleration(_, _, _, _) => {2, 4}
    case RotationVector(_, _, _, _, _, _) => {2, 3, 4}
    case RotationRate(_, _, _, _) => {2, 4}
    case Status(_, _) => {0, 3}
  }

  function Payload(m: Message): seq<Bits> {
    match m
    case Acceleration(x, y, z, t) => x + y + z + t
    case RotationVector(i, j, k, w, a, t) => i + j + k + w + a + t
    case RotationRate(r, p, w, t) => r + p + w + t
    case Status(s, t) => [s] + t
  }

  function Body(m: Message): (r: seq<Bits>)
    ensures |r| == 3 + |Payload(m)|
  {
    [MAGIC, Id(m), LengthByte(m)] + Payload(m)
  }

  /** The checksum of a message, split into its high and low byte. */
  function Checksum(body: seq<Bits>): seq<Bits> {
    var crc := Output(CcittFalse(), Register(CcittFalse(), body));
    [ShiftRight(crc, 8), Low(crc, 8)]
  }

  function Frame(m: Message): (r: seq<Bits>)
    ensures |r| == 5 + |Payload(m)|
  {
    Body(m) + Checksum(Body(m))
  }

  function Transmission(ms: seq<Message>): seq<Bits> {
    if ms == [] then [] else Frame(ms[0]) + Transmission(ms[1..])
  }

  // ---------- the receiver ----------

  datatype StatusReport = StatusReport(status: Bits, timestamp: nat)

  /** The size of the buffer the callback reads into. */
  const BUFFER_BYTES := 75

  /**
   What one call of the host's callback leaves in the stream, hands on, and remembers; or that
   it writes behind its buffer, after which nothing is known.
   */
  datatype Step =
    | Step(rest: seq<Bits>, delivery: Option<Message>, current: StatusReport)
    | Overrun

  function LittleEndian(s: seq<Bits>): nat {
    if s == [] then 0 else Number(s[0]) + 256 * LittleEndian(s[1..])
  }

  /** The payload as the host's type numbers read it; a length that does not fit delivers nothing. */
  function Dispatch(kind: nat, payload: seq<Bits>, rest: seq<Bits>, current: StatusReport): (d: Step)
    ensures d.Step? && d.rest == rest
  {
    if kind == 1 && |payload| == 20 then
      Step(rest, Some(Acceleration(payload[0..4], payload[4..8], payload[8..12], payload[12..20])), current)
    else if kind == 2 && |payload| == 28 then
      Step(rest, Some(RotationVector(payload[0..4], payload[4..8], payload[8..12], payload[12..16], payload[16..20],
                                     payload[20..28])), current)
    else if kind == 3 && |payload| == 9 then
      var report := StatusReport(payload[0], LittleEndian(payload[1..]));
      if current.status != report.status && current.timestamp < report.timestamp then
        Step(rest, Some(Status(payload[0], payload[1..9])), report)
      else
        Step(rest, None, current)
    else if kind == 4 && |payload| == 20 then
      Step(rest, Some(RotationRate(payload[0..4], payload[4..8], payload[8..12], payload[12..20])), current)
    else
      Step(rest, None, current)
  }

  /** One call of the callback; a read past the end of the stream fails and drops what it has read. */
  ghost function DecodeOne(s: seq<Bits>, current: StatusReport): (d: Step)
    requires s != []
    ensures d.Step? ==> |d.rest| < |s|
  {
    if s[0] != MAGIC then Step(s[1..], None, current)
    else if |s| < 3 then Step([], None, current)
    else if !(1 <= Number(s[1]) <= 4) || Number(s[2]) > 73 then Step(s[3..], None, current)
    else
      var end := 3 + Number(s[2]);
      if BUFFER_BYTES < end <= |s| then Overrun
      else if |s| < end + 2 then Step([], None, current)
      else if !Valid(s[..end], s[end], s[end + 1]) then Step(s[end + 2..], None, current)
      else Dispatch(Number(s[1]), s[3..end], s[end + 2..], current)
  }

  /** What is delivered and remembered over a stream, and whether a call overran its buffer on the way. */
  datatype Outcome = Outcome(deliveries: seq<Message>, current: StatusReport, overrun: bool)

  /** The callback called for as long as there is input. */
  ghost function DecodeAll(s: seq<Bits>, current: StatusReport): Outcome
    decreases |s|
  {
    if s == [] then Outcome([], current, false)
    else
      var d := DecodeOne(s, current);
      if d.Overrun? then Outcome([], current, true)
      else
        var o := DecodeAll(d.rest, d.current);
        Outcome((if d.delivery.Some? then [d.delivery.value] else []) + o.deliveries, o.current, o.overrun)
  }

  // ---------- the buffer of the callback ----------

  /** At position k stands a header with a known type and the length 73, and 73 bytes follow it. */
  predicate OverlongAt(s: seq<Bits>, k: nat) {
    k + 76 <= |s| && s[k] == MAGIC && 1 <= Number(s[k + 1]) <= 4 && Number(s[k + 2]) == 73
  }

  /**
   The length check admits 73, one more than the buffer has room for: a call overruns exactly
   when it starts at a header of that length with all its payload behind it.
   */
  lemma OverrunExactly(s: seq<Bits>, current: StatusReport)
    requires s != []
    ensures DecodeOne(s, current) == Overrun <==> OverlongAt(s, 0)
  {
    hide Number, Valid, Dispatch;
  }

  /** The shortest stream that overruns: a header with the length 73 and 73 bytes. */
  lemma OverrunExample(current: StatusReport)
    ensures DecodeAll([MAGIC, {0}, {0, 3, 6}] + seq(73, i => {}), current) == Outcome([], current, true)
  {
    var s: seq<Bits> := [MAGIC, {0}, {0, 3, 6}] + seq(73, i => {});
    assert |s| == 76 && Number(s[1]) == 1 && Number(s[2]) == 73;
    OverrunExactly(s, current);
  }

  /** A stream without such a header anywhere never overruns. */
  lemma {:induction false} OverrunNeedsHeader(s: seq<Bits>, current: StatusReport)
    requires DecodeAll(s, current).overrun
    ensures exists k: nat :: OverlongAt(s, k)
    decreases |s|
  {
    var d := DecodeOne(s, current);
    OverrunExactly(s, current);
    hide DecodeOne, Number;
    if d.Step? {
      RestIsSuffix(s, current);
      OverrunNeedsHeader(d.rest, d.current);
      var k: nat :| OverlongAt(d.rest, k);
      OverlongInSuffix(s, |s| - |d.rest|, k);
    }
  }

  lemma OverlongInSuffix(s: seq<Bits>, at: nat, k: nat)
    requires at <= |s| && OverlongAt(s[at..], k)
    ensures OverlongAt(s, at + k)
  {
    hide Number;
  }

  lemma RestIsSuffix(s: seq<Bits>, current: StatusReport)
    requires s != [] && DecodeOne(s, current).Step?
    ensures var r := DecodeOne(s, current).rest; |r| < |s| && r == s[|s| - |r|..]
  {
    hide Number, Valid;
  }

  // ---------- the two together ----------

  /** What the host can make of a firmware message. */
  predicate Understood(m: Message) {
    m.Acceleration? || m.RotationVector?
  }

  function Deliverable(ms: seq<Message>): seq<Message> {
    if ms == [] then []
    else (if Understood(ms[0]) then [ms[0]] else []) + Deliverable(ms[1..])
  }

  lemma OutputFits(body: seq<Bits>)
    ensures Below(Output(CcittFalse(), Register(CcittFalse(), body)), 16)
  {
    CcittProper();
    FeedAllBelow(CcittFalse(), CcittFalse().init, MessageBits(CcittFalse(), body));
    XorLaws(Register(CcittFalse(), body), {}, {});
  }

  /** A word of sixteen bits is its two bytes. */
  lemma TwoBytes(crc: Bits)
    requires Below(crc, 16)
    ensures Below(ShiftRight(crc, 8), 8) && Below(Low(crc, 8), 8)
    ensures Shift(ShiftRight(crc, 8), 8) + Low(crc, 8) == crc
  {
    forall j: nat ensures j in Shift(ShiftRight(crc, 8), 8) + Low(crc, 8) <==> j in crc {
      if j >= 8 {
        assert j - 8 in ShiftRight(crc, 8) <==> j in crc;
      }
    }
  }

  lemma ChecksumMatches(body: seq<Bits>)
    ensures Bytes(Checksum(body), 2) && Valid(body, Checksum(body)[0], Checksum(body)[1])
  {
    hide Register, Output, ShiftRight, Shift, Low, Below;
    OutputFits(body);
    TwoBytes(Output(CcittFalse(), Register(CcittFalse(), body)));
  }

  lemma FourFields(h: seq<Bits>, x: seq<Bits>, y: seq<Bits>, z: seq<Bits>, t: seq<Bits>, c: seq<Bits>)
    requires |h| == 3 && |x| == |y| == |z| == 4 && |t| == 8 && |c| == 2
    ensures var f := h + (x + y + z + t) + c;
      |f| == 25 && f[3..7] == x && f[7..11] == y && f[11..15] == z && f[15..23] == t
  {
  }

  lemma SixFields(h: seq<Bits>, i: seq<Bits>, j: seq<Bits>, k: seq<Bits>, w: seq<Bits>, a: seq<Bits>, t: seq<Bits>, c: seq<Bits>)
    requires |h| == 3 && |i| == |j| == |k| == |w| == |a| == 4 && |t| == 8 && |c| == 2
    ensures var f := h + (i + j + k + w + a + t) + c;
      |f| == 33 && f[3..7] == i && f[7..11] == j && f[11..15] == k && f[15..19] == w && f[19..23] == a && f[23..31] == t
  {
  }

  lemma StatusFields(h: seq<Bits>, s: Bits, t: seq<Bits>, c: seq<Bits>)
    requires |h| == 3 && |t| == 8 && |c| == 2
    ensures var f := h + ([s] + t) + c; |f| == 14 && f[3] == s && f[4..12] == t
  {
  }

  /** Where the fields lie on the wire, and the numbers in the header. */
  lemma FrameLayout(m: Message)
    requires WellFormed(m)
    ensures var f := Frame(m);
      && Number(f[0]) == 0xA5
      && match m
         case Acceleration(x, y, z, t) =>
           && |f| == 25 && Number(f[1]) == 1 && Number(f[2]) == 20
           && f[3..7] == x && f[7..11] == y && f[11..15] == z && f[15..23] == t
         case RotationVector(i, j, k, w, a, t) =>
           && |f| == 33 && Number(f[1]) == 2 && Number(f[2]) == 28
           && f[3..7] == i && f[7..11] == j && f[11..15] == k && f[15..19] == w && f[19..23] == a && f[23..31] == t
         case RotationRate(r, p, w, t) =>
           && |f| == 25 && Number(f[1]) == 3 && Number(f[2]) == 20
           && f[3..7] == r && f[7..11] == p && f[11..15] == w && f[15..23] == t
         case Status(s, t) =>
           |f| == 14 && Number(f[1]) == 4 && Number(f[2]) == 9 && f[3] == s && f[4..12] == t
    ensures var f, n := Frame(m), |Frame(m)|; Valid(f[..n - 2], f[n - 2], f[n - 1])
  {
    var f, n, body := Frame(m), |Frame(m)|, Body(m);
    var h, c := [MAGIC, Id(m), LengthByte(m)], Checksum(body);
    ChecksumMatches(body);
    hide Checksum, Valid;
    assert f[..n - 2] == body && f[n - 2] == c[0] && f[n - 1] == c[1];
    match m
    case Acceleration(x, y, z, t) => FourFields(h, x, y, z, t, c);
    case RotationVector(i, j, k, w, a, t) => SixFields(h, i, j, k, w, a, t, c);
    case RotationRate(r, p, w, t) => FourFields(h, r, p, w, t, c);
    case Status(s, t) => StatusFields(h, s, t, c);
  }

  /** The checksum run over a whole frame, its own two bytes included, ends at zero. */
  lemma FrameEndsAtZero(m: Message)
    requires WellFormed(m)
    ensures Register(CcittFalse(), Frame(m)) == {} && ValidFrame(Frame(m))
  {
    hide Register;
    var body := Body(m);
    BodyBytes(m);
    ChecksumMatches(body);
    var c := Checksum(body);
    ValidEndsAtZero(body, c[0], c[1]);
    assert c == [c[0], c[1]] && Frame(m)[..|body|] == body;
  }

  lemma BodyBytes(m: Message)
    requires WellFormed(m)
    ensures AreBytes(Body(m)) && |Payload(m)| == Number(LengthByte(m)) <= 28
    ensures 1 <= Number(Id(m)) <= 4
  {
  }

  /** Fields cut out of a payload are the fields it was joined from; the other two kinds are not delivered. */
  lemma DispatchOwn(m: Message, rest: seq<Bits>, current: StatusReport)
    requires WellFormed(m)
    ensures Dispatch(Number(Id(m)), Payload(m), rest, current)
         == Step(rest, if Understood(m) then Some(m) else None, current)
  {
    var p := Payload(m);
    match m
    case Acceleration(x, y, z, t) =>
      assert p[0..4] == x && p[4..8] == y && p[8..12] == z && p[12..20] == t;
    case RotationVector(i, j, k, w, a, t) =>
      assert p[0..4] == i && p[4..8] == j && p[8..12] == k && p[12..16] == w && p[16..20] == a && p[20..28] == t;
    case RotationRate(_, _, _, _) =>
    case Status(_, _) =>
  }

  /** What becomes of a stream that starts with a header and all it announces. */
  lemma DecodeBody(s: seq<Bits>, current: StatusReport, end: nat)
    requires |s| >= end + 2 && end >= 3 && s[0] == MAGIC
    requires 1 <= Number(s[1]) <= 4 && end == 3 + Number(s[2]) <= BUFFER_BYTES
    ensures DecodeOne(s, current) ==
      if Valid(s[..end], s[end], s[end + 1]) then Dispatch(Number(s[1]), s[3..end], s[end + 2..], current)
      else Step(s[end + 2..], None, current)
  {
    hide Valid, Dispatch, Number;
  }

  lemma FrameParts(body: seq<Bits>, c: seq<Bits>, rest: seq<Bits>)
    requires |body| >= 3 && |c| == 2
    ensures var s, end := body + c + rest, |body|;
      && s[0] == body[0] && s[1] == body[1] && s[2] == body[2] && s[..end] == body && s[3..end] == body[3..]
      && s[end] == c[0] && s[end + 1] == c[1] && s[end + 2..] == rest
  {
  }

  /** A frame at the head of the stream is consumed whole, and nothing behind it is touched. */
  lemma FrameDecoded(m: Message, rest: seq<Bits>, current: StatusReport)
    requires WellFormed(m)
    ensures DecodeOne(Frame(m) + rest, current) == Step(rest, if Understood(m) then Some(m) else None, current)
  {
    var body := Body(m);
    BodyBytes(m);
    ChecksumMatches(body);
    DispatchOwn(m, rest, current);
    FrameParts(body, Checksum(body), rest);
    hide Checksum, Valid, Dispatch, Number, Id, LengthByte, Payload, DecodeOne, WellFormed, Understood;
    DecodeBody(Frame(m) + rest, current, |body|);
    assert body[3..] == Payload(m);
  }

  lemma {:induction false} NoiseSkipped(noise: seq<Bits>, s: seq<Bits>, current: StatusReport)
    requires MAGIC !in noise
    ensures DecodeAll(noise + s, current) == DecodeAll(s, current)
  {
    if noise == [] {
      assert noise + s == s;
    } else {
      assert (noise + s)[0] == noise[0] && (noise + s)[1..] == noise[1..] + s;
      NoiseSkipped(noise[1..], s, current);
    }
  }

  /** The number of frames that lie whole within the first n bytes of a transmission. */
  function Whole(ms: seq<Message>, n: nat): (k: nat)
    ensures k <= |ms|
  {
    if ms == [] || n < |Frame(ms[0])| then 0 else 1 + Whole(ms[1..], n - |Frame(ms[0])|)
  }

  /** The beginning of a frame is dropped, and nothing is delivered for it. */
  lemma CutFrame(m: Message, n: nat, current: StatusReport)
    requires WellFormed(m) && 0 < n < |Frame(m)|
    ensures DecodeOne(Frame(m)[..n], current) == Step([], None, current)
  {
    BodyBytes(m);
    hide Checksum, Valid, Dispatch, Number, Id, LengthByte, Payload, WellFormed;
    var s := Frame(m)[..n];
    assert s[0] == MAGIC;
    if n >= 3 {
      assert s[1] == Id(m) && s[2] == LengthByte(m);
    }
  }

  /** A stream that starts with a frame is decoded as the frame and the rest. */
  lemma FrameThenRest(m: Message, rest: seq<Bits>, current: StatusReport)
    requires WellFormed(m)
    ensures var o := DecodeAll(rest, current);
      DecodeAll(Frame(m) + rest, current)
        == Outcome((if Understood(m) then [m] else []) + o.deliveries, o.current, o.overrun)
  {
    hide DecodeOne, WellFormed, Frame, Understood;
    FrameDecoded(m, rest, current);
  }

  lemma CutDecodedStep(m: Message, rest: seq<Message>, k: nat)
    requires k <= |rest|
    ensures Deliverable(([m] + rest)[..1 + k]) == (if Understood(m) then [m] else []) + Deliverable(rest[..k])
  {
    hide Understood;
    assert ([m] + rest)[..1 + k] == [m] + rest[..k];
    assert ([m] + rest[..k])[1..] == rest[..k];
  }

  lemma {:induction false} CutDecoded(ms: seq<Message>, n: nat, current: StatusReport)
    requires n <= |Transmission(ms)| && forall m :: m in ms ==> WellFormed(m)
    ensures DecodeAll(Transmission(ms)[..n], current) == Outcome(Deliverable(ms[..Whole(ms, n)]), current, false)
  {
    hide DecodeOne, WellFormed, Frame, Understood;
    if n == 0 {
      assert Transmission(ms)[..0] == [] && ms[..Whole(ms, 0)] == [];
    } else if n < |Frame(ms[0])| {
      assert Transmission(ms)[..n] == Frame(ms[0])[..n] && ms[..Whole(ms, n)] == [];
      CutFrame(ms[0], n, current);
    } else {
      var f, rest := Frame(ms[0]), ms[1..];
      var n' := n - |f|;
      assert Transmission(ms)[..n] == f + Transmission(rest)[..n'];
      CutDecoded(rest, n', current);
      FrameThenRest(ms[0], Transmission(rest)[..n'], current);
      CutDecodedStep(ms[0], rest, Whole(rest, n'));
      assert [ms[0]] + rest == ms;
    }
  }

  lemma {:induction false} AllWhole(ms: seq<Message>)
    ensures Whole(ms, |Transmission(ms)|) == |ms|
  {
    if ms != [] {
      AllWhole(ms[1..]);
    }
  }

  /**
   Any firmware messages after any bytes without a start byte, cut off anywhere: the host hands on
   exactly the accelerations and rotation vectors whose frames are whole, and never overruns.
   */
  lemma CutStreamDecoded(noise: seq<Bits>, ms: seq<Message>, n: nat, current: StatusReport)
    requires MAGIC !in noise && forall m :: m in ms ==> WellFormed(m)
    requires n <= |Transmission(ms)|
    ensures DecodeAll(noise + Transmission(ms)[..n], current)
         == Outcome(Deliverable(ms[..Whole(ms, n)]), current, false)
  {
    NoiseSkipped(noise, Transmission(ms)[..n], current);
    CutDecoded(ms, n, current);
  }

  /**
   Any firmware messages after any bytes without a start byte: the host stays aligned to the
   frames, and hands on exactly the accelerations and rotation vectors, unchanged and in order.
   */
  lemma StreamDecoded(noise: seq<Bits>, ms: seq<Message>, current: StatusReport)
    requires MAGIC !in noise && forall m :: m in ms ==> WellFormed(m)
    ensures DecodeAll(noise + Transmission(ms), current) == Outcome(Deliverable(ms), current, false)
  {
    var n := |Transmission(ms)|;
    assert Transmission(ms)[..n] == Transmission(ms) && ms[..|ms|] == ms;
    AllWhole(ms);
    CutStreamDecoded(noise, ms, n, current);
  }

  /**
   A frame damaged behind its header within sixteen consecutive bits is consumed whole and
   nothing is delivered for it.
   */
  lemma DamagedFrameDropped(m: Message, f: seq<Bits>, rest: seq<Bits>, current: StatusReport, start: nat, length: nat)
    requires WellFormed(m) && AreBytes(f) && |f| == |Frame(m)| && f[..3] == Frame(m)[..3] && f != Frame(m)
    requires length <= 16 && start + length <= 8 * |f|
    requires forall k :: 0 <= k < 8 * |f| && !(start <= k < start + length) ==> FrameBits(f)[k] == FrameBits(Frame(m))[k]
    ensures DecodeOne(f + rest, current) == Step(rest, None, current)
  {
    FrameEndsAtZero(m);
    BodyBytes(m);
    if ValidFrame(f) {
      BurstDetected(f, Frame(m), start, length);
    }
    hide Checksum, Valid, Dispatch, Number, Id, LengthByte, Payload, FrameBits;
    var s, end := f + rest, |f| - 2;
    assert s[0] == f[..3][0] && s[1] == f[..3][1] && s[2] == f[..3][2];
    assert s[..end] == f[..end] && s[end] == f[end] && s[end + 1] == f[end + 1] && s[end + 2..] == rest;
  }

  // ---------- statuses ----------

  /** Timestamps are eight bytes, lowest first. */
  lemma TimestampIs(s: seq<Bits>)
    requires |s| == 8
    ensures LittleEndian(s)
         == Number(s[0]) + 0x100 * Number(s[1]) + 0x10000 * Number(s[2]) + 0x1000000 * Number(s[3])
          + 0x100000000 * Number(s[4]) + 0x10000000000 * Number(s[5]) + 0x1000000000000 * Number(s[6])
          + 0x100000000000000 * Number(s[7])
  {
    hide Number;
    var a, b, c := s[1..], s[2..], s[3..];
    var d, e, f, g := s[4..], s[5..], s[6..], s[7..];
    assert a[1..] == b && b[1..] == c && c[1..] == d && d[1..] == e && e[1..] == f && f[1..] == g && g[1..] == [];
    assert LittleEndian(g) == Number(s[7]);
    assert LittleEndian(f) == Number(s[6]) + 256 * LittleEndian(g);
    assert LittleEndian(e) == Number(s[5]) + 256 * LittleEndian(f);
    assert LittleEndian(d) == Number(s[4]) + 256 * LittleEndian(e);
    assert LittleEndian(c) == Number(s[3]) + 256 * LittleEndian(d);
    assert LittleEndian(b) == Number(s[2]) + 256 * LittleEndian(c);
    assert LittleEndian(a) == Number(s[1]) + 256 * LittleEndian(b);
  }

  /** The statuses among the deliveries, as they are remembered. */
  function Reports(ms: seq<Message>): seq<StatusReport> {
    if ms == [] then []
    else (if ms[0].Status? then [StatusReport(ms[0].status, LittleEndian(ms[0].timestamp))] else []) + Reports(ms[1..])
  }

  /** Each report is later than the one before, starting from the given one, and another status. */
  predicate Progresses(from: StatusReport, reports: seq<StatusReport>)
    decreases |reports|
  {
    reports != [] ==>
      && reports[0].timestamp > from.timestamp && reports[0].status != from.status
      && Progresses(reports[0], reports[1..])
  }

  lemma SliceOfSlice(s: seq<Bits>, from: nat, to: nat, i: nat, j: nat)
    requires from <= to <= |s| && i <= j <= to - from
    ensures s[from..to][i..j] == s[from + i..from + j]
  {
    var a, b := s[from..to][i..j], s[from + i..from + j];
    forall k | 0 <= k < |a| ensures a[k] == b[k] {
      assert a[k] == s[from..to][i + k];
    }
  }

  lemma DeliveredStatus(s: seq<Bits>, current: StatusReport)
    requires s != [] && DecodeOne(s, current).Step?
    ensures var d := DecodeOne(s, current);
      if d.delivery.Some? && d.delivery.value.Status? then
        && d.current == StatusReport(d.delivery.value.status, LittleEndian(d.delivery.value.timestamp))
        && d.current.timestamp > current.timestamp && d.current.status != current.status
      else d.current == current
  {
    hide Valid, Number, LittleEndian;
    if s[0] == MAGIC && |s| >= 3 {
      var end := 3 + Number(s[2]);
      if 12 <= end <= |s| {
        SliceOfSlice(s, 3, end, 1, 9);
        SliceOfSlice(s, 3, end, 1, end - 3);
      }
    }
  }

  lemma ReportsAfter(m: Message, ms: seq<Message>, d: StatusReport)
    requires m.Status? ==> d == StatusReport(m.status, LittleEndian(m.timestamp))
    ensures Reports([m] + ms) == (if m.Status? then [d] else []) + Reports(ms)
  {
    hide LittleEndian;
    assert ([m] + ms)[1..] == ms;
  }

  lemma ProgressesAfter(from: StatusReport, d: StatusReport, rs: seq<StatusReport>)
    requires d.timestamp > from.timestamp && d.status != from.status && Progresses(d, rs)
    ensures Progresses(from, [d] + rs)
  {
    assert ([d] + rs)[1..] == rs;
  }

  function LastOf(from: StatusReport, reports: seq<StatusReport>): StatusReport {
    if reports == [] then from else reports[|reports| - 1]
  }

  /** Over any stream whatsoever the statuses delivered change and grow later, and the last one is remembered. */
  lemma {:induction false} StatusesProgress(s: seq<Bits>, current: StatusReport)
    ensures var o := DecodeAll(s, current);
      Progresses(current, Reports(o.deliveries)) && o.current == LastOf(current, Reports(o.deliveries))
    decreases |s|
  {
    hide LittleEndian;
    if s != [] && DecodeOne(s, current).Step? {
      var d := DecodeOne(s, current);
      var o := DecodeAll(d.rest, d.current);
      StatusesProgress(d.rest, d.current);
      DeliveredStatus(s, current);
      hide DecodeOne, Progresses;
      if d.delivery.Some? {
        var m := d.delivery.value;
        ReportsAfter(m, o.deliveries, d.current);
        if m.Status? {
          ProgressesAfter(current, d.current, Reports(o.deliveries));
        } else {
          assert [] + Reports(o.deliveries) == Reports(o.deliveries);
        }
      } else {
        assert [] + o.deliveries == o.deliveries;
      }
    }
  }

  /** A whole status in the host's numbering is delivered exactly if it is another status and later than the last. */
  lemma StatusDelivered(kind: Bits, length: Bits, status: Bits, timestamp: seq<Bits>, c: seq<Bits>, rest: seq<Bits>,
                        current: StatusReport)
    requires Number(kind) == 3 && Number(length) == 9 && |timestamp| == 8 && |c| == 2
    requires Valid([MAGIC, kind, length] + [status] + timestamp, c[0], c[1])
    ensures var s := [MAGIC, kind, length] + [status] + timestamp + c + rest;
      var report := StatusReport(status, LittleEndian(timestamp));
      DecodeOne(s, current)
        == if status != current.status && report.timestamp > current.timestamp then
             Step(rest, Some(Status(status, timestamp)), report)
           else Step(rest, None, current)
  {
    hide Valid, Number, LittleEndian;
    var body := [MAGIC, kind, length] + [status] + timestamp;
    FrameParts(body, c, rest);
    hide DecodeOne;
    DecodeBody(body + c + rest, current, 12);
    assert body[3..][1..9] == timestamp && body[3..][1..] == timestamp;
  }
}
