/**
 The two ends of the serial line at work: the firmware filling its buffer field by field and
 pushing it through a port that takes as much as it likes, and the host's callback.
 */
module FrameLink {
  import opened BitAlgebra
  import opened CrcModel
  import opened Crc
  import opened CrcDetection
  import opened FrameProtocol
  import opened Wrappers

  // ---------- the firmware ----------

  datatype EspError = Fine | Failed | Timeout | InvalidArgument

  /** What is on the line after an attempt to put the bytes on it: all of them, or after an error a prefix. */
  predicate Sent(before: seq<Bits>, after: seq<Bits>, bytes: seq<Bits>, err: EspError) {
    && |before| <= |after| <= |before| + |bytes|
    && after == before + bytes[..|after| - |before|]
    && (err.Fine? ==> |after| == |before| + |bytes|)
  }

  /** The line, with every byte ever put on it. */
  class Uart {
    var wire: seq<Bits>

    constructor ()
      ensures wire == []
    {
      wire := [];
    }

    /** Takes some of the bytes, or fails. */
    method WriteBytes(data: seq<Bits>) returns (written: int)
      requires data != []
      modifies this
      ensures written <= |data|
      ensures written > 0 ==> wire == old(wire) + data[..written]
      ensures written <= 0 ==> wire == old(wire)
    {
      written :| -1 <= written <= |data|;
      if written > 0 {
        wire := wire + data[..written];
      }
    }

    method WaitTxDone() returns (err: EspError)
      ensures err != InvalidArgument
    {
      err :| err == Fine || err == Failed || err == Timeout;
    }

    /** Success means that everything is on the line; after a failure it is a prefix. */
    method WriteAll(data: array<Bits>, length: nat) returns (err: EspError)
      requires length <= data.Length
      modifies this
      ensures err != InvalidArgument && Sent(old(wire), wire, data[..length], err)
    {
      var cursor, remaining := 0, length;
      while remaining > 0
        invariant 0 <= cursor && 0 <= remaining && cursor + remaining == length
        invariant wire == old(wire) + data[..cursor]
      {
        assert data[..length][..cursor] == data[..cursor];
        var written := WriteBytes(data[cursor..length]);
        if written <= 0 {
          return Failed;
        }
        assert data[..cursor + written] == data[..cursor] + data[cursor..length][..written];
        cursor := cursor + written;
        remaining := remaining - written;
      }
      assert data[..length][..length] == data[..length];
      err := WaitTxDone();
    }
  }

  /** memcpy */
  method Copy(buffer: array<Bits>, length: nat, field: seq<Bits>) returns (length': nat)
    requires length + |field| <= buffer.Length
    modifies buffer
    ensures length' == length + |field| && buffer[..length'] == old(buffer[..length]) + field
  {
    forall k | 0 <= k < |field| {
      buffer[length + k] := field[k];
    }
    length' := length + |field|;
  }

  lemma ChecksumIs(body: seq<Bits>, crc: Bits)
    requires crc == Output(CcittFalse(), Register(CcittFalse(), body))
    ensures Checksum(body) == [ShiftRight(crc, 8) * Ones(8), crc * Ones(8)]
  {
    hide Output, Register, Valid;
    ChecksumMatches(body);
    MaskIsLow(crc, 8);
    MaskIsLow(ShiftRight(crc, 8), 8);
    assert ShiftRight(crc, 8) == Checksum(body)[0];
    LowOfBelow(ShiftRight(crc, 8), 8);
  }

  /** The checksum over what is in the buffer, appended high byte first. */
  method AppendChecksum(buffer: array<Bits>, length: nat) returns (length': nat)
    requires length + 2 <= buffer.Length && AreBytes(buffer[..length])
    modifies buffer
    ensures length' == length + 2 && buffer[..length'] == old(buffer[..length]) + Checksum(old(buffer[..length]))
  {
    hide Checksum, Output, FeedAll, MessageBits, ShiftRight, Ones;
    ghost var body := buffer[..length];
    var cm := new Engine(32, CcittFalse());
    cm.Initialise();
    cm.Block(buffer[..length]);
    var crc := cm.Result();
    ChecksumIs(body, crc);
    buffer[length] := ShiftRight(crc, 8) * Ones(8);
    buffer[length + 1] := crc * Ones(8);
    length' := length + 2;
  }

  /** send_acceleration_t, send_rotation_t and send_rotation_rate_t: the struct copied in one piece. */
  method SendStruct(uart: Uart, m: Option<Message>) returns (err: EspError)
    requires m.Some? ==> WellFormed(m.value) && !m.value.Status?
    modifies uart
    ensures m.None? ==> err == InvalidArgument && uart.wire == old(uart.wire)
    ensures m.Some? ==> err != InvalidArgument && Sent(old(uart.wire), uart.wire, Frame(m.value), err)
  {
    if m.None? {
      return InvalidArgument;
    }
    BodyBytes(m.value);
    hide Checksum, Payload, Number;
    var buffer := new Bits[50](_ => {});
    buffer[0], buffer[1], buffer[2] := MAGIC, Id(m.value), LengthByte(m.value);
    var length := Copy(buffer, 3, Payload(m.value));
    assert buffer[..length] == Body(m.value);
    length := AppendChecksum(buffer, length);
    assert buffer[..length] == Frame(m.value);
    err := uart.WriteAll(buffer, length);
  }

  lemma AccelerationBody(m: Message)
    requires m.Acceleration?
    ensures Body(m) == [{0, 2, 5, 7}, {0}, {2, 4}] + m.x + m.y + m.z + m.timestamp
  {
  }

  /** The four fields behind the header. */
  method CopyAcceleration(buffer: array<Bits>, m: Message) returns (length: nat)
    requires buffer.Length == 25 && WellFormed(m) && m.Acceleration?
    modifies buffer
    ensures length == 23 && buffer[..length] == Body(m)
  {
    AccelerationBody(m);
    hide Body, AreBytes;
    buffer[0], buffer[1], buffer[2] := {0, 2, 5, 7}, {0}, {2, 4};
    length := Copy(buffer, 3, m.x);
    length := Copy(buffer, length, m.y);
    length := Copy(buffer, length, m.z);
    length := Copy(buffer, length, m.timestamp);
  }

  /** The same frame, its fields copied one after another. */
  method SendFieldwiseAcceleration(uart: Uart, m: Option<Message>) returns (err: EspError)
    requires m.Some? ==> WellFormed(m.value) && m.value.Acceleration?
    modifies uart
    ensures m.None? ==> err == InvalidArgument && uart.wire == old(uart.wire)
    ensures m.Some? ==> err != InvalidArgument && Sent(old(uart.wire), uart.wire, Frame(m.value), err)
  {
    if m.None? {
      return InvalidArgument;
    }
    BodyBytes(m.value);
    hide Checksum, Body, WellFormed, Number, Payload;
    var buffer := new Bits[25](_ => {});
    var length := CopyAcceleration(buffer, m.value);
    length := AppendChecksum(buffer, length);
    assert buffer[..length] == Frame(m.value);
    err := uart.WriteAll(buffer, length);
  }

  lemma RotationBody(m: Message)
    requires m.RotationVector?
    ensures Body(m) == [{0, 2, 5, 7}, {1}, {2, 3, 4}] + m.i + m.j + m.k + m.w + m.accuracy + m.timestamp
  {
  }

  /** The six fields behind the header. */
  method CopyRotation(buffer: array<Bits>, m: Message) returns (length: nat)
    requires buffer.Length == 33 && WellFormed(m) && m.RotationVector?
    modifies buffer
    ensures length == 31 && buffer[..length] == Body(m)
  {
    RotationBody(m);
    hide Body, AreBytes;
    buffer[0], buffer[1], buffer[2] := {0, 2, 5, 7}, {1}, {2, 3, 4};
    length := Copy(buffer, 3, m.i);
    assert buffer[..length] == [{0, 2, 5, 7}, {1}, {2, 3, 4}] + m.i;
    length := Copy(buffer, length, m.j);
    length := Copy(buffer, length, m.k);
    length := Copy(buffer, length, m.w);
    length := Copy(buffer, length, m.accuracy);
    length := Copy(buffer, length, m.timestamp);
  }

  method SendFieldwiseRotation(uart: Uart, m: Option<Message>) returns (err: EspError)
    requires m.Some? ==> WellFormed(m.value) && m.value.RotationVector?
    modifies uart
    ensures m.None? ==> err == InvalidArgument && uart.wire == old(uart.wire)
    ensures m.Some? ==> err != InvalidArgument && Sent(old(uart.wire), uart.wire, Frame(m.value), err)
  {
    if m.None? {
      return InvalidArgument;
    }
    BodyBytes(m.value);
    hide Checksum, Body, WellFormed, Number, Payload;
    var buffer := new Bits[33](_ => {});
    var length := CopyRotation(buffer, m.value);
    length := AppendChecksum(buffer, length);
    assert buffer[..length] == Frame(m.value);
    err := uart.WriteAll(buffer, length);
  }

  method CopyStatus(buffer: array<Bits>, m: Message) returns (length: nat)
    requires buffer.Length == 20 && WellFormed(m) && m.Status?
    modifies buffer
    ensures length == 12 && buffer[..length] == Body(m)
  {
    buffer[0], buffer[1], buffer[2], buffer[3] := {0, 2, 5, 7}, {2}, {0, 3}, m.status;
    length := Copy(buffer, 4, m.timestamp);
  }

  method SendStatus(uart: Uart, m: Option<Message>) returns (err: EspError)
    requires m.Some? ==> WellFormed(m.value) && m.value.Status?
    modifies uart
    ensures m.None? ==> err == InvalidArgument && uart.wire == old(uart.wire)
    ensures m.Some? ==> err != InvalidArgument && Sent(old(uart.wire), uart.wire, Frame(m.value), err)
  {
    if m.None? {
      return InvalidArgument;
    }
    BodyBytes(m.value);
    hide Checksum, Body, WellFormed, Number, Payload;
    var buffer := new Bits[20](_ => {});
    var length := CopyStatus(buffer, m.value);
    length := AppendChecksum(buffer, length);
    assert buffer[..length] == Frame(m.value);
    err := uart.WriteAll(buffer, length);
  }

  method Send(uart: Uart, m: Message) returns (err: EspError)
    requires WellFormed(m)
    modifies uart
    ensures err != InvalidArgument && Sent(old(uart.wire), uart.wire, Frame(m), err)
  {
    hide WellFormed, Frame;
    if m.Status? {
      err := SendStatus(uart, Some(m));
    } else {
      err := SendStruct(uart, Some(m));
    }
  }

  /** The messages one after the other, until one cannot be sent. */
  method SendAll(uart: Uart, ms: seq<Message>) returns (err: EspError)
    requires forall m :: m in ms ==> WellFormed(m)
    modifies uart
    ensures err != InvalidArgument && Sent(old(uart.wire), uart.wire, Transmission(ms), err)
  {
    hide WellFormed, Frame, Sent;
    ghost var before, sent := uart.wire, [];
    NothingSent(before);
    for k := 0 to |ms|
      invariant Transmission(ms) == sent + Transmission(ms[k..])
      invariant Sent(before, uart.wire, sent, Fine)
    {
      ghost var now := uart.wire;
      err := Send(uart, ms[k]);
      ghost var frame, unsent := Frame(ms[k]), Transmission(ms[k + 1..]);
      assert ms[k..][1..] == ms[k + 1..];
      SentInTurn(before, sent, now, frame, uart.wire, unsent, err);
      if err != Fine {
        return;
      }
      JoinedInFront(sent, frame, unsent);
      sent := sent + frame;
    }
    assert ms[|ms|..] == [] && sent + [] == sent;
    err := Fine;
  }

  lemma NothingSent(before: seq<Bits>)
    ensures Sent(before, before, [], Fine)
  {
  }

  lemma SentInTurn(before: seq<Bits>, sent: seq<Bits>, now: seq<Bits>, frame: seq<Bits>, after: seq<Bits>,
                   unsent: seq<Bits>, err: EspError)
    requires Sent(before, now, sent, Fine) && Sent(now, after, frame, err)
    ensures if err == Fine then Sent(before, after, sent + frame, Fine)
            else Sent(before, after, sent + (frame + unsent), err)
  {
    var n := |after| - |now|;
    assert now == before + sent;
    assert (sent + frame)[..|sent| + n] == sent + frame[..n];
    assert (sent + (frame + unsent))[..|sent| + n] == sent + frame[..n];
  }

  lemma JoinedInFront(a: seq<Bits>, b: seq<Bits>, c: seq<Bits>)
    ensures a + (b + c) == (a + b) + c
  {
  }

  // ---------- the host ----------

  /** How a read ends: with the buffer filled, with the stream at its end, or behind the buffer. */
  datatype ReadResult = Filled | Ended | Overran

  class SerialPortReader {
    const cm: Engine
    var input: seq<Bits>
    var current: StatusReport
    ghost var delivered: seq<Message>

    ghost predicate Valid()
      reads this, cm
    {
      cm.Valid() && cm.params == CcittFalse() && AreBytes(input)
    }

    /** The reader starts with the status IMU_UNAVAILABLE, 2. */
    constructor (input: seq<Bits>)
      requires AreBytes(input)
      ensures Valid() && fresh(cm) && this.input == input
      ensures current == StatusReport({1}, 0) && delivered == []
    {
      cm := new Engine(64, CcittFalse());
      this.input, current, delivered := input, StatusReport({1}, 0), [];
    }

    /**
     Fills a stretch of the buffer, or fails at the end of the stream and drops what there was.
     The length is not checked against the buffer, so either may write behind it.
     */
    method ReadExact(buffer: array<Bits>, at: nat, n: nat) returns (result: ReadResult)
      requires at <= buffer.Length
      modifies this`input, buffer
      ensures result == (if at + Smaller(n, |old(input)|) > buffer.Length then Overran
                         else if n > |old(input)| then Ended else Filled)
      ensures result == Filled ==> input == old(input)[n..] && buffer[..at + n] == old(buffer[..at]) + old(input)[..n]
      ensures result == Ended ==> input == []
    {
      var count := Smaller(n, |input|);
      if at + count > buffer.Length {
        return Overran;
      }
      forall k | 0 <= k < count {
        buffer[at + k] := input[k];
      }
      input := input[count..];
      result := if count < n then Ended else Filled;
    }

    method Deliver(m: Message)
      modifies this`delivered
      ensures delivered == old(delivered) + [m]
    {
      delivered := delivered + [m];
    }

    /** One call of the callback does what DecodeOne says, and overruns its buffer if that does. */
    method Callback() returns (overran: bool)
      requires Valid() && input != []
      modifies this`input, this`current, this`delivered, cm`reg
      ensures overran <==> DecodeOne(old(input), old(current)) == Overrun
      ensures overran ==> current == old(current) && delivered == old(delivered)
      ensures !overran ==> Valid()
      ensures var d := DecodeOne(old(input), old(current)); !overran ==>
        && input == d.rest && current == d.current
        && delivered == old(delivered) + if d.delivery.Some? then [d.delivery.value] else []
    {
      ghost var s := input;
      hide CrcDetection.Valid, Dispatch, Number;
      overran := false;
      var message := new Bits[75](_ => {});
      var result := ReadExact(message, 0, 1);
      assert message[..1][0] == s[0];
      if message[0] != {0, 2, 5, 7} {
        return;
      }
      result := ReadExact(message, 1, 2);
      if result == Ended {
        return;
      }
      assert message[..3] == s[..3];
      assert message[1] == message[..3][1] == s[1] && message[2] == message[..3][2] == s[2];
      var kind := Number(message[1]);
      var len := Number(message[2]);
      if 1 <= kind <= 4 && len <= 73 {
        overran := CallbackBody(message, kind, len, s);
      }
    }

    /** The callback from the payload on. */
    method CallbackBody(message: array<Bits>, kind: nat, len: nat, ghost s: seq<Bits>) returns (overran: bool)
      requires Valid() && AreBytes(s) && |s| >= 3 && s[0] == MAGIC && input == s[3..]
      requires kind == Number(s[1]) && 1 <= kind <= 4 && len == Number(s[2]) && len <= 73
      requires message.Length == 75 && message[..3] == s[..3]
      modifies this`input, this`current, this`delivered, cm`reg, message
      ensures overran <==> DecodeOne(s, old(current)) == Overrun
      ensures overran ==> current == old(current) && delivered == old(delivered)
      ensures !overran ==> Valid()
      ensures var d := DecodeOne(s, old(current)); !overran ==>
        && input == d.rest && current == d.current
        && delivered == old(delivered) + if d.delivery.Some? then [d.delivery.value] else []
    {
      hide CrcDetection.Valid, Dispatch, Number;
      var result := ReadExact(message, 3, len);
      if result == Overran {
        return true;
      }
      overran := false;
      if result == Ended {
        return;
      }
      assert message[..3 + len] == s[..3 + len];
      var checksum := new Bits[2](_ => {});
      result := ReadExact(checksum, 0, 2);
      if result == Ended {
        return;
      }
      assert checksum[..2][0] == s[3 + len] && checksum[..2][1] == s[4 + len];
      assert input == s[5 + len..];
      DecodeBody(s, current, 3 + len);
      hide DecodeOne, LittleEndian;
      var valid := ValidateMessage(cm, message[..3 + len], checksum[0], checksum[1]);
      if valid {
        assert message[3..3 + len] == s[3..3 + len];
        Handle(kind, message[3..3 + len]);
      }
    }

    /** The switch over the host's message types. */
    method Handle(kind: nat, payload: seq<Bits>)
      requires 1 <= kind <= 4
      modifies this`current, this`delivered
      ensures var d := Dispatch(kind, payload, input, old(current));
        && current == d.current
        && delivered == old(delivered) + if d.delivery.Some? then [d.delivery.value] else []
    {
      if kind == 1 {
        if |payload| == 20 {
          Deliver(Acceleration(payload[0..4], payload[4..8], payload[8..12], payload[12..20]));
        }
      } else if kind == 2 {
        if |payload| == 28 {
          Deliver(RotationVector(payload[0..4], payload[4..8], payload[8..12], payload[12..16], payload[16..20],
                                 payload[20..28]));
        }
      } else if kind == 3 {
        if |payload| == 9 {
          var timestamp := LittleEndian(payload[1..]);
          if current.status != payload[0] && current.timestamp < timestamp {
            current := StatusReport(payload[0], timestamp);
            Deliver(Status(payload[0], payload[1..9]));
          }
        }
      } else if |payload| == 20 {
        Deliver(RotationRate(payload[0..4], payload[4..8], payload[8..12], payload[12..20]));
      }
    }

    /** The serial service: callbacks until the stream has ended, as long as none overruns its buffer. */
    method Run() returns (overran: bool)
      requires Valid()
      modifies this`input, this`current, this`delivered, cm`reg
      ensures var o := DecodeAll(old(input), old(current));
        overran == o.overrun && current == o.current && delivered == old(delivered) + o.deliveries
      ensures !overran ==> Valid() && input == []
    {
      hide DecodeOne;
      overran := false;
      while input != [] && !overran
        invariant !overran ==> Valid()
        invariant var o := DecodeAll(old(input), old(current));
          var p := if overran then Outcome([], current, true) else DecodeAll(input, current);
          o.overrun == p.overrun && o.current == p.current && old(delivered) + o.deliveries == delivered + p.deliveries
        decreases !overran, |input|
      {
        overran := Callback();
      }
    }
  }

  function Smaller(a: nat, b: nat): nat {
    if a <= b then a else b
  }

  /**
   From the firmware's messages to the host's callbacks.  Whatever the line has carried before, as
   long as it holds no start byte, and wherever sending stops, the host delivers exactly the
   understood messages whose frames are whole on the line.
   */
  method Exchange(uart: Uart, ms: seq<Message>) returns (err: EspError, reader: SerialPortReader)
    requires MAGIC !in uart.wire && AreBytes(uart.wire) && forall m :: m in ms ==> WellFormed(m)
    modifies uart
    ensures fresh(reader) && reader.input == [] && |old(uart.wire)| <= |uart.wire|
    ensures reader.delivered == Deliverable(ms[..Whole(ms, |uart.wire| - |old(uart.wire)|)])
    ensures err == Fine ==> reader.delivered == Deliverable(ms)
  {
    hide DecodeOne, WellFormed, Frame;
    err := SendAll(uart, ms);
    ghost var n := |uart.wire| - |old(uart.wire)|;
    TransmissionBytes(ms);
    CutStreamDecoded(old(uart.wire), ms, n, StatusReport({1}, 0));
    AllWhole(ms);
    assert ms[..|ms|] == ms;
    reader := new SerialPortReader(uart.wire);
    var overran := reader.Run();
  }

  lemma {:induction false} TransmissionBytes(ms: seq<Message>)
    requires forall m :: m in ms ==> WellFormed(m)
    ensures AreBytes(Transmission(ms))
  {
    if ms != [] {
      TransmissionBytes(ms[1..]);
      BodyBytes(ms[0]);
      ChecksumMatches(Body(ms[0]));
    }
  }
}
