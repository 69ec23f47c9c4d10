/**
 The incremental frame parser of the serial test script: bytes arrive in reads of any size,
 a buffer keeps what is not yet a whole frame, and every complete frame is cut off its front.
 */
module FrameSplitter {
  import opened BitAlgebra
  import opened CrcDetection
  import opened PythonCrc

  const MAGIC: Bits := {0, 1, 2, 3, 4, 5, 6, 7}
  const HEADER_BYTES := 3
  const CRC_BYTES := 2

  /** One unit of output: a byte outside any frame, or a frame. */
  datatype Token = Skipped(b: Bits) | Frame(bytes: seq<Bits>)

  datatype Parse = Parse(tokens: seq<Token>, rest: seq<Bits>)

  function FrameLength(buffer: seq<Bits>): nat
    requires |buffer| >= HEADER_BYTES
  {
    HEADER_BYTES + Number(buffer[2]) + CRC_BYTES
  }

  /** Whether a unit can be cut off the front: a byte that is not magic, or a whole frame. */
  predicate HasHead(buffer: seq<Bits>) {
    buffer != [] && (buffer[0] != MAGIC || (|buffer| >= HEADER_BYTES && |buffer| >= FrameLength(buffer)))
  }

  function HeadLength(buffer: seq<Bits>): (n: nat)
    requires HasHead(buffer)
    ensures 1 <= n <= |buffer|
  {
    if buffer[0] != MAGIC then 1 else FrameLength(buffer)
  }

  function Head(buffer: seq<Bits>): Token
    requires HasHead(buffer)
  {
    if buffer[0] != MAGIC then Skipped(buffer[0]) else Frame(buffer[..FrameLength(buffer)])
  }

  /** Tokens and leftover of a whole buffer. */
  function Split(buffer: seq<Bits>): Parse
    decreases |buffer|
  {
    if !HasHead(buffer) then Parse([], buffer)
    else
      var p := Split(buffer[HeadLength(buffer)..]);
      Parse([Head(buffer)] + p.tokens, p.rest)
  }

  // ---------- what a parse is, without an algorithm ----------

  function TokenBytes(t: Token): seq<Bits> {
    match t
    case Skipped(b) => [b]
    case Frame(bytes) => bytes
  }

  function AllBytes(ts: seq<Token>): seq<Bits> {
    if ts == [] then [] else TokenBytes(ts[0]) + AllBytes(ts[1..])
  }

  ghost predicate ProperToken(t: Token) {
    match t
    case Skipped(b) => b != MAGIC
    case Frame(bytes) => |bytes| >= HEADER_BYTES && bytes[0] == MAGIC && |bytes| == FrameLength(bytes)
  }

  /** A leftover nothing can be cut off yet. */
  ghost predicate Incomplete(rest: seq<Bits>) {
    rest == [] || (rest[0] == MAGIC && (|rest| < HEADER_BYTES || |rest| < FrameLength(rest)))
  }

  ghost predicate IsParse(p: Parse, buffer: seq<Bits>) {
    && AllBytes(p.tokens) + p.rest == buffer
    && (forall i :: 0 <= i < |p.tokens| ==> ProperToken(p.tokens[i]))
    && Incomplete(p.rest)
  }

  lemma HeadProper(buffer: seq<Bits>)
    requires HasHead(buffer)
    ensures ProperToken(Head(buffer)) && TokenBytes(Head(buffer)) == buffer[..HeadLength(buffer)]
  {
  }

  /** A proper token in front of a parse makes a parse. */
  lemma PrependToken(t: Token, p: Parse, tail: seq<Bits>)
    requires ProperToken(t) && IsParse(p, tail)
    ensures IsParse(Parse([t] + p.tokens, p.rest), TokenBytes(t) + tail)
  {
    hide ProperToken, Incomplete, TokenBytes;
    var ts := [t] + p.tokens;
    assert ts[1..] == p.tokens;
    assert AllBytes(ts) == TokenBytes(t) + AllBytes(p.tokens);
    AppendAssociative(TokenBytes(t), AllBytes(p.tokens), p.rest);
  }

  lemma AppendAssociative<T>(a: seq<T>, b: seq<T>, c: seq<T>)
    ensures (a + b) + c == a + (b + c)
  {
  }

  lemma NoHeadIsParse(buffer: seq<Bits>)
    requires !HasHead(buffer)
    ensures IsParse(Parse([], buffer), buffer)
  {
    hide Number;
    assert [] + buffer == buffer;
  }

  /** Nothing is lost, invented or reordered, and the pieces are what they should be. */
  lemma {:induction false} SplitIsParse(buffer: seq<Bits>)
    ensures IsParse(Split(buffer), buffer)
    decreases |buffer|
  {
    hide HasHead, HeadLength, Head, IsParse, TokenBytes, ProperToken;
    if HasHead(buffer) {
      var k := HeadLength(buffer);
      SplitIsParse(buffer[k..]);
      HeadProper(buffer);
      PrependToken(Head(buffer), Split(buffer[k..]), buffer[k..]);
      assert buffer == buffer[..k] + buffer[k..];
    } else {
      NoHeadIsParse(buffer);
    }
  }

  /** Wherever the start byte 0xFF is followed by a type, a length, as many bytes and two more, that is one frame. */
  lemma FrameIsOneToken(kind: Bits, length: Bits, payload: seq<Bits>, c: seq<Bits>, rest: seq<Bits>)
    requires |payload| == Number(length) && |c| == 2
    ensures Number(MAGIC) == 0xFF
    ensures var frame := [MAGIC, kind, length] + payload + c;
      Split(frame + rest) == Parse([Frame(frame)] + Split(rest).tokens, Split(rest).rest)
  {
    var frame := [MAGIC, kind, length] + payload + c;
    var s := frame + rest;
    assert s[0] == MAGIC && s[2] == length && FrameLength(s) == |frame|;
    hide Number;
    assert HasHead(s) && HeadLength(s) == |frame| && s[..|frame|] == frame && s[|frame|..] == rest;
  }

  lemma ProperHead(t: Token, rest: seq<Bits>)
    requires ProperToken(t)
    ensures HasHead(TokenBytes(t) + rest)
    ensures Head(TokenBytes(t) + rest) == t && HeadLength(TokenBytes(t) + rest) == |TokenBytes(t)|
  {
    if t.Frame? {
      assert (t.bytes + rest)[..|t.bytes|] == t.bytes;
    }
  }

  /** There is only one way to read a buffer. */
  lemma {:induction false} ParseUnique(p: Parse, buffer: seq<Bits>)
    requires IsParse(p, buffer)
    ensures p == Split(buffer)
    decreases |p.tokens|
  {
    if p.tokens == [] {
      assert p.rest == buffer;
    } else {
      hide HasHead, HeadLength, Head, ProperToken, Incomplete, TokenBytes;
      var t, q := p.tokens[0], Parse(p.tokens[1..], p.rest);
      var tail := AllBytes(q.tokens) + q.rest;
      assert ProperToken(t);
      ProperHead(t, tail);
      assert buffer == TokenBytes(t) + tail;
      assert buffer[|TokenBytes(t)|..] == tail;
      ParseUnique(q, tail);
      assert p.tokens == [t] + q.tokens;
    }
  }

  // ---------- chunking does not matter ----------

  lemma HeadStable(a: seq<Bits>, b: seq<Bits>)
    requires HasHead(a)
    ensures HasHead(a + b) && HeadLength(a + b) == HeadLength(a) && Head(a + b) == Head(a)
    ensures (a + b)[HeadLength(a)..] == a[HeadLength(a)..] + b
  {
    if a[0] == MAGIC {
      assert (a + b)[..FrameLength(a)] == a[..FrameLength(a)];
    }
  }

  /** Reading a, keeping the leftover and then reading b gives what reading a + b at once gives. */
  lemma {:induction false} SplitAppend(a: seq<Bits>, b: seq<Bits>)
    ensures var first := Split(a);
      var second := Split(first.rest + b);
      Split(a + b) == Parse(first.tokens + second.tokens, second.rest)
    decreases |a|
  {
    hide HasHead, HeadLength, Head;
    if HasHead(a) {
      HeadStable(a, b);
      SplitAppend(a[HeadLength(a)..], b);
      var p := Split(a[HeadLength(a)..]);
      AppendAssociative([Head(a)], p.tokens, Split(p.rest + b).tokens);
    } else {
      assert [] + Split(a + b).tokens == Split(a + b).tokens;
    }
  }

  function Concat(chunks: seq<seq<Bits>>): seq<Bits> {
    if chunks == [] then [] else Concat(chunks[..|chunks| - 1]) + chunks[|chunks| - 1]
  }

  /** Tokens and leftover after reading chunk by chunk. */
  function ReadAll(chunks: seq<seq<Bits>>): Parse {
    if chunks == [] then Parse([], [])
    else
      var before := ReadAll(chunks[..|chunks| - 1]);
      var p := Split(before.rest + chunks[|chunks| - 1]);
      Parse(before.tokens + p.tokens, p.rest)
  }

  /** However a stream is cut into reads, the frames, the skipped bytes and the leftover are those of one pass over it. */
  lemma {:induction false} ChunkingIrrelevant(chunks: seq<seq<Bits>>)
    ensures ReadAll(chunks) == Split(Concat(chunks))
  {
    if chunks != [] {
      ChunkingIrrelevant(chunks[..|chunks| - 1]);
      SplitAppend(Concat(chunks[..|chunks| - 1]), chunks[|chunks| - 1]);
    }
  }

  // ---------- the parser ----------

  /** What the script writes: a run of bytes out of sync, or a frame and whether its checksum is right. */
  datatype Line = Unsynced(bytes: seq<Bits>) | Complete(bytes: seq<Bits>, crcOk: bool)

  /** The verdict on every frame is right. */
  ghost predicate Reported(lines: seq<Line>) {
    forall i :: 0 <= i < |lines| && lines[i].Complete? ==> (lines[i].crcOk <==> ValidFrame(lines[i].bytes))
  }

  function SkippedAll(bytes: seq<Bits>): seq<Token> {
    seq(|bytes|, i requires 0 <= i < |bytes| => Skipped(bytes[i]))
  }

  function Tokens(lines: seq<Line>): seq<Token> {
    if lines == [] then []
    else
      var l := lines[|lines| - 1];
      Tokens(lines[..|lines| - 1])
      + match l { case Unsynced(bytes) => SkippedAll(bytes) case Complete(bytes, _) => [Frame(bytes)] }
  }

  lemma TokensAppend(lines: seq<Line>, l: Line)
    ensures Tokens(lines + [l])
         == Tokens(lines) + match l { case Unsynced(bytes) => SkippedAll(bytes) case Complete(bytes, _) => [Frame(bytes)] }
  {
    assert (lines + [l])[..|lines|] == lines;
  }

  /** A run without the magic byte is skipped as a whole. */
  lemma {:induction false} SplitSkips(run: seq<Bits>, rest: seq<Bits>)
    requires forall i :: 0 <= i < |run| ==> run[i] != MAGIC
    ensures Split(run + rest) == Parse(SkippedAll(run) + Split(rest).tokens, Split(rest).rest)
  {
    if run == [] {
      assert run + rest == rest;
    } else {
      assert HasHead(run + rest) && HeadLength(run + rest) == 1 && Head(run + rest) == Skipped(run[0]);
      hide HasHead, HeadLength, Head;
      assert (run + rest)[1..] == run[1..] + rest;
      SplitSkips(run[1..], rest);
      assert [Skipped(run[0])] + (SkippedAll(run[1..]) + Split(rest).tokens)
          == ([Skipped(run[0])] + SkippedAll(run[1..])) + Split(rest).tokens;
      assert SkippedAll(run) == [Skipped(run[0])] + SkippedAll(run[1..]);
    }
  }

  /** What will have been written, and left over, once the buffer is dealt with. */
  ghost function Pending(lines: seq<Line>, buffer: seq<Bits>): Parse {
    Parse(Tokens(lines) + Split(buffer).tokens, Split(buffer).rest)
  }

  lemma PendingNothing(lines: seq<Line>, buffer: seq<Bits>)
    requires Incomplete(buffer)
    ensures Pending(lines, buffer) == Parse(Tokens(lines), buffer)
  {
  }

  lemma PendingSkip(lines: seq<Line>, buffer: seq<Bits>, n: nat)
    requires n <= |buffer| && forall i :: 0 <= i < n ==> buffer[i] != MAGIC
    ensures Pending(lines + [Unsynced(buffer[..n])], buffer[n..]) == Pending(lines, buffer)
  {
    hide Split, Tokens, SkippedAll;
    SplitSkips(buffer[..n], buffer[n..]);
    assert buffer[..n] + buffer[n..] == buffer;
    TokensAppend(lines, Unsynced(buffer[..n]));
    AppendAssociative(Tokens(lines), SkippedAll(buffer[..n]), Split(buffer[n..]).tokens);
  }

  lemma PendingFrame(lines: seq<Line>, buffer: seq<Bits>, crcOk: bool)
    requires |buffer| >= HEADER_BYTES && buffer[0] == MAGIC && |buffer| >= FrameLength(buffer)
    ensures Pending(lines + [Complete(buffer[..FrameLength(buffer)], crcOk)], buffer[FrameLength(buffer)..])
         == Pending(lines, buffer)
  {
    var n := FrameLength(buffer);
    var p := Split(buffer[n..]);
    assert Split(buffer) == Parse([Frame(buffer[..n])] + p.tokens, p.rest);
    TokensAppend(lines, Complete(buffer[..n], crcOk));
    AppendAssociative(Tokens(lines), [Frame(buffer[..n])], p.tokens);
  }

  class Splitter {
    var buffer: seq<Bits>
    var lines: seq<Line>

    constructor ()
      ensures buffer == [] && lines == []
    {
      buffer, lines := [], [];
    }

    /** The index of the first magic byte, or -1. */
    method Find() returns (index: int)
      ensures index < 0 ==> forall i :: 0 <= i < |buffer| ==> buffer[i] != MAGIC
      ensures index >= 0 ==> index < |buffer| && buffer[index] == MAGIC && forall i :: 0 <= i < index ==> buffer[i] != MAGIC
    {
      index := 0;
      while index < |buffer|
        invariant 0 <= index <= |buffer|
        invariant forall i :: 0 <= i < index ==> buffer[i] != MAGIC
      {
        if buffer[index] == MAGIC {
          return;
        }
        index := index + 1;
      }
      index := -1;
    }

    /** report_crc: whether the last two bytes of a frame are the checksum of the ones before. */
    method ReportCrc(frame: seq<Bits>) returns (ok: bool)
      requires |frame| >= HEADER_BYTES + CRC_BYTES && AreBytes(frame)
      ensures ok <==> ValidFrame(frame)
    {
      var n := |frame|;
      var receivedCrc := Shift(frame[n - 2], 8) + frame[n - 1];
      var calculatedCrc := Crc16CcittFalse(frame[..n - 2]);
      ok := receivedCrc == calculatedCrc;
    }

    /** emit_complete_frames: cuts everything complete off the buffer. */
    method EmitCompleteFrames()
      requires AreBytes(buffer) && Reported(lines)
      modifies this
      ensures AreBytes(buffer) && Reported(lines)
      ensures buffer == Split(old(buffer)).rest
      ensures Tokens(lines) == Tokens(old(lines)) + Split(old(buffer)).tokens
    {
      hide Split, Tokens, SkippedAll, ValidFrame, Number;
      ghost var goal := Parse(Tokens(lines) + Split(buffer).tokens, Split(buffer).rest);
      while buffer != []
        invariant AreBytes(buffer) && Reported(lines)
        invariant Pending(lines, buffer) == goal
        decreases |buffer|
      {
        var magicIndex := Find();
        if magicIndex < 0 {
          PendingSkip(lines, buffer, |buffer|);
          assert buffer[..|buffer|] == buffer && buffer[|buffer|..] == [];
          lines := lines + [Unsynced(buffer)];
          buffer := [];
          PendingNothing(lines, buffer);
          return;
        }
        if magicIndex > 0 {
          PendingSkip(lines, buffer, magicIndex);
          lines := lines + [Unsynced(buffer[..magicIndex])];
          buffer := buffer[magicIndex..];
        }
        if |buffer| < HEADER_BYTES {
          PendingNothing(lines, buffer);
          return;
        }
        var frameLength := FrameLength(buffer);
        if |buffer| < frameLength {
          PendingNothing(lines, buffer);
          return;
        }
        var frame := buffer[..frameLength];
        var crcOk := ReportCrc(frame);
        PendingFrame(lines, buffer, crcOk);
        buffer := buffer[frameLength..];
        lines := lines + [Complete(frame, crcOk)];
      }
      PendingNothing(lines, buffer);
    }

    /** One read: append to the buffer and emit. */
    method Receive(data: seq<Bits>)
      requires AreBytes(buffer) && AreBytes(data) && Reported(lines)
      modifies this
      ensures AreBytes(buffer) && Reported(lines)
      ensures buffer == Split(old(buffer) + data).rest
      ensures Tokens(lines) == Tokens(old(lines)) + Split(old(buffer) + data).tokens
    {
      buffer := buffer + data;
      EmitCompleteFrames();
    }

    /** The read loop, over any chunks a stream arrives in. */
    method ReceiveAll(chunks: seq<seq<Bits>>)
      requires buffer == [] && lines == [] && forall k :: 0 <= k < |chunks| ==> AreBytes(chunks[k])
      modifies this
      ensures Reported(lines)
      ensures Parse(Tokens(lines), buffer) == Split(Concat(chunks))
    {
      for k := 0 to |chunks|
        invariant AreBytes(buffer) && Reported(lines)
        invariant Parse(Tokens(lines), buffer) == ReadAll(chunks[..k])
      {
        assert chunks[..k + 1][..k] == chunks[..k];
        Receive(chunks[k]);
      }
      assert chunks[..|chunks|] == chunks;
      ChunkingIrrelevant(chunks);
    }
  }
}
