/**
 What the checksum of a frame detects.  A frame is a message followed by its two checksum
 bytes, high byte first; it is valid exactly when the engine, run over all of it, ends at zero.
 */
module CrcDetection {
  import opened BitAlgebra
  import opened CrcModel
  import opened Crc

  type Byte = Bits

  ghost predicate AreBytes(bytes: seq<Bits>) {
    forall k :: 0 <= k < |bytes| ==> Below(bytes[k], 8)
  }

  /** The comparison of ValidateMessage: the checksum of the message is the received one. */
  ghost predicate Valid(message: seq<Bits>, high: Bits, low: Bits) {
    Output(CcittFalse(), Register(CcittFalse(), message)) == Shift(high, 8) + low
  }

  method ValidateMessage(engine: Engine, message: seq<Bits>, high: Bits, low: Bits) returns (ok: bool)
    requires engine.Valid() && engine.params == CcittFalse() && AreBytes(message) && Below(high, 8) && Below(low, 8)
    modifies engine`reg
    ensures engine.Valid() && ok == Valid(message, high, low)
  {
    engine.Initialise();
    engine.Block(message);
    var real' := engine.Result();
    var received := ShiftLeft(high, 8, 16) + low;
    assert ShiftLeft(high, 8, 16) == Shift(high, 8);
    ok := real' == received;
  }

  lemma CcittProper()
    ensures Proper(CcittFalse()) && 0 in CcittFalse().poly && |CcittFalse().poly| == 3
  {
  }

  lemma CcittWidth()
    ensures CcittFalse().width == 16
  {
  }

  // ---------- valid frames end at zero ----------

  lemma AdvanceKernel(c: Params, r: Bits)
    requires Proper(c) && 0 in c.poly && Below(r, c.width)
    ensures Advance(c, r) == {} <==> r == {}
  {
    if i :| i in r {
      if c.width - 1 in r {
        assert 0 in Advance(c, r);
      } else {
        assert i + 1 in Advance(c, r);
      }
    } else {
      assert Shift(r, 1) == {};
    }
  }

  lemma {:induction false} AdvanceByKernel(c: Params, r: Bits, k: nat)
    requires Proper(c) && 0 in c.poly && Below(r, c.width)
    ensures AdvanceBy(c, r, k) == {} <==> r == {}
    decreases k
  {
    if k > 0 {
      AdvanceBelow(c, r);
      AdvanceByKernel(c, Advance(c, r), k - 1);
      AdvanceKernel(c, r);
    }
  }

  /** Up to w further bits bring the register to zero exactly when they repeat its top bits and the rest is zero. */
  lemma ZeroAfter(c: Params, r: Bits, e: seq<bool>)
    requires Proper(c) && 0 in c.poly && Below(r, c.width) && |e| <= c.width
    ensures FeedAll(c, r, e) == {} <==> r == Placed(e, c.width)
  {
    TopBits(c, r, e);
    var d := Xor(r, Placed(e, c.width));
    assert d == {} <==> r == Placed(e, c.width);
    AdvanceByKernel(c, d, |e|);
  }

  /** A frame is valid exactly when the register over message and checksum together ends at zero. */
  lemma ValidEndsAtZero(message: seq<Bits>, high: Bits, low: Bits)
    requires AreBytes(message) && Below(high, 8) && Below(low, 8)
    ensures Valid(message, high, low) <==> Register(CcittFalse(), message + [high, low]) == {}
  {
    var c := CcittFalse();
    CcittProper();
    var r := Register(c, message);
    FeedAllBelow(c, c.init, MessageBits(c, message));
    ChecksumBits(message, high, low);
    FeedAllConcat(c, c.init, MessageBits(c, message), ByteBits(high) + ByteBits(low));
    ZeroAfter(c, r, ByteBits(high) + ByteBits(low));
    PlacedChecksum(high, low);
    XorLaws(r, {}, {});
  }

  lemma ChecksumBits(message: seq<Bits>, high: Bits, low: Bits)
    ensures MessageBits(CcittFalse(), message + [high, low])
         == MessageBits(CcittFalse(), message) + (ByteBits(high) + ByteBits(low))
  {
    var f := message + [high, low];
    assert f[..|f| - 1] == message + [high];
    assert (message + [high])[..|message|] == message;
  }

  lemma PlacedChecksum(high: Bits, low: Bits)
    requires Below(high, 8) && Below(low, 8)
    ensures Placed(ByteBits(high) + ByteBits(low), 16) == Shift(high, 8) + low
  {
    hide Placed, Shift;
    var e := ByteBits(high) + ByteBits(low);
    forall j: nat ensures j in Placed(e, 16) <==> j in Shift(high, 8) + low {
      if 8 <= j < 16 {
        assert e[15 - j] == (j - 8 in high);
      } else if j < 8 {
        assert e[15 - j] == (j in low);
      }
    }
  }

  // ---------- detected differences ----------

  function FrameBits(frame: seq<Bits>): (r: seq<bool>)
    ensures |r| == 8 * |frame|
  {
    MessageBits(CcittFalse(), frame)
  }

  ghost predicate ValidFrame(frame: seq<Bits>) {
    |frame| >= 2 && AreBytes(frame) && Valid(frame[..|frame| - 2], frame[|frame| - 2], frame[|frame| - 1])
  }

  lemma {:induction false} FrameBitsInjective(f: seq<Bits>, g: seq<Bits>)
    requires |f| == |g| && AreBytes(f) && AreBytes(g) && FrameBits(f) == FrameBits(g)
    ensures f == g
  {
    if f != [] {
      var n := |f| - 1;
      assert FrameBits(f[..n]) == FrameBits(f)[..8 * n] && FrameBits(g[..n]) == FrameBits(g)[..8 * n];
      FrameBitsInjective(f[..n], g[..n]);
      assert ByteBits(f[n]) == FrameBits(f)[8 * n..] && ByteBits(g[n]) == FrameBits(g)[8 * n..];
      ByteBitsInjective(f[n], g[n]);
      assert f == f[..n] + [f[n]] && g == g[..n] + [g[n]];
    }
  }

  lemma ByteBitsInjective(a: Bits, b: Bits)
    requires Below(a, 8) && Below(b, 8) && ByteBits(a) == ByteBits(b)
    ensures a == b
  {
    forall j: nat ensures j in a <==> j in b {
      if j < 8 {
        assert ByteBits(a)[7 - j] == (j in a) && ByteBits(b)[7 - j] == (j in b);
      }
    }
  }

  /** The bits in which two valid frames of one length differ bring a zero register back to zero. */
  lemma DifferenceEndsAtZero(f: seq<Bits>, g: seq<Bits>)
    requires ValidFrame(f) && ValidFrame(g) && |f| == |g|
    ensures FeedAll(CcittFalse(), {}, XorSeq(FrameBits(f), FrameBits(g))) == {}
  {
    var n, c := |f| - 2, CcittFalse();
    ValidEndsAtZero(f[..n], f[n], f[n + 1]);
    ValidEndsAtZero(g[..n], g[n], g[n + 1]);
    assert f == f[..n] + [f[n], f[n + 1]] && g == g[..n] + [g[n], g[n + 1]];
    RunsDiffer(c, c.init, c.init, FrameBits(f), FrameBits(g));
    XorLaws(c.init, {}, {});
  }

  lemma {:induction false} FeedZeros(c: Params, r: Bits, e: seq<bool>)
    requires Proper(c) && 0 in c.poly && Below(r, c.width) && forall k :: 0 <= k < |e| ==> !e[k]
    ensures FeedAll(c, r, e) == {} <==> r == {}
  {
    if e != [] {
      var n := |e| - 1;
      FeedZeros(c, r, e[..n]);
      FeedAllBelow(c, r, e[..n]);
      AdvanceKernel(c, FeedAll(c, r, e[..n]));
    }
  }

  /**
   Two valid frames of one length whose bits differ only within some sixteen consecutive
   positions are the same frame: no burst of sixteen bits or fewer goes unnoticed.
   */
  lemma BurstDetected(f: seq<Bits>, g: seq<Bits>, start: nat, length: nat)
    requires ValidFrame(f) && ValidFrame(g) && |f| == |g|
    requires length <= 16 && start + length <= 8 * |f|
    requires forall k :: 0 <= k < 8 * |f| && !(start <= k < start + length) ==> FrameBits(f)[k] == FrameBits(g)[k]
    ensures f == g
  {
    hide FeedAll, FrameBits, CcittFalse, Proper, AreBytes;
    CcittProper();
    CcittWidth();
    DifferenceEndsAtZero(f, g);
    var d := XorSeq(FrameBits(f), FrameBits(g));
    BurstIsEmpty(CcittFalse(), d, start, length);
    forall k | 0 <= k < |d| ensures FrameBits(f)[k] == FrameBits(g)[k] {
      assert !d[k];
    }
    assert FrameBits(f) == FrameBits(g);
    FrameBitsInjective(f, g);
  }

  /** A difference confined to w consecutive bits that brings zero back to zero is no difference. */
  lemma BurstIsEmpty(c: Params, d: seq<bool>, start: nat, length: nat)
    requires Proper(c) && 0 in c.poly && FeedAll(c, {}, d) == {}
    requires length <= c.width && start + length <= |d|
    requires forall k :: 0 <= k < |d| && !(start <= k < start + length) ==> !d[k]
    ensures forall k :: 0 <= k < |d| ==> !d[k]
  {
    hide FeedAll, Placed;
    var a, b, e := d[..start], d[start..start + length], d[start + length..];
    assert d == a + (b + e);
    FeedAllConcat(c, {}, a, b + e);
    FeedZeros(c, {}, a);
    FeedAllConcat(c, {}, b, e);
    FeedAllBelow(c, {}, b);
    FeedZeros(c, FeedAll(c, {}, b), e);
    ZeroAfter(c, {}, b);
    EmptyPlaced(b, c.width);
    forall k | 0 <= k < |d| ensures !d[k] {
      if start <= k < start + length {
        assert d[k] == b[k - start];
      }
    }
  }

  lemma EmptyPlaced(b: seq<bool>, w: nat)
    requires |b| <= w && Placed(b, w) == {}
    ensures forall k :: 0 <= k < |b| ==> !b[k]
  {
    forall k | 0 <= k < |b| ensures !b[k] {
      assert w - 1 - k !in Placed(b, w);
    }
  }

  function CountTrue(e: seq<bool>): nat {
    if e == [] then 0 else CountTrue(e[..|e| - 1]) + if e[|e| - 1] then 1 else 0
  }

  lemma AdvanceParity(c: Params, r: Bits)
    requires Proper(c) && |c.poly| % 2 == 1 && Below(r, c.width)
    ensures |Advance(c, r)| % 2 == |r| % 2
  {
    hide Shift, Xor;
    ShiftWeight(r, 1);
    var s := Low(Shift(r, 1), c.width);
    if c.width - 1 in r {
      assert Shift(r, 1) == s + {c.width};
      XorWeight(s, c.poly);
    } else {
      assert Shift(r, 1) == s;
    }
  }

  lemma {:induction false} FeedParity(c: Params, e: seq<bool>)
    requires Proper(c) && |c.poly| % 2 == 1
    ensures |FeedAll(c, {}, e)| % 2 == CountTrue(e) % 2
  {
    hide Feed;
    if e != [] {
      var n := |e| - 1;
      FeedParity(c, e[..n]);
      FeedAllBelow(c, {}, e[..n]);
      FeedOneParity(c, FeedAll(c, {}, e[..n]), e[n]);
    }
  }

  lemma TopBelow(c: Params, r: Bits)
    requires c.width >= 1 && Below(r, c.width)
    ensures Below(Xor(r, {c.width - 1}), c.width)
  {
  }

  lemma FeedOneParity(c: Params, r: Bits, b: bool)
    requires Proper(c) && |c.poly| % 2 == 1 && Below(r, c.width)
    ensures |Feed(c, r, b)| % 2 == (|r| + if b then 1 else 0) % 2
  {
    hide Xor, Advance;
    var t := {c.width - 1};
    assert |t| == 1;
    XorWeight(r, t);
    TopBelow(c, r);
    AdvanceParity(c, if b then Xor(r, t) else r);
  }

  /** Two valid frames of one length differ in an even number of bits: odd damage is noticed at any length. */
  lemma OddDamageDetected(f: seq<Bits>, g: seq<Bits>)
    requires ValidFrame(f) && ValidFrame(g) && |f| == |g|
    ensures CountTrue(XorSeq(FrameBits(f), FrameBits(g))) % 2 == 0
  {
    CcittProper();
    DifferenceEndsAtZero(f, g);
    FeedParity(CcittFalse(), XorSeq(FrameBits(f), FrameBits(g)));
  }
}
