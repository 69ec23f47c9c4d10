/**
 The Rocksoft CRC model as division of polynomials over GF(2): a register of w bits fed one
 message bit at a time, highest bit first.
 */
module CrcModel {
  import opened BitAlgebra

  datatype Params = Params(width: nat, poly: Bits, init: Bits, refin: bool, refot: bool, xorot: Bits)

  ghost predicate Proper(c: Params) {
    c.width >= 8 && Below(c.poly, c.width) && Below(c.init, c.width) && Below(c.xorot, c.width)
  }

  /** CRC-16/CCITT-FALSE: x^16 + x^12 + x^5 + 1, all ones to start with. */
  function CcittFalse(): Params {
    Params(16, {0, 5, 12}, {0, 1, 2, 3, 4, 5, 6, 7, 8, 9, 10, 11, 12, 13, 14, 15}, false, false, {})
  }

  /** The full generator x^w + poly. */
  function Generator(c: Params): Bits {
    c.poly + {c.width}
  }

  // ---------- the register ----------

  /** The register times x, reduced. */
  function Advance(c: Params, r: Bits): Bits
    requires c.width >= 1
  {
    var s := Low(Shift(r, 1), c.width);
    if c.width - 1 in r then Xor(s, c.poly) else s
  }

  function AdvanceBy(c: Params, r: Bits, k: nat): Bits
    requires c.width >= 1
    decreases k
  {
    if k == 0 then r else AdvanceBy(c, Advance(c, r), k - 1)
  }

  /** One message bit enters at the top. */
  function Feed(c: Params, r: Bits, b: bool): Bits
    requires c.width >= 1
  {
    Advance(c, if b then Xor(r, {c.width - 1}) else r)
  }

  function FeedAll(c: Params, r: Bits, bits: seq<bool>): Bits
    requires c.width >= 1
  {
    if bits == [] then r else Feed(c, FeedAll(c, r, bits[..|bits| - 1]), bits[|bits| - 1])
  }

  /** The bits of a byte, highest first. */
  function ByteBits(b: Bits): (r: seq<bool>)
    ensures |r| == 8
  {
    seq(8, i requires 0 <= i < 8 => 7 - i in b)
  }

  /** The low n bits in reverse; higher ones stay. */
  function Reflect(a: Bits, n: nat): (r: Bits)
    ensures forall j: nat {:trigger j in r} :: j in r <==> if j < n then n - 1 - j in a else j in a
  {
    var r := set i | i in a :: if i < n then n - 1 - i else i;
    assert forall j: nat {:trigger j in r} :: (if j < n then n - 1 - j in a else j in a) ==> j in r by {
      forall j: nat | if j < n then n - 1 - j in a else j in a ensures j in r {
        var i := if j < n then n - 1 - j else j;
        assert i in a && (if i < n then n - 1 - i else i) == j;
      }
    }
    r
  }

  /** A message byte as it enters the register. */
  function Entering(c: Params, b: Bits): Bits {
    if c.refin then Reflect(b, 8) else b
  }

  function MessageBits(c: Params, bytes: seq<Bits>): (r: seq<bool>)
    ensures |r| == 8 * |bytes|
  {
    if bytes == [] then []
    else MessageBits(c, bytes[..|bytes| - 1]) + ByteBits(Entering(c, bytes[|bytes| - 1]))
  }

  /** The register after a message. */
  function Register(c: Params, bytes: seq<Bits>): Bits
    requires c.width >= 1
  {
    FeedAll(c, c.init, MessageBits(c, bytes))
  }

  /** The checksum a register stands for. */
  function Output(c: Params, r: Bits): Bits {
    Xor(c.xorot, if c.refot then Reflect(r, c.width) else r)
  }

  // ---------- algebra of the register ----------

  lemma FeedAllAppend(c: Params, r: Bits, p: seq<bool>, b: bool)
    requires c.width >= 1
    ensures FeedAll(c, r, p + [b]) == Feed(c, FeedAll(c, r, p), b)
  {
    assert (p + [b])[..|p|] == p;
  }

  lemma {:induction false} FeedAllConcat(c: Params, r: Bits, p: seq<bool>, q: seq<bool>)
    requires c.width >= 1
    ensures FeedAll(c, r, p + q) == FeedAll(c, FeedAll(c, r, p), q)
  {
    if q == [] {
      assert p + q == p;
    } else {
      var n := |q| - 1;
      FeedAllConcat(c, r, p, q[..n]);
      assert p + q == (p + q[..n]) + [q[n]];
      FeedAllAppend(c, r, p + q[..n], q[n]);
    }
  }

  lemma FeedAllHead(c: Params, r: Bits, e: seq<bool>)
    requires c.width >= 1 && |e| >= 1
    ensures FeedAll(c, r, e) == FeedAll(c, Feed(c, r, e[0]), e[1..])
  {
    assert [e[0]] + e[1..] == e && [] + [e[0]] == [e[0]];
    FeedAllConcat(c, r, [e[0]], e[1..]);
    FeedAllAppend(c, r, [], e[0]);
  }

  lemma AdvanceBelow(c: Params, r: Bits)
    requires Proper(c)
    ensures Below(Advance(c, r), c.width)
  {
  }

  lemma {:induction false} FeedAllBelow(c: Params, r: Bits, bits: seq<bool>)
    requires Proper(c) && Below(r, c.width)
    ensures Below(FeedAll(c, r, bits), c.width)
  {
    if bits != [] {
      FeedAllBelow(c, r, bits[..|bits| - 1]);
      AdvanceBelow(c, FeedAll(c, r, bits[..|bits| - 1]));
    }
  }

  lemma AdvanceLinear(c: Params, a: Bits, b: Bits)
    requires c.width >= 1
    ensures Advance(c, Xor(a, b)) == Xor(Advance(c, a), Advance(c, b))
  {
    ShiftXor(a, b, 1);
  }

  lemma {:induction false} AdvanceByLinear(c: Params, a: Bits, b: Bits, k: nat)
    requires c.width >= 1
    ensures AdvanceBy(c, Xor(a, b), k) == Xor(AdvanceBy(c, a, k), AdvanceBy(c, b, k))
    decreases k
  {
    if k > 0 {
      AdvanceLinear(c, a, b);
      AdvanceByLinear(c, Advance(c, a), Advance(c, b), k - 1);
    }
  }

  lemma FeedLinear(c: Params, a: Bits, b: Bits, p: bool, q: bool)
    requires c.width >= 1
    ensures Xor(Feed(c, a, p), Feed(c, b, q)) == Feed(c, Xor(a, b), p != q)
  {
    hide Advance;
    var t := {c.width - 1};
    var a', b' := if p then Xor(a, t) else a, if q then Xor(b, t) else b;
    AdvanceLinear(c, a', b');
    assert Xor(a', b') == if p != q then Xor(Xor(a, b), t) else Xor(a, b);
  }

  /** Two runs over equally long inputs differ by the run over the difference. */
  lemma {:induction false} RunsDiffer(c: Params, a: Bits, b: Bits, p: seq<bool>, q: seq<bool>)
    requires c.width >= 1 && |p| == |q|
    ensures Xor(FeedAll(c, a, p), FeedAll(c, b, q)) == FeedAll(c, Xor(a, b), XorSeq(p, q))
  {
    if p != [] {
      var n := |p| - 1;
      assert XorSeq(p, q)[..n] == XorSeq(p[..n], q[..n]);
      RunsDiffer(c, a, b, p[..n], q[..n]);
      FeedLinear(c, FeedAll(c, a, p[..n]), FeedAll(c, b, q[..n]), p[n], q[n]);
    }
  }

  // ---------- bits entering all at once ----------

  /** The given bits, highest first, at the top of a register of w bits. */
  function Placed(e: seq<bool>, w: nat): (r: Bits)
    requires |e| <= w
    ensures forall j: nat {:trigger j in r} :: j in r <==> w - |e| <= j < w && e[w - 1 - j]
  {
    var r: Bits := set k | 0 <= k < |e| && e[k] :: w - 1 - k;
    assert forall j: nat {:trigger j in r} :: w - |e| <= j < w && e[w - 1 - j] ==> j in r by {
      forall j: nat | w - |e| <= j < w && e[w - 1 - j] ensures j in r {
        var k := w - 1 - j;
        assert e[k] && w - 1 - k == j;
      }
    }
    r
  }

  /** All but the first of the placed bits. */
  function PlacedTail(e: seq<bool>, w: nat): Bits
    requires 1 <= |e| <= w
  {
    Placed(e, w) - {w - 1}
  }

  lemma PlacedSplits(c: Params, e: seq<bool>, r: Bits)
    requires 1 <= |e| <= c.width
    ensures Xor(r, Placed(e, c.width)) == Xor(if e[0] then Xor(r, {c.width - 1}) else r, PlacedTail(e, c.width))
    ensures Advance(c, PlacedTail(e, c.width)) == Placed(e[1..], c.width)
  {
    var t, rest := PlacedTail(e, c.width), Placed(e[1..], c.width);
    assert c.width - 1 in Placed(e, c.width) <==> e[0];
    forall j: nat ensures j in Low(Shift(t, 1), c.width) <==> j in rest {
      if c.width - |e| < j < c.width {
        assert e[1..][c.width - 1 - j] == e[c.width - j];
      }
    }
    assert Low(Shift(t, 1), c.width) == rest;
  }

  lemma AdvanceByUnfold(c: Params, r: Bits, k: nat)
    requires c.width >= 1
    ensures AdvanceBy(c, r, k) == if k == 0 then r else AdvanceBy(c, Advance(c, r), k - 1)
  {
  }

  lemma NothingPlaced(c: Params, r: Bits, e: seq<bool>)
    requires c.width >= 1 && e == []
    ensures Xor(r, Placed(e, c.width)) == r == FeedAll(c, r, e)
  {
    assert Placed(e, c.width) == {};
  }

  /** Adding bits at the top and advancing equals feeding them one at a time. */
  lemma {:induction false} TopBits(c: Params, r: Bits, e: seq<bool>)
    requires c.width >= |e| && c.width >= 1
    ensures AdvanceBy(c, Xor(r, Placed(e, c.width)), |e|) == FeedAll(c, r, e)
    decreases |e|
  {
    hide *;
    AdvanceByUnfold(c, Xor(r, Placed(e, c.width)), |e|);
    if e == [] {
      NothingPlaced(c, r, e);
    } else {
      TopBitsStep(c, r, e);
      TopBits(c, Feed(c, r, e[0]), e[1..]);
      FeedAllHead(c, r, e);
    }
  }

  lemma TopBitsStep(c: Params, r: Bits, e: seq<bool>)
    requires 1 <= |e| <= c.width
    ensures Advance(c, Xor(r, Placed(e, c.width))) == Xor(Feed(c, r, e[0]), Placed(e[1..], c.width))
  {
    hide Placed, PlacedTail, Advance, Xor;
    var head := if e[0] then Xor(r, {c.width - 1}) else r;
    PlacedSplits(c, e, r);
    AdvanceLinear(c, head, PlacedTail(e, c.width));
  }

  /** A byte entering at the top, as cm_nxt does it. */
  lemma TopByte(c: Params, r: Bits, b: Bits)
    requires Proper(c) && Below(b, 8)
    ensures AdvanceBy(c, Xor(r, Shift(b, c.width - 8)), 8) == FeedAll(c, r, ByteBits(b))
  {
    assert Shift(b, c.width - 8) == Placed(ByteBits(b), c.width);
    TopBits(c, r, ByteBits(b));
  }

  // ---------- remainder ----------

  /** The polynomial divided: init in front of the message, times x^w. */
  function Dividend(c: Params, bits: seq<bool>): Bits {
    Xor(Shift(c.init, |bits|), Shift(Poly(bits), c.width))
  }

  lemma DividendAppend(c: Params, bits: seq<bool>, b: bool)
    ensures Dividend(c, bits + [b]) == Xor(Shift(Dividend(c, bits), 1), if b then {c.width} else {})
  {
    hide Shift, Xor, Poly;
    var i, m, one, top: Bits := Shift(c.init, |bits|), Poly(bits), if b then {0} else {}, if b then {c.width} else {};
    PolyAppend(bits, b);
    ShiftTwice(c.init, |bits|, 1);
    ShiftXor(Shift(m, 1), one, c.width);
    ShiftTwice(m, 1, c.width);
    ShiftTwice(m, c.width, 1);
    ShiftXor(i, Shift(m, c.width), 1);
    assert Shift(one, c.width) == top;
    XorLaws(Shift(i, 1), Shift(m, c.width + 1), top);
  }

  /** One step of long division. */
  lemma DivisionStep(c: Params, r: Bits, b: bool)
    requires Proper(c) && Below(r, c.width)
    ensures var carry := (c.width - 1 in r) != b;
      Xor(Shift(r, 1), if b then {c.width} else {}) == Xor(if carry then Generator(c) else {}, Feed(c, r, b))
  {
    var carry := (c.width - 1 in r) != b;
    var s := if b then Xor(r, {c.width - 1}) else r;
    assert c.width - 1 in s <==> carry;
    assert Low(Shift(s, 1), c.width) == Low(Shift(r, 1), c.width);
    assert c.width !in c.poly;
    assert Generator(c) == Xor(c.poly, {c.width});
  }

  /**
   The register after a message of n bytes never leaves its w bits and is the remainder of
   init * x^8n + message * x^w by the generator x^w + poly; there is no other remainder.
   */
  lemma RegisterIsRemainder(c: Params, bytes: seq<Bits>)
    requires Proper(c)
    ensures var a := Xor(Shift(c.init, 8 * |bytes|), Shift(Poly(MessageBits(c, bytes)), c.width));
      && IsRemainder(a, Generator(c), c.width, Register(c, bytes))
      && forall r :: IsRemainder(a, Generator(c), c.width, r) ==> r == Register(c, bytes)
  {
    var bits := MessageBits(c, bytes);
    var q := DivideBits(c, bits);
    forall r | IsRemainder(Dividend(c, bits), Generator(c), c.width, r) ensures r == Register(c, bytes) {
      RemainderUnique(Dividend(c, bits), Generator(c), c.width, r, Register(c, bytes));
    }
  }

  /** Long division of a message of any number of bits. */
  lemma {:induction false} DivideBits(c: Params, bits: seq<bool>) returns (q: seq<bool>)
    requires Proper(c)
    ensures |q| == |bits|
    ensures Dividend(c, bits) == Xor(Mul(q, Generator(c)), FeedAll(c, c.init, bits))
    ensures IsRemainder(Dividend(c, bits), Generator(c), c.width, FeedAll(c, c.init, bits))
  {
    FeedAllBelow(c, c.init, bits);
    if bits == [] {
      q := [];
      ShiftTwice(c.init, 0, 0);
      assert Dividend(c, bits) == c.init;
    } else {
      var n := |bits| - 1;
      var front, b := bits[..n], bits[n];
      assert bits == front + [b];
      var p := DivideBits(c, front);
      var r := FeedAll(c, c.init, front);
      FeedAllBelow(c, c.init, front);
      var carry := (c.width - 1 in r) != b;
      q := p + [carry];
      DividendAppend(c, front, b);
      DivisionStep(c, r, b);
      MulAppend(p, carry, Generator(c));
      ShiftXor(Mul(p, Generator(c)), r, 1);
      XorRegroup(Shift(Mul(p, Generator(c)), 1), Shift(r, 1), if b then {c.width} else {},
                 if carry then Generator(c) else {}, Feed(c, r, b));
    }
  }

  lemma XorRegroup(m: Bits, r: Bits, b: Bits, g: Bits, f: Bits)
    requires Xor(r, b) == Xor(g, f)
    ensures Xor(Xor(m, r), b) == Xor(Xor(m, g), f)
  {
    XorLaws(m, r, b);
    XorLaws(m, g, f);
  }

  // ---------- CRC-16/CCITT-FALSE ----------

  /** Bit i of a message is a bit of its byte i / 8, counted from the top, or from the bottom for a reflected input. */
  lemma {:induction false} MessageBitsAt(c: Params, bytes: seq<Bits>, i: nat)
    requires i < 8 * |bytes|
    ensures MessageBits(c, bytes)[i] <==> (if c.refin then i % 8 else 7 - i % 8) in bytes[i / 8]
  {
    var n := |bytes| - 1;
    if i < 8 * n {
      MessageBitsAt(c, bytes[..n], i);
    }
  }

  /** The checksum is the register, back to front for a reflected output, with the final exclusive or. */
  lemma OutputAt(c: Params, r: Bits, j: nat)
    requires Proper(c) && Below(r, c.width) && j < c.width
    ensures j in Output(c, r) <==> (j in c.xorot) != ((if c.refot then c.width - 1 - j else j) in r)
  {
  }

  /**
   The checksum of any message is the remainder of the message times x^16, with sixteen ones in front
   of it, by x^16 + x^12 + x^5 + 1, and nothing else is.
   */
  lemma CcittIsRemainder(bytes: seq<Bits>, ones: Bits, bits: seq<bool>)
    requires ones == {0, 1, 2, 3, 4, 5, 6, 7, 8, 9, 10, 11, 12, 13, 14, 15}
    requires |bits| == 8 * |bytes| && forall i :: 0 <= i < |bits| ==> (bits[i] <==> 7 - i % 8 in bytes[i / 8])
    ensures var a := Xor(Shift(ones, |bits|), Shift(Poly(bits), 16));
      && IsRemainder(a, {0, 5, 12, 16}, 16, Output(CcittFalse(), Register(CcittFalse(), bytes)))
      && forall r :: IsRemainder(a, {0, 5, 12, 16}, 16, r) ==> r == Output(CcittFalse(), Register(CcittFalse(), bytes))
  {
    var c := CcittFalse();
    assert Proper(c);
    assert Generator(c) == {0, 5, 12, 16};
    forall i | 0 <= i < |bits| ensures bits[i] == MessageBits(c, bytes)[i] {
      MessageBitsAt(c, bytes, i);
    }
    assert bits == MessageBits(c, bytes);
    hide IsRemainder, Poly, Shift, MessageBits, FeedAll, Proper;
    RegisterIsRemainder(c, bytes);
    PlainOutput(Register(c, bytes));
  }

  lemma PlainOutput(r: Bits)
    ensures Output(CcittFalse(), r) == r
  {
  }
}
