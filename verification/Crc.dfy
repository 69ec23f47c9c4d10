/**
 The checksum engine both ends share: the parameter block with its register, the byte and
 block updates, and the table entry, on machine words of len bits (64 on the host, 32 on the
 microcontroller).
 */
module Crc {
  import opened BitAlgebra
  import opened CrcModel

  lemma {:induction false} AdvanceLast(c: Params, r: Bits, k: nat)
    requires c.width >= 1
    ensures AdvanceBy(c, r, k + 1) == Advance(c, AdvanceBy(c, r, k))
    decreases k
  {
    if k > 0 {
      AdvanceLast(c, Advance(c, r), k - 1);
    }
  }

  /** Bits below w - k only move up when the register advances k times. */
  lemma {:induction false} PlainShift(c: Params, r: Bits, k: nat)
    requires c.width >= 1 && k <= c.width && Below(r, c.width - k)
    ensures AdvanceBy(c, r, k) == Shift(r, k)
    decreases k
  {
    if k == 0 {
      ShiftTwice(r, 0, 0);
    } else {
      assert Advance(c, r) == Shift(r, 1);
      PlainShift(c, Shift(r, 1), k - 1);
      ShiftTwice(r, 1, k - 1);
    }
  }

  /** The table entry the driver of the table-based algorithm stores for an index byte. */
  function TableEntry(c: Params, index: Bits): Bits
    requires c.width >= 8
  {
    var r := AdvanceBy(c, Shift(Entering(c, index), c.width - 8), 8);
    if c.refin then Reflect(r, c.width) else r
  }

  /** The register after one whole byte. */
  function NextRegister(c: Params, r: Bits, b: Bits): Bits
    requires c.width >= 8
  {
    AdvanceBy(c, Xor(r, Shift(Entering(c, b), c.width - 8)), 8)
  }

  lemma {:induction false} MessageIsBytes(c: Params, r: Bits, bytes: seq<Bits>, b: Bits)
    requires Proper(c) && Below(b, 8)
    ensures FeedAll(c, r, MessageBits(c, bytes + [b])) == NextRegister(c, FeedAll(c, r, MessageBits(c, bytes)), b)
  {
    hide AdvanceBy, Xor, Shift, FeedAll, ByteBits, Reflect;
    assert (bytes + [b])[..|bytes|] == bytes;
    EnteringBelow(c, b);
    FeedAllConcat(c, r, MessageBits(c, bytes), ByteBits(Entering(c, b)));
    TopByte(c, FeedAll(c, r, MessageBits(c, bytes)), Entering(c, b));
  }

  /** A register is its low part plus its top byte, into which the message byte is added. */
  lemma SplitTopByte(r: Bits, b: Bits, w: nat)
    requires w >= 8 && Below(r, w) && Below(b, 8)
    ensures Xor(r, Shift(b, w - 8)) == Xor(Low(r, w - 8), Shift(Xor(ShiftRight(r, w - 8), b), w - 8))
  {
    hide Shift, ShiftRight;
    var k := w - 8;
    var l, x := Xor(r, Shift(b, k)), Xor(ShiftRight(r, k), b);
    var h := Shift(x, k);
    forall j: nat ensures j in l <==> j in Xor(Low(r, k), h) {
      if j >= k {
        assert j - k in ShiftRight(r, k) <==> j in r;
        assert j in h <==> j - k in x;
      }
    }
  }

  lemma LowByteGone(r: Bits, w: nat)
    requires w >= 8 && Below(r, w)
    ensures Shift(Low(r, w - 8), 8) == Low(Shift(r, 8), w)
  {
    hide Shift;
  }

  /** One lookup replaces eight bit steps: reg' = (reg << 8) ^ table[(reg >> (w - 8)) ^ b], masked. */
  lemma TableLookup(c: Params, r: Bits, b: Bits)
    requires Proper(c) && Below(r, c.width) && Below(b, 8) && !c.refin
    ensures NextRegister(c, r, b)
         == Xor(Low(Shift(r, 8), c.width), TableEntry(c, Xor(ShiftRight(r, c.width - 8), b)))
  {
    hide Xor, Shift, ShiftRight, AdvanceBy, Low, Below;
    var lo := Low(r, c.width - 8);
    SplitTopByte(r, b, c.width);
    LowByteGone(r, c.width);
    LowIsBelow(r, c.width - 8);
    AdvanceByLinear(c, lo, Shift(Xor(ShiftRight(r, c.width - 8), b), c.width - 8), 8);
    PlainShift(c, lo, 8);
  }

  /** The low byte of the reversed register is the reversed top byte. */
  lemma ReversedIndex(r: Bits, b: Bits, w: nat)
    requires w >= 8 && Below(r, w) && Below(b, 8)
    ensures Reflect(Low(Xor(Reflect(r, w), b), 8), 8) == Xor(ShiftRight(r, w - 8), Reflect(b, 8))
    ensures Reflect(Low(Shift(r, 8), w), w) == ShiftRight(Reflect(r, w), 8)
    ensures Below(Reflect(b, 8), 8)
  {
    hide Shift, ShiftRight, Reflect;
  }

  /**
   The reflected algorithm keeps the register reversed and shifts it the other way:
   R' = (R >> 8) ^ table[(R ^ b) & 0xFF], with the table built for reflected input.
   */
  lemma ReflectedLookup(c: Params, r: Bits, b: Bits)
    requires Proper(c) && Below(r, c.width) && Below(b, 8) && c.refin
    ensures var rev := Reflect(r, c.width);
      Reflect(NextRegister(c, r, b), c.width)
        == Xor(ShiftRight(rev, 8), TableEntry(c, Low(Xor(rev, b), 8)))
  {
    hide Xor, Shift, ShiftRight, AdvanceBy, Reflect, Low, Below;
    var lo, e := Low(r, c.width - 8), Reflect(b, 8);
    ReversedIndex(r, b, c.width);
    SplitTopByte(r, e, c.width);
    LowByteGone(r, c.width);
    var top := Xor(ShiftRight(r, c.width - 8), e);
    var hi := Shift(top, c.width - 8);
    AdvanceByLinear(c, lo, hi, 8);
    LowIsBelow(r, c.width - 8);
    PlainShift(c, lo, 8);
    ReflectXor(Low(Shift(r, 8), c.width), AdvanceBy(c, hi, 8), c.width);
  }

  lemma LowIsBelow(a: Bits, n: nat)
    ensures Below(Low(a, n), n)
  {
  }

  lemma EnteringBelow(c: Params, b: Bits)
    requires Below(b, 8)
    ensures Below(Entering(c, b), 8)
  {
  }

  lemma ReflectXor(a: Bits, b: Bits, n: nat)
    ensures Reflect(Xor(a, b), n) == Xor(Reflect(a, n), Reflect(b, n))
  {
  }

  /** The bit loop of reflect: bit i of v moves to bit b - 1 - i. */
  method ReflectBits(v: Bits, b: nat) returns (r: Bits)
    ensures r == Reflect(v, b)
  {
    hide ShiftRight, Reflect;
    r := v;
    var t := v;
    for i := 0 to b
      invariant t == ShiftRight(v, i)
      invariant forall j: nat {:trigger j in r} :: j in r <==> if b - i <= j < b then b - 1 - j in v else j in v
    {
      if 0 in t {
        r := r + {b - 1 - i};
      } else {
        r := r - {b - 1 - i};
      }
      t := ShiftRight(t, 1);
    }
    assert forall j: nat {:trigger j in r} :: j in r <==> j in Reflect(v, b);
  }

  class Engine {
    const len: nat
    const params: Params
    var reg: Bits

    ghost predicate Valid()
      reads this
    {
      Proper(params) && params.width <= len && Below(reg, params.width)
    }

    constructor (len: nat, params: Params)
      requires Proper(params) && params.width <= len
      ensures Valid() && this.params == params && this.len == len
    {
      this.len, this.params, this.reg := len, params, params.init;
    }

    /** widmask, with the word arithmetic of the C expression. */
    method WidthMask() returns (m: Bits)
      requires 1 <= params.width <= len
      ensures m == Ones(params.width)
    {
      var top := ShiftLeft({0}, params.width - 1, len);
      assert top == {params.width - 1};
      PowerMinusOne(params.width - 1, len);
      m := ShiftLeft(MinusOne(top, len), 1, len) + {0};
    }

    method Initialise()
      requires Valid()
      modifies this`reg
      ensures Valid() && reg == params.init
    {
      reg := params.init;
    }

    /** One message byte, bit by bit, masked after every bit. */
    method NextByte(ch: Bits)
      requires Valid() && Below(ch, 8)
      modifies this`reg
      ensures Valid() && reg == NextRegister(params, old(reg), ch)
    {
      hide Shift, ShiftLeft, ShiftRight, Xor, AdvanceBy, Advance, Ones, Low, Reflect;
      var byte' := ch;
      if params.refin {
        byte' := ReflectBits(ch, 8);
      }
      EntersAtTop(params, ch, len);
      ghost var start := Xor(reg, Shift(Entering(params, ch), params.width - 8));
      XorBelow(reg, Shift(Entering(params, ch), params.width - 8), params.width);
      reg := Xor(reg, ShiftLeft(byte', params.width - 8, len));
      StartOfLoop(params, start);
      for i := 0 to 8
        invariant Valid() && reg == AdvanceBy(params, start, i)
      {
        AdvanceLast(params, start, i);
        reg := ShiftReduce(reg, params.width, params.poly, len);
        var mask := WidthMask();
        MaskedStep(params, AdvanceBy(params, start, i), len);
        AdvanceBelow(params, AdvanceBy(params, start, i));
        reg := reg * mask;
      }
    }

    /** A block of bytes extends the message the register has seen. */
    method Block(bytes: seq<Bits>)
      requires Valid() && forall k :: 0 <= k < |bytes| ==> Below(bytes[k], 8)
      modifies this`reg
      ensures Valid() && reg == FeedAll(params, old(reg), MessageBits(params, bytes))
    {
      assert bytes[..0] == [] && reg == FeedAll(params, reg, MessageBits(params, bytes[..0]));
      hide FeedAll, NextRegister, Below;
      for k := 0 to |bytes|
        invariant Valid() && reg == FeedAll(params, old(reg), MessageBits(params, bytes[..k]))
      {
        assert bytes[..k + 1] == bytes[..k] + [bytes[k]];
        MessageIsBytes(params, old(reg), bytes[..k], bytes[k]);
        NextByte(bytes[k]);
      }
      assert bytes[..|bytes|] == bytes;
    }

    method Result() returns (r: Bits)
      requires Valid()
      ensures r == Output(params, reg)
    {
      if params.refot {
        var rev := ReflectBits(reg, params.width);
        r := Xor(params.xorot, rev);
      } else {
        r := Xor(params.xorot, reg);
      }
    }

    /** The table entry, masked only once at the end. */
    method Table(index: Bits) returns (r: Bits)
      requires Valid() && Below(index, 8)
      ensures r == TableEntry(params, index)
    {
      hide Shift, ShiftLeft, ShiftRight, Xor, AdvanceBy, Advance, Ones, Low, Reflect;
      var byte' := index;
      if params.refin {
        byte' := ReflectBits(index, 8);
      }
      EntersAtTop(params, index, len);
      r := ShiftLeft(byte', params.width - 8, len);
      ghost var start := Shift(Entering(params, index), params.width - 8);
      LowOfBelow(start, params.width);
      StartOfLoop(params, start);
      var mask := WidthMask();
      MaskIsLow(r, params.width);
      for i := 0 to 8
        invariant Low(r, params.width) == AdvanceBy(params, start, i)
      {
        AdvanceLast(params, start, i);
        UnmaskedStep(params, r, len);
        r := ShiftReduce(r, params.width, params.poly, len);
      }
      if params.refin {
        LowReflect(r, params.width);
        r := ReflectBits(r, params.width);
      }
      MaskIsLow(r, params.width);
      r := r * mask;
    }
  }

  lemma StartOfLoop(c: Params, r: Bits)
    requires c.width >= 1
    ensures AdvanceBy(c, r, 0) == r
  {
  }

  lemma XorBelow(a: Bits, b: Bits, n: nat)
    requires Below(a, n) && Below(b, n)
    ensures Below(Xor(a, b), n)
  {
  }

  lemma LowOfBelow(a: Bits, n: nat)
    requires Below(a, n)
    ensures Low(a, n) == a
  {
  }

  lemma MaskIsLow(a: Bits, n: nat)
    ensures a * Ones(n) == Low(a, n)
  {
  }

  /** The shifted byte fits the register, whatever the word length. */
  lemma EntersAtTop(c: Params, b: Bits, len: nat)
    requires Proper(c) && c.width <= len && Below(b, 8)
    ensures ShiftLeft(Entering(c, b), c.width - 8, len) == Shift(Entering(c, b), c.width - 8)
    ensures Below(Shift(Entering(c, b), c.width - 8), c.width)
  {
    EnteringBelow(c, b);
  }

  /** What one pass of the bit loops does to the word, before any mask. */
  function Reduced(r: Bits, width: nat, poly: Bits, len: nat): Bits
    requires width >= 1
  {
    if width - 1 in r then Xor(ShiftLeft(r, 1, len), poly) else ShiftLeft(r, 1, len)
  }

  method ShiftReduce(r: Bits, width: nat, poly: Bits, len: nat) returns (s: Bits)
    requires 1 <= width <= len
    ensures s == Reduced(r, width, poly, len)
  {
    var top := ShiftLeft({0}, width - 1, len);
    assert top == {width - 1};
    assert width - 1 in r ==> width - 1 in r * top;
    if r * top != {} {
      s := Xor(ShiftLeft(r, 1, len), poly);
    } else {
      s := ShiftLeft(r, 1, len);
    }
  }

  /** A shift, a conditional subtraction of the generator and a mask advance the register. */
  lemma MaskedStep(c: Params, r: Bits, len: nat)
    requires Proper(c) && c.width <= len && Below(r, c.width)
    ensures Reduced(r, c.width, c.poly, len) * Ones(c.width) == Advance(c, r)
  {
  }

  /** What is above the register never comes back: masking can wait. */
  lemma UnmaskedStep(c: Params, r: Bits, len: nat)
    requires Proper(c) && c.width <= len
    ensures Low(Reduced(r, c.width, c.poly, len), c.width) == Advance(c, Low(r, c.width))
  {
  }

  lemma LowReflect(r: Bits, n: nat)
    ensures Low(Reflect(r, n), n) == Reflect(Low(r, n), n)
  {
  }
}
