/** The checksum of the Python tools, on words without a length, against the engine's register. */
module PythonCrc {
  import opened BitAlgebra
  import opened CrcModel
  import opened Crc
  import opened CrcDetection

  const CRC_INIT: Bits := {0, 1, 2, 3, 4, 5, 6, 7, 8, 9, 10, 11, 12, 13, 14, 15}
  const CRC_POLY: Bits := {0, 5, 12}

  lemma BitStep(r: Bits)
    requires Below(r, 16)
    ensures Low(if 15 in r then Xor(Shift(r, 1), CRC_POLY) else Shift(r, 1), 16) == Advance(CcittFalse(), r)
  {
  }

  method Crc16CcittFalse(data: seq<Bits>) returns (crc: Bits)
    requires AreBytes(data)
    ensures crc == Output(CcittFalse(), Register(CcittFalse(), data))
  {
    var c := CcittFalse();
    CcittProper();
    crc := CRC_INIT;
    assert data[..0] == [] && crc == FeedAll(c, c.init, MessageBits(c, data[..0]));
    hide FeedAll, NextRegister, Shift, Xor, Advance, AdvanceBy;
    for k := 0 to |data|
      invariant Below(crc, 16) && crc == FeedAll(c, c.init, MessageBits(c, data[..k]))
    {
      crc := OneByte(crc, data[k]);
      assert data[..k + 1] == data[..k] + [data[k]];
      MessageIsBytes(c, c.init, data[..k], data[k]);
    }
    assert data[..|data|] == data;
    crc := Xor(crc, {});
    XorLaws(crc, {}, {});
  }

  /** The body of the outer loop. */
  method OneByte(crc: Bits, value: Bits) returns (r: Bits)
    requires Below(crc, 16) && Below(value, 8)
    ensures Below(r, 16) && r == NextRegister(CcittFalse(), crc, value)
  {
    var c := CcittFalse();
    CcittProper();
    r := Xor(crc, Shift(value, 8));
    ghost var start := r;
    XorBelow(crc, Shift(value, 8), 16);
    StartOfLoop(c, start);
    hide Shift, Xor, Advance, AdvanceBy;
    for i := 0 to 8
      invariant Below(r, 16) && r == AdvanceBy(c, start, i)
    {
      AdvanceLast(c, start, i);
      BitStep(r);
      AdvanceBelow(c, r);
      if 15 in r {
        r := Low(Xor(Shift(r, 1), CRC_POLY), 16);
      } else {
        r := Low(Shift(r, 1), 16);
      }
    }
  }
}
