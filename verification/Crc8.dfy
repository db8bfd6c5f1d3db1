/** The CRC-8 of the serial frames: polynomial 0x07, seed 0, no reflection. */
module Crc8 {
  import opened Bytes
  import opened RunningChecksum

  /** One clock of the CRC-8 shift register. */
  function ShiftBit(c: bv8): bv8 {
    if c & 0x80 != 0 then (c << 1) ^ 0x07 else c << 1
  }

  /** Eight clocks: what one table lookup must amount to. */
  function ShiftByte(c: bv8): bv8 {
    ShiftBit(ShiftBit(ShiftBit(ShiftBit(ShiftBit(ShiftBit(ShiftBit(ShiftBit(c))))))))
  }

  // The table of the firmware, one function for each row of sixteen entries.

  function Row0(lo: bv8): bv8 {
    match lo
    case 0 => 0x00 case 1 => 0x07 case 2 => 0x0E case 3 => 0x09 case 4 => 0x1C case 5 => 0x1B case 6 => 0x12 case 7 => 0x15
    case 8 => 0x38 case 9 => 0x3F case 10 => 0x36 case 11 => 0x31 case 12 => 0x24 case 13 => 0x23 case 14 => 0x2A case 15 => 0x2D case _ => 0
  }

  function Row1(lo: bv8): bv8 {
    match lo
    case 0 => 0x70 case 1 => 0x77 case 2 => 0x7E case 3 => 0x79 case 4 => 0x6C case 5 => 0x6B case 6 => 0x62 case 7 => 0x65
    case 8 => 0x48 case 9 => 0x4F case 10 => 0x46 case 11 => 0x41 case 12 => 0x54 case 13 => 0x53 case 14 => 0x5A case 15 => 0x5D case _ => 0
  }

  function Row2(lo: bv8): bv8 {
    match lo
    case 0 => 0xE0 case 1 => 0xE7 case 2 => 0xEE case 3 => 0xE9 case 4 => 0xFC case 5 => 0xFB case 6 => 0xF2 case 7 => 0xF5
    case 8 => 0xD8 case 9 => 0xDF case 10 => 0xD6 case 11 => 0xD1 case 12 => 0xC4 case 13 => 0xC3 case 14 => 0xCA case 15 => 0xCD case _ => 0
  }

  function Row3(lo: bv8): bv8 {
    match lo
    case 0 => 0x90 case 1 => 0x97 case 2 => 0x9E case 3 => 0x99 case 4 => 0x8C case 5 => 0x8B case 6 => 0x82 case 7 => 0x85
    case 8 => 0xA8 case 9 => 0xAF case 10 => 0xA6 case 11 => 0xA1 case 12 => 0xB4 case 13 => 0xB3 case 14 => 0xBA case 15 => 0xBD case _ => 0
  }

  function Row4(lo: bv8): bv8 {
    match lo
    case 0 => 0xC7 case 1 => 0xC0 case 2 => 0xC9 case 3 => 0xCE case 4 => 0xDB case 5 => 0xDC case 6 => 0xD5 case 7 => 0xD2
    case 8 => 0xFF case 9 => 0xF8 case 10 => 0xF1 case 11 => 0xF6 case 12 => 0xE3 case 13 => 0xE4 case 14 => 0xED case 15 => 0xEA case _ => 0
  }

  function Row5(lo: bv8): bv8 {
    match lo
    case 0 => 0xB7 case 1 => 0xB0 case 2 => 0xB9 case 3 => 0xBE case 4 => 0xAB case 5 => 0xAC case 6 => 0xA5 case 7 => 0xA2
    case 8 => 0x8F case 9 => 0x88 case 10 => 0x81 case 11 => 0x86 case 12 => 0x93 case 13 => 0x94 case 14 => 0x9D case 15 => 0x9A case _ => 0
  }

  function Row6(lo: bv8): bv8 {
    match lo
    case 0 => 0x27 case 1 => 0x20 case 2 => 0x29 case 3 => 0x2E case 4 => 0x3B case 5 => 0x3C case 6 => 0x35 case 7 => 0x32
    case 8 => 0x1F case 9 => 0x18 case 10 => 0x11 case 11 => 0x16 case 12 => 0x03 case 13 => 0x04 case 14 => 0x0D case 15 => 0x0A case _ => 0
  }

  function Row7(lo: bv8): bv8 {
    match lo
    case 0 => 0x57 case 1 => 0x50 case 2 => 0x59 case 3 => 0x5E case 4 => 0x4B case 5 => 0x4C case 6 => 0x45 case 7 => 0x42
    case 8 => 0x6F case 9 => 0x68 case 10 => 0x61 case 11 => 0x66 case 12 => 0x73 case 13 => 0x74 case 14 => 0x7D case 15 => 0x7A case _ => 0
  }

  function Row8(lo: bv8): bv8 {
    match lo
    case 0 => 0x89 case 1 => 0x8E case 2 => 0x87 case 3 => 0x80 case 4 => 0x95 case 5 => 0x92 case 6 => 0x9B case 7 => 0x9C
    case 8 => 0xB1 case 9 => 0xB6 case 10 => 0xBF case 11 => 0xB8 case 12 => 0xAD case 13 => 0xAA case 14 => 0xA3 case 15 => 0xA4 case _ => 0
  }

  function Row9(lo: bv8): bv8 {
    match lo
    case 0 => 0xF9 case 1 => 0xFE case 2 => 0xF7 case 3 => 0xF0 case 4 => 0xE5 case 5 => 0xE2 case 6 => 0xEB case 7 => 0xEC
    case 8 => 0xC1 case 9 => 0xC6 case 10 => 0xCF case 11 => 0xC8 case 12 => 0xDD case 13 => 0xDA case 14 => 0xD3 case 15 => 0xD4 case _ => 0
  }

  function RowA(lo: bv8): bv8 {
    match lo
    case 0 => 0x69 case 1 => 0x6E case 2 => 0x67 case 3 => 0x60 case 4 => 0x75 case 5 => 0x72 case 6 => 0x7B case 7 => 0x7C
    case 8 => 0x51 case 9 => 0x56 case 10 => 0x5F case 11 => 0x58 case 12 => 0x4D case 13 => 0x4A case 14 => 0x43 case 15 => 0x44 case _ => 0
  }

  function RowB(lo: bv8): bv8 {
    match lo
    case 0 => 0x19 case 1 => 0x1E case 2 => 0x17 case 3 => 0x10 case 4 => 0x05 case 5 => 0x02 case 6 => 0x0B case 7 => 0x0C
    case 8 => 0x21 case 9 => 0x26 case 10 => 0x2F case 11 => 0x28 case 12 => 0x3D case 13 => 0x3A case 14 => 0x33 case 15 => 0x34 case _ => 0
  }

  function RowC(lo: bv8): bv8 {
    match lo
    case 0 => 0x4E case 1 => 0x49 case 2 => 0x40 case 3 => 0x47 case 4 => 0x52 case 5 => 0x55 case 6 => 0x5C case 7 => 0x5B
    case 8 => 0x76 case 9 => 0x71 case 10 => 0x78 case 11 => 0x7F case 12 => 0x6A case 13 => 0x6D case 14 => 0x64 case 15 => 0x63 case _ => 0
  }

  function RowD(lo: bv8): bv8 {
    match lo
    case 0 => 0x3E case 1 => 0x39 case 2 => 0x30 case 3 => 0x37 case 4 => 0x22 case 5 => 0x25 case 6 => 0x2C case 7 => 0x2B
    case 8 => 0x06 case 9 => 0x01 case 10 => 0x08 case 11 => 0x0F case 12 => 0x1A case 13 => 0x1D case 14 => 0x14 case 15 => 0x13 case _ => 0
  }

  function RowE(lo: bv8): bv8 {
    match lo
    case 0 => 0xAE case 1 => 0xA9 case 2 => 0xA0 case 3 => 0xA7 case 4 => 0xB2 case 5 => 0xB5 case 6 => 0xBC case 7 => 0xBB
    case 8 => 0x96 case 9 => 0x91 case 10 => 0x98 case 11 => 0x9F case 12 => 0x8A case 13 => 0x8D case 14 => 0x84 case 15 => 0x83 case _ => 0
  }

  function RowF(lo: bv8): bv8 {
    match lo
    case 0 => 0xDE case 1 => 0xD9 case 2 => 0xD0 case 3 => 0xD7 case 4 => 0xC2 case 5 => 0xC5 case 6 => 0xCC case 7 => 0xCB
    case 8 => 0xE6 case 9 => 0xE1 case 10 => 0xE8 case 11 => 0xEF case 12 => 0xFA case 13 => 0xFD case 14 => 0xF4 case 15 => 0xF3 case _ => 0
  }

  /** Entry `x` of the table: the high digit picks the row. */
  function Table(x: bv8): bv8 {
    var lo := x & 0x0F;
    match x >> 4
    case 0 => Row0(lo) case 1 => Row1(lo) case 2 => Row2(lo) case 3 => Row3(lo) case 4 => Row4(lo)
    case 5 => Row5(lo) case 6 => Row6(lo) case 7 => Row7(lo) case 8 => Row8(lo) case 9 => Row9(lo)
    case 10 => RowA(lo) case 11 => RowB(lo) case 12 => RowC(lo) case 13 => RowD(lo) case 14 => RowE(lo) case _ => RowF(lo)
  }

  lemma Rows0To3(lo: bv8)
    requires lo < 16
    ensures Row0(lo) == ShiftByte(0x00 | lo)
    ensures Row1(lo) == ShiftByte(0x10 | lo)
    ensures Row2(lo) == ShiftByte(0x20 | lo)
    ensures Row3(lo) == ShiftByte(0x30 | lo)
  {
  }

  lemma Rows4To7(lo: bv8)
    requires lo < 16
    ensures Row4(lo) == ShiftByte(0x40 | lo)
    ensures Row5(lo) == ShiftByte(0x50 | lo)
    ensures Row6(lo) == ShiftByte(0x60 | lo)
    ensures Row7(lo) == ShiftByte(0x70 | lo)
  {
  }

  lemma Rows8ToB(lo: bv8)
    requires lo < 16
    ensures Row8(lo) == ShiftByte(0x80 | lo)
    ensures Row9(lo) == ShiftByte(0x90 | lo)
    ensures RowA(lo) == ShiftByte(0xA0 | lo)
    ensures RowB(lo) == ShiftByte(0xB0 | lo)
  {
  }

  lemma RowsCToF(lo: bv8)
    requires lo < 16
    ensures RowC(lo) == ShiftByte(0xC0 | lo)
    ensures RowD(lo) == ShiftByte(0xD0 | lo)
    ensures RowE(lo) == ShiftByte(0xE0 | lo)
    ensures RowF(lo) == ShiftByte(0xF0 | lo)
  {
  }

  lemma TableLowHalf(x: bv8)
    requires x < 0x80
    ensures Table(x) == ShiftByte(x)
  {
    Rows0To3(x & 0x0F);
    Rows4To7(x & 0x0F);
  }

  lemma TableHighHalf(x: bv8)
    requires x >= 0x80
    ensures Table(x) == ShiftByte(x)
  {
    Rows8ToB(x & 0x0F);
    RowsCToF(x & 0x0F);
  }

  /** The table is the bitwise shift register, entry by entry. */
  lemma TableIsShiftRegister(x: bv8)
    ensures Table(x) == ShiftByte(x)
  {
    if x < 0x80 {
      TableLowHalf(x);
    } else {
      TableHighHalf(x);
    }
  }

  lemma ShiftByteInjective(x: bv8, y: bv8)
    requires ShiftByte(x) == ShiftByte(y)
    ensures x == y
  {
  }

  lemma TableInjective(x: bv8, y: bv8)
    requires Table(x) == Table(y)
    ensures x == y
  {
    TableIsShiftRegister(x);
    TableIsShiftRegister(y);
    ShiftByteInjective(x, y);
  }

  /** One table lookup of the running checksum. */
  function Step(crc: bv8, b: byte): bv8 {
    Table(crc ^ Bits(b))
  }

  lemma StepRegisterInjective(c: bv8, d: bv8, b: byte)
    requires Step(c, b) == Step(d, b)
    ensures c == d
  {
    var x := Bits(b);
    assert Step(c, b) == Table(c ^ x) && Step(d, b) == Table(d ^ x);
    TableInjective(c ^ x, d ^ x);
  }

  lemma StepByteInjective(c: bv8, a: byte, b: byte)
    requires Step(c, a) == Step(c, b)
    ensures a == b
  {
    var x, y := Bits(a), Bits(b);
    TableInjective(c ^ x, c ^ y);
    BitsInjective(a, b);
  }

  lemma StepLossless()
    ensures Lossless(Step)
  {
    forall c, d, b | Step(c, b) == Step(d, b)
      ensures c == d
    {
      StepRegisterInjective(c, d, b);
    }
    forall c, a, b | Step(c, a) == Step(c, b)
      ensures a == b
    {
      StepByteInjective(c, a, b);
    }
  }

  /** The checksum of a payload. */
  function Checksum(s: seq<byte>): byte {
    Value(Register(Step, 0, s))
  }

  lemma OneByteChangesChecksum(s: seq<byte>, i: nat, b: byte)
    requires i < |s| && b != s[i]
    ensures Checksum(s[i := b]) != Checksum(s)
  {
    StepLossless();
    OneByteChangesRegister(Step, 0, s, i, b);
    var x, y := Register(Step, 0, s[i := b]), Register(Step, 0, s);
    if Value(x) == Value(y) {
      ValueInjective(x, y);
    }
  }
}
