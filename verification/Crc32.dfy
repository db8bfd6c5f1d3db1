/** The CRC-32 of the stored configuration: the reflected polynomial 0xEDB88320, all ones in and
    out (section 8 of RFC 1952), computed bit by bit. */
module Crc32 {
  import opened Bytes
  import opened RunningChecksum

  const POLYNOMIAL: bv32 := 0xEDB8_8320

  function ShiftBit(c: bv32): bv32 {
    if c & 1 != 0 then (c >> 1) ^ POLYNOMIAL else c >> 1
  }

  function ShiftBits(c: bv32, n: nat): bv32
    decreases n
  {
    if n == 0 then c else ShiftBits(ShiftBit(c), n - 1)
  }

  function Mix(crc: bv32, b: byte): bv32 {
    crc ^ (Bits(b) as bv32)
  }

  function Step(crc: bv32, b: byte): bv32 {
    ShiftBits(Mix(crc, b), 8)
  }

  /** The four bytes of a word, least significant first. */
  function WordBytes(x: bv32): seq<byte> {
    [Value((x & 0xFF) as bv8), Value(((x >> 8) & 0xFF) as bv8),
     Value(((x >> 16) & 0xFF) as bv8), Value(((x >> 24) & 0xFF) as bv8)]
  }

  /** The stored form of the final register: inverted, as four bytes. */
  function Stored(r: bv32): seq<byte> {
    WordBytes(!r)
  }

  /** The checksum of a message as it is stored. */
  function Checksum(s: seq<byte>): seq<byte> {
    Stored(Register(Step, 0xFFFF_FFFF, s))
  }

  method ShiftEight(mixed: bv32) returns (crc: bv32)
    ensures crc == ShiftBits(mixed, 8)
  {
    crc := mixed;
    for bit := 0 to 8
      invariant ShiftBits(crc, 8 - bit) == ShiftBits(mixed, 8)
    {
      if crc & 1 != 0 {
        crc := (crc >> 1) ^ POLYNOMIAL;
      } else {
        crc := crc >> 1;
      }
    }
  }

  method Compute(data: array<byte>, len: nat) returns (crc: bv32)
    requires len <= data.Length
    ensures WordBytes(crc) == Checksum(data[..len])
  {
    crc := 0xFFFF_FFFF;
    for i := 0 to len
      invariant crc == Register(Step, 0xFFFF_FFFF, data[..i])
    {
      RegisterAppend(Step, 0xFFFF_FFFF, data[..i], data[i]);
      assert data[..i + 1] == data[..i] + [data[i]];
      crc := ShiftEight(Mix(crc, data[i]));
    }
    crc := !crc;
  }

  lemma ShiftBitInjective(c: bv32, d: bv32)
    requires ShiftBit(c) == ShiftBit(d)
    ensures c == d
  {
  }

  lemma {:induction false} ShiftBitsInjective(c: bv32, d: bv32, n: nat)
    requires ShiftBits(c, n) == ShiftBits(d, n)
    ensures c == d
    decreases n
  {
    if n > 0 {
      ShiftBitsInjective(ShiftBit(c), ShiftBit(d), n - 1);
      ShiftBitInjective(c, d);
    }
  }

  lemma XorCancels(c: bv32, d: bv32, x: bv32, y: bv8, z: bv8)
    ensures c ^ x == d ^ x ==> c == d
    ensures c ^ (y as bv32) == c ^ (z as bv32) ==> y == z
  {
  }

  lemma StepRegisterInjective(c: bv32, d: bv32, b: byte)
    requires Step(c, b) == Step(d, b)
    ensures c == d
  {
    ShiftBitsInjective(Mix(c, b), Mix(d, b), 8);
    XorCancels(c, d, Bits(b) as bv32, 0, 0);
  }

  lemma StepByteInjective(c: bv32, a: byte, b: byte)
    requires Step(c, a) == Step(c, b)
    ensures a == b
  {
    ShiftBitsInjective(Mix(c, a), Mix(c, b), 8);
    XorCancels(c, c, 0, Bits(a), Bits(b));
    BitsInjective(a, b);
  }

  lemma StepLossless()
    ensures Lossless(Step)
  {
    forall c, d, b | Step(c, b) == Step(d, b)
      ensures c == d
    {
      StepRegisterInjective(c, d, b);
    }
    forall c, a, b | Step(c, a) == Step(c, b)
      ensures a == b
    {
      StepByteInjective(c, a, b);
    }
  }

  lemma FourBytes(x: bv32, y: bv32)
    requires (x & 0xFF) as bv8 == (y & 0xFF) as bv8
    requires ((x >> 8) & 0xFF) as bv8 == ((y >> 8) & 0xFF) as bv8
    requires ((x >> 16) & 0xFF) as bv8 == ((y >> 16) & 0xFF) as bv8
    requires ((x >> 24) & 0xFF) as bv8 == ((y >> 24) & 0xFF) as bv8
    ensures x == y
  {
  }

  lemma WordBytesInjective(x: bv32, y: bv32)
    requires WordBytes(x) == WordBytes(y)
    ensures x == y
  {
    var s, t := WordBytes(x), WordBytes(y);
    assert s[0] == t[0] && s[1] == t[1] && s[2] == t[2] && s[3] == t[3];
    ValueInjective((x & 0xFF) as bv8, (y & 0xFF) as bv8);
    ValueInjective(((x >> 8) & 0xFF) as bv8, ((y >> 8) & 0xFF) as bv8);
    ValueInjective(((x >> 16) & 0xFF) as bv8, ((y >> 16) & 0xFF) as bv8);
    ValueInjective(((x >> 24) & 0xFF) as bv8, ((y >> 24) & 0xFF) as bv8);
    FourBytes(x, y);
  }

  lemma StoredInjective(x: bv32, y: bv32)
    requires Stored(x) == Stored(y)
    ensures x == y
  {
    WordBytesInjective(!x, !y);
  }

  /** Changing exactly one byte of a message changes its checksum. */
  lemma OneByteChangesChecksum(s: seq<byte>, i: nat, b: byte)
    requires i < |s| && b != s[i]
    ensures Checksum(s[i := b]) != Checksum(s)
  {
    StepLossless();
    OneByteChangesRegister(Step, 0xFFFF_FFFF, s, i, b);
    var x, y := Register(Step, 0xFFFF_FFFF, s[i := b]), Register(Step, 0xFFFF_FFFF, s);
    if Stored(x) == Stored(y) {
      StoredInjective(x, y);
    }
  }
}
