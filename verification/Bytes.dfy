/** Fixed-width values shared by every part of the model. */
module Bytes {
  type byte = x: int | 0 <= x < 256
  type uint16 = x: int | 0 <= x < 0x1_0000
  type uint32 = x: int | 0 <= x < 0x1_0000_0000

  /** The bit pattern of one hexadecimal digit. */
  function Digit(n: nat): bv8
    requires n < 16
  {
    if n < 8 then
      if n < 4 then
        if n < 2 then (if n < 1 then 0 else 1) else (if n < 3 then 2 else 3)
      else
        if n < 6 then (if n < 5 then 4 else 5) else (if n < 7 then 6 else 7)
    else
      if n < 12 then
        if n < 10 then (if n < 9 then 8 else 9) else (if n < 11 then 10 else 11)
      else
        if n < 14 then (if n < 13 then 12 else 13) else (if n < 15 then 14 else 15)
  }

  /** The bit pattern of a byte, high digit first. */
  function Bits(b: byte): bv8 {
    (Digit(b / 16) << 4) | Digit(b % 16)
  }

  function Value(x: bv8): byte {
    x as byte
  }

  lemma ValueOfBits(b: byte)
    ensures Value(Bits(b)) == b
  {
  }

  lemma ValueInjective(x: bv8, y: bv8)
    requires Value(x) == Value(y)
    ensures x == y
  {
  }

  lemma BitsInjective(a: byte, b: byte)
    requires Bits(a) == Bits(b)
    ensures a == b
  {
    ValueOfBits(a);
    ValueOfBits(b);
  }
}
