// Masks, shifts and bitwise-or as arithmetic.
module Bits {

  lemma BitsAgain(x: bv8)
    ensures (x as int) as bv8 == x
  {
  }

  lemma OneMore(x: bv8)
    requires x < 0xff
    ensures (x + 1) as int == x as int + 1
  {
  }

  /** Counts up to the bits of a byte. */
  ghost function BitsOf(b: int): (x: bv8)
    requires 0 <= b < 0x100
    ensures x as int == b
  {
    if b == 0 then 0
    else
      OneMore(BitsOf(b - 1));
      BitsOf(b - 1) + 1
  }

  /** A byte is the same number as bits and as an integer. */
  lemma ByteAsBits(b: int)
    requires 0 <= b < 0x100
    ensures (b as bv8) as int == b
  {
    BitsAgain(BitsOf(b));
  }

  // The masks of the kind byte of a header.

  lemma MaskedBits(b: bv8)
    ensures (b & 0x8f) as int == if b as int >= 0x80 then 0x80 + b as int % 16 else b as int % 16
  {
  }

  lemma ErrorBit(b: bv8)
    ensures (b & 0x80) as int == if b as int >= 0x80 then 0x80 else 0
  {
  }

  lemma LowFourBits(b: bv8)
    ensures (b & 0x0f) as int == b as int % 16
  {
  }

  lemma LowThreeBits(b: bv8)
    ensures (b & 0x07) as int == b as int % 8
  {
  }

  // The mask and the tests that the decoder of integers applies to a byte.

  lemma ByteBits(c: bv8)
    ensures (c & 0x7f) as int == c as int % 0x80
    ensures c & 0xf0 != 0 <==> c as int >= 0x10
    ensures c & 0x80 == 0 <==> c as int < 0x80
  {
  }

  /** The number that 32 bits are. */
  function Num(x: bv32): nat {
    x as int
  }

  lemma Widen(c: bv8)
    ensures Num(c as bv32) == c as int
  {
  }

  // Placing seven bits at the position of byte 1, 2, 3 or 4 by shift and bitwise-or is addition: no
  // bit is shifted out and none is already taken.

  lemma OrIsAddition1(value: bv32, c: bv32)
    requires c as int < 0x80 && value as int < 0x80
    ensures (value | (c << 7)) as int == value as int + 0x80 * (c as int)
  {
  }

  lemma OrIsAddition2(value: bv32, c: bv32)
    requires c as int < 0x80 && value as int < 0x4000
    ensures (value | (c << 14)) as int == value as int + 0x4000 * (c as int)
  {
  }

  lemma OrIsAddition3(value: bv32, c: bv32)
    requires c as int < 0x80 && value as int < 0x20_0000
    ensures (value | (c << 21)) as int == value as int + 0x20_0000 * (c as int)
  {
  }

  lemma OrIsAddition4(value: bv32, c: bv32)
    requires c as int < 0x10 && value as int < 0x1000_0000
    ensures (value | (c << 28)) as int == value as int + 0x1000_0000 * (c as int)
  {
  }

  function Or7(value: bv32, c: bv32): (r: bv32)
    requires c as int < 0x80 && value as int < 0x80
    ensures r as int == value as int + 0x80 * (c as int)
  {
    OrIsAddition1(value, c);
    value | (c << 7)
  }

  function Or14(value: bv32, c: bv32): (r: bv32)
    requires c as int < 0x80 && value as int < 0x4000
    ensures r as int == value as int + 0x4000 * (c as int)
  {
    OrIsAddition2(value, c);
    value | (c << 14)
  }

  function Or21(value: bv32, c: bv32): (r: bv32)
    requires c as int < 0x80 && value as int < 0x20_0000
    ensures r as int == value as int + 0x20_0000 * (c as int)
  {
    OrIsAddition3(value, c);
    value | (c << 21)
  }

  function Or28(value: bv32, c: bv32): (r: bv32)
    requires c as int < 0x10 && value as int < 0x1000_0000
    ensures r as int == value as int + 0x1000_0000 * (c as int)
  {
    OrIsAddition4(value, c);
    value | (c << 28)
  }

  function Weight(idx: nat): nat
    requires idx < 5
  {
    if idx == 0 then 1
    else if idx == 1 then 0x80
    else if idx == 2 then 0x4000
    else if idx == 3 then 0x20_0000
    else 0x1000_0000
  }

  /** `value` with the bits of `c` at the position of byte `idx`: shifted by seven bits for every byte before. */
  function Place(value: bv32, c: bv32, idx: nat): bv32
    requires idx < 5 && Num(value) < Weight(idx) && Num(c) < if idx == 4 then 0x10 else 0x80
  {
    match idx
    case 0 => c
    case 1 => Or7(value, c)
    case 2 => Or14(value, c)
    case 3 => Or21(value, c)
    case _ => Or28(value, c)
  }

  /** Placing a digit adds it with the weight of its position. */
  lemma PlaceAdds(value: bv32, c: bv32, idx: nat)
    requires idx < 5 && Num(value) < Weight(idx) && Num(c) < if idx == 4 then 0x10 else 0x80
    ensures Num(Place(value, c, idx)) == Num(value) + Weight(idx) * Num(c)
  {
    hide Or7; hide Or14; hide Or21; hide Or28; hide Num;
    match idx
    case 0 =>
    case 1 => Or7Num(value, c);
    case 2 => Or14Num(value, c);
    case 3 => Or21Num(value, c);
    case _ => Or28Num(value, c);
  }

  lemma Or7Num(value: bv32, c: bv32)
    requires Num(c) < 0x80 && Num(value) < 0x80
    ensures Num(Or7(value, c)) == Num(value) + 0x80 * Num(c)
  {
    hide Or7;
  }

  lemma Or14Num(value: bv32, c: bv32)
    requires Num(c) < 0x80 && Num(value) < 0x4000
    ensures Num(Or14(value, c)) == Num(value) + 0x4000 * Num(c)
  {
    hide Or14;
  }

  lemma Or21Num(value: bv32, c: bv32)
    requires Num(c) < 0x80 && Num(value) < 0x20_0000
    ensures Num(Or21(value, c)) == Num(value) + 0x20_0000 * Num(c)
  {
    hide Or21;
  }

  lemma Or28Num(value: bv32, c: bv32)
    requires Num(c) < 0x10 && Num(value) < 0x1000_0000
    ensures Num(Or28(value, c)) == Num(value) + 0x1000_0000 * Num(c)
  {
    hide Or28;
  }
}
