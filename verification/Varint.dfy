// Variable length encoding of 32-bit integers: little-endian base-128 digits,
// the high bit of every byte but the last one set, at most five bytes.
module Varint {
  import opened Types
  import opened Bits

  datatype Overflow = Overflow

  datatype ParsedU32 = ParsedU32(offset: nat, value: u32)

  /** Five bytes of encoding and, at index 5, their number; all zero is the sentinel. */
  datatype Varint32 = Varint32(raw: Bytes) {
    ghost predicate Valid() {
      |raw| == 6 && raw[5] <= 5
    }

    function Len(): nat
      requires Valid()
    {
      raw[5]
    }

    function AsRef(): Bytes
      requires Valid()
    {
      raw[..Len()]
    }
  }

  const MAX_LEN := 5
  const SENTINEL := Varint32([0, 0, 0, 0, 0, 0])

  /** The length of the encoding of `value`. */
  function LengthOf(value: u32): (n: nat)
    ensures 1 <= n <= MAX_LEN
  {
    if value < 0x80 then 1
    else if value < 0x4000 then 2
    else if value < 0x20_0000 then 3
    else if value < 0x1000_0000 then 4
    else 5
  }

  /** The seven value bits of a byte. */
  function Digit(b: byte): (d: nat)
    ensures d < 0x80
  {
    b % 0x80
  }

  /** The digits of `value`, least significant first, continuation bits set. */
  function Encoding(value: u32): (s: Bytes)
    ensures |s| == LengthOf(value)
  {
    if value < 0x80 then [value] else [value % 0x80 + 0x80] + Encoding(value / 0x80)
  }

  /** The number written by base-128 digits, least significant first. */
  function Number(s: Bytes): nat {
    if s == [] then 0 else Digit(s[0]) + 0x80 * Number(s[1..])
  }

  /** A complete encoding, minimal or not, of some 32-bit integer. */
  ghost predicate IsVarint(s: Bytes) {
    && 1 <= |s| <= MAX_LEN
    && (forall i :: 0 <= i < |s| - 1 ==> s[i] >= 0x80)
    && s[|s| - 1] < 0x80
    && (|s| == MAX_LEN ==> s[4] < 0x10)
  }

  function Pow128(k: nat): nat {
    if k == 0 then 1 else 0x80 * Pow128(k - 1)
  }

  lemma Powers()
    ensures Pow128(0) == 1 && Pow128(1) == 0x80 && Pow128(2) == 0x4000
    ensures Pow128(3) == 0x20_0000 && Pow128(4) == 0x1000_0000
  {
    assert Pow128(2) == 0x80 * Pow128(1);
    assert Pow128(3) == 0x80 * Pow128(2);
    assert Pow128(4) == 0x80 * Pow128(3);
  }

  /** Appending a digit adds it with the weight of its position. */
  lemma {:induction false} NumberAppend(s: Bytes, b: byte)
    ensures Number(s + [b]) == Number(s) + Pow128(|s|) * Digit(b)
  {
    if s == [] {
      assert Number([b]) == Digit(b) + 0x80 * Number([]);
    } else {
      assert (s + [b])[1..] == s[1..] + [b];
      NumberAppend(s[1..], b);
      var p, d := Pow128(|s| - 1), Digit(b);
      assert 0x80 * (p * d) == (0x80 * p) * d;
    }
  }

  /** A number of `|s|` digits is below 128 to that power. */
  lemma {:induction false} NumberBound(s: Bytes)
    ensures Number(s) < Pow128(|s|)
  {
    if s != [] { NumberBound(s[1..]); }
  }

  /** An accepted encoding never exceeds 32 bits, and is at least as long as the minimal one. */
  lemma VarintBound(s: Bytes)
    requires IsVarint(s)
    ensures Number(s) < 0x1_0000_0000
    ensures LengthOf(Number(s)) <= |s|
  {
    Powers();
    var front, last := s[..|s| - 1], s[|s| - 1];
    assert s == front + [last];
    NumberAppend(front, last);
    NumberBound(front);
    NumberBound(s);
  }

  /** The result of decoding `s`, of which the first `i` bytes say that more follow. */
  function DecodeFrom(s: Bytes, i: nat): (r: Outcome<ParsedU32, Overflow>)
    requires i <= |s| && i <= MAX_LEN
    requires forall k :: 0 <= k < i ==> s[k] >= 0x80
    requires i == MAX_LEN ==> s[4] < 0x10
    decreases |s| - i
  {
    if i == |s| then Incomplete(1)
    else if i >= 4 && s[i] >= 0x10 then Fatal(Overflow)
    else if s[i] < 0x80 then
      VarintBound(s[..i + 1]);
      Success(ParsedU32(i + 1, Number(s[..i + 1])))
    else DecodeFrom(s, i + 1)
  }

  /** Decodes a varint32 from the front of `s`. */
  function DecodeVarint(s: Bytes): Outcome<ParsedU32, Overflow> {
    DecodeFrom(s, 0)
  }

  // ---------------------------------------------------------------- properties

  /** All three outcomes, each by what the input looks like. */
  lemma {:induction false} DecodeMeaning(s: Bytes)
    ensures forall k: nat, v: u32 :: DecodeVarint(s) == Success(ParsedU32(k, v)) <==>
              k <= |s| && IsVarint(s[..k]) && v == Number(s[..k])
    ensures DecodeVarint(s).Fatal? <==> |s| >= 5 && s[4] >= 0x10 && forall i :: 0 <= i < 4 ==> s[i] >= 0x80
    ensures DecodeVarint(s).Incomplete? <==> |s| < 5 && forall i :: 0 <= i < |s| ==> s[i] >= 0x80
    ensures DecodeVarint(s).Incomplete? ==> DecodeVarint(s).n == 1
  {
    DecodeFromMeaning(s, 0);
  }

  lemma {:induction false} DecodeFromMeaning(s: Bytes, i: nat)
    requires i <= |s| && i <= MAX_LEN
    requires forall k :: 0 <= k < i ==> s[k] >= 0x80
    requires i == MAX_LEN ==> s[4] < 0x10
    ensures forall k: nat, v: u32 :: DecodeFrom(s, i) == Success(ParsedU32(k, v)) <==>
              k <= |s| && IsVarint(s[..k]) && v == Number(s[..k])
    ensures DecodeFrom(s, i).Fatal? <==> |s| >= 5 && s[4] >= 0x10 && forall j :: 0 <= j < 4 ==> s[j] >= 0x80
    ensures DecodeFrom(s, i).Incomplete? <==> |s| < 5 && forall j :: 0 <= j < |s| ==> s[j] >= 0x80
    ensures DecodeFrom(s, i).Incomplete? ==> DecodeFrom(s, i).n == 1
    decreases |s| - i
  {
    forall k | 0 <= k <= |s| ensures IsVarint(s[..k]) <==> EndsAt(s, k) {
      if k >= 1 {
        assert s[..k][k - 1] == s[k - 1];
      }
    }
    if i < |s| && s[i] >= 0x80 && !(i >= 4 && s[i] >= 0x10) {
      DecodeFromMeaning(s, i + 1);
    }
  }

  /** The first `k` bytes are a complete encoding, told from the whole buffer. */
  ghost predicate EndsAt(s: Bytes, k: nat)
    requires k <= |s|
  {
    && 1 <= k <= MAX_LEN
    && (forall i :: 0 <= i < k - 1 ==> s[i] >= 0x80)
    && s[k - 1] < 0x80
    && (k == MAX_LEN ==> s[4] < 0x10)
  }

  lemma {:induction false} EncodingShape(value: u32)
    ensures var s := Encoding(value);
      && (forall i :: 0 <= i < |s| - 1 ==> s[i] >= 0x80)
      && s[|s| - 1] < 0x80
      && Number(s) == value
  {
    var s := Encoding(value);
    if value >= 0x80 {
      EncodingShape(value / 0x80);
      assert s[1..] == Encoding(value / 0x80);
      forall i | 0 <= i < |s| - 1 ensures s[i] >= 0x80 {
        if i > 0 { assert s[i] == s[1..][i - 1]; }
      }
    } else {
      assert Number(s) == Digit(value) + 0x80 * Number(s[1..]);
    }
  }

  /** The encoder writes a complete encoding of its argument. */
  lemma {:induction false} EncodingIsVarint(value: u32)
    ensures IsVarint(Encoding(value)) && Number(Encoding(value)) == value
  {
    EncodingShape(value);
    Powers();
    var s := Encoding(value);
    assert s == s[..|s| - 1] + [s[|s| - 1]];
    NumberAppend(s[..|s| - 1], s[|s| - 1]);
  }

  /** The bytes of every encoding, by its length: seven bits each, the low ones first. */
  lemma EncodingBytes(v: u32)
    ensures v < 0x80 ==> Encoding(v) == [v]
    ensures 0x80 <= v < 0x4000 ==> Encoding(v) == [0x80 + v % 0x80, v / 0x80]
    ensures 0x4000 <= v < 0x20_0000 ==> Encoding(v) == [0x80 + v % 0x80, 0x80 + v / 0x80 % 0x80, v / 0x4000]
    ensures 0x20_0000 <= v < 0x1000_0000 ==>
              Encoding(v) == [0x80 + v % 0x80, 0x80 + v / 0x80 % 0x80, 0x80 + v / 0x4000 % 0x80, v / 0x20_0000]
    ensures v >= 0x1000_0000 ==>
              Encoding(v) == [0x80 + v % 0x80, 0x80 + v / 0x80 % 0x80, 0x80 + v / 0x4000 % 0x80,
                              0x80 + v / 0x20_0000 % 0x80, v / 0x1000_0000]
  {
    hide Encoding;
    EncodingFirst(v);
    if v < 0x80 {
    } else if v < 0x4000 {
      TwoBytes(v);
    } else if v < 0x20_0000 {
      ThreeBytes(v);
    } else if v < 0x1000_0000 {
      FourBytes(v);
    } else {
      FiveBytes(v);
    }
  }

  lemma TwoBytes(v: u32)
    requires 0x80 <= v < 0x4000
    ensures Encoding(v) == [0x80 + v % 0x80, v / 0x80]
  {
    hide Encoding;
    EncodingFirst(v);
    EncodingFirst(v / 0x80);
  }

  lemma ThreeBytes(v: u32)
    requires 0x4000 <= v < 0x20_0000
    ensures Encoding(v) == [0x80 + v % 0x80, 0x80 + v / 0x80 % 0x80, v / 0x4000]
  {
    hide Encoding;
    EncodingFirst(v);
    TwoBytes(v / 0x80);
    Divided(v);
  }

  lemma FourBytes(v: u32)
    requires 0x20_0000 <= v < 0x1000_0000
    ensures Encoding(v) == [0x80 + v % 0x80, 0x80 + v / 0x80 % 0x80, 0x80 + v / 0x4000 % 0x80, v / 0x20_0000]
  {
    hide Encoding;
    EncodingFirst(v);
    ThreeBytes(v / 0x80);
    Divided(v);
  }

  lemma FiveBytes(v: u32)
    requires v >= 0x1000_0000
    ensures Encoding(v) == [0x80 + v % 0x80, 0x80 + v / 0x80 % 0x80, 0x80 + v / 0x4000 % 0x80,
                            0x80 + v / 0x20_0000 % 0x80, v / 0x1000_0000]
  {
    hide Encoding;
    EncodingFirst(v);
    FourBytes(v / 0x80);
    Divided(v);
  }

  lemma Divided(v: u32)
    ensures v / 0x80 / 0x80 == v / 0x4000 && v / 0x80 / 0x4000 == v / 0x20_0000
    ensures v / 0x80 / 0x20_0000 == v / 0x1000_0000
  {
  }

  lemma EncodingFirst(v: u32)
    ensures Encoding(v) == if v < 0x80 then [v] else [0x80 + v % 0x80] + Encoding(v / 0x80)
  {
  }

  /** The number that up to five bytes write. */
  lemma NumberBytes(s: Bytes)
    requires 1 <= |s| <= 5
    ensures Number(s) == s[0] as int % 0x80
                         + (if |s| > 1 then 0x80 * (s[1] as int % 0x80) else 0)
                         + (if |s| > 2 then 0x4000 * (s[2] as int % 0x80) else 0)
                         + (if |s| > 3 then 0x20_0000 * (s[3] as int % 0x80) else 0)
                         + (if |s| > 4 then 0x1000_0000 * (s[4] as int % 0x80) else 0)
  {
    NumberFirst(s);
    if |s| > 1 { NumberFirst(s[1..]); }
    if |s| > 2 { NumberFirst(s[2..]); assert s[1..][1..] == s[2..]; }
    if |s| > 3 { NumberFirst(s[3..]); assert s[2..][1..] == s[3..]; }
    if |s| > 4 { NumberFirst(s[4..]); assert s[3..][1..] == s[4..]; }
    assert s[|s|..] == [] && Number([]) == 0;
    hide Number;
  }

  lemma NumberFirst(s: Bytes)
    requires s != []
    ensures Number(s) == s[0] as int % 0x80 + 0x80 * Number(s[1..])
  {
  }

  /** Decoding undoes encoding, whatever follows it in the buffer. */
  lemma {:induction false} RoundTrip(value: u32, rest: Bytes)
    ensures DecodeVarint(Encoding(value) + rest) == Success(ParsedU32(LengthOf(value), value))
  {
    var s := Encoding(value);
    EncodingIsVarint(value);
    assert (s + rest)[..|s|] == s;
    DecodeMeaning(s + rest);
  }

  /** No strict prefix of an encoding decodes; one more byte is asked for. */
  lemma {:induction false} PrefixIncomplete(value: u32, n: nat)
    requires n < LengthOf(value)
    ensures DecodeVarint(Encoding(value)[..n]) == Incomplete(1)
  {
    EncodingIsVarint(value);
    DecodeMeaning(Encoding(value)[..n]);
  }

  /** Every accepted encoding of a value is at least as long as the one the encoder writes. */
  lemma {:induction false} Minimal(s: Bytes)
    requires DecodeVarint(s).Success?
    ensures |Encoding(DecodeVarint(s).value.value)| <= DecodeVarint(s).value.offset <= |s|
  {
    DecodeMeaning(s);
    var r := DecodeVarint(s).value;
    assert DecodeVarint(s) == Success(ParsedU32(r.offset, r.value));
    VarintBound(s[..r.offset]);
  }

  lemma {:induction false} DigitsUnique(s: Bytes, t: Bytes)
    requires |s| == |t| >= 1 && Number(s) == Number(t)
    requires forall i :: 0 <= i < |s| - 1 ==> s[i] >= 0x80 && t[i] >= 0x80
    requires s[|s| - 1] < 0x80 && t[|t| - 1] < 0x80
    ensures s == t
  {
    if |s| > 1 {
      DigitsUnique(s[1..], t[1..]);
      assert s == [s[0]] + s[1..] && t == [t[0]] + t[1..];
    } else {
      assert Number(s) == Digit(s[0]) + 0x80 * Number(s[1..]);
      assert Number(t) == Digit(t[0]) + 0x80 * Number(t[1..]);
    }
  }

  /** Writing a decoded value again gives the same bytes exactly if they were of minimal length. */
  lemma ReencodesExactly(s: Bytes)
    requires DecodeVarint(s).Success?
    ensures var r := DecodeVarint(s).value;
      r.offset <= |s| && (s[..r.offset] == Encoding(r.value) <==> r.offset == LengthOf(r.value))
  {
    DecodeMeaning(s);
    var r := DecodeVarint(s).value;
    assert DecodeVarint(s) == Success(ParsedU32(r.offset, r.value));
    if r.offset == LengthOf(r.value) {
      EncodingIsVarint(r.value);
      DigitsUnique(s[..r.offset], Encoding(r.value));
    }
  }

  /** The decoder does accept encodings the encoder never writes: here of zero, in two bytes. */
  lemma AcceptsNonMinimal()
    ensures DecodeVarint([0x80, 0]) == Success(ParsedU32(2, 0))
    ensures Encoding(0) == [0]
  {
    assert Number([0x80, 0]) == Digit(0x80) + 0x80 * Number([0]);
    assert Number([0]) == Digit(0) + 0x80 * Number([]);
    assert [0x80, 0][1..] == [0];
    assert IsVarint([0x80, 0]);
    assert [0x80, 0][..2] == [0x80, 0];
    DecodeMeaning([0x80, 0]);
  }

  /** A decided result does not depend on what follows; an undecided one needs another byte. */
  lemma {:induction false} DecodeExtend(s: Bytes, more: Bytes)
    ensures !DecodeVarint(s).Incomplete? ==> DecodeVarint(s + more) == DecodeVarint(s)
    ensures DecodeVarint(s).Success? ==> 1 <= DecodeVarint(s).value.offset <= MAX_LEN
    ensures DecodeVarint(s).Success? ==> DecodeVarint(s).value.offset <= |s|
    ensures DecodeVarint(s).Incomplete? ==> DecodeVarint(s).n == 1
    ensures DecodeVarint(s).Incomplete? && DecodeVarint(s + more).Success? ==> DecodeVarint(s + more).value.offset > |s|
  {
    DecodeMeaning(s);
    DecodeMeaning(s + more);
    if DecodeVarint(s).Success? {
      var k := DecodeVarint(s).value.offset;
      assert DecodeVarint(s) == Success(ParsedU32(k, DecodeVarint(s).value.value));
      assert (s + more)[..k] == s[..k];
    } else if DecodeVarint(s).Fatal? {
      assert forall i :: 0 <= i < 5 ==> (s + more)[i] == s[i];
      assert DecodeVarint(s + more).Fatal?;
      assert DecodeVarint(s).error.Overflow? && DecodeVarint(s + more).error.Overflow?;
    } else if DecodeVarint(s + more).Success? {
      var k := DecodeVarint(s + more).value.offset;
      assert DecodeVarint(s + more) == Success(ParsedU32(k, DecodeVarint(s + more).value.value));
      assert IsVarint((s + more)[..k]) && (s + more)[..k][k - 1] == (s + more)[k - 1];
    }
  }

  // ---------------------------------------------------------------- the loops

  lemma WeightIsPower(idx: nat)
    requires idx < MAX_LEN
    ensures Weight(idx) == Pow128(idx)
  {
    Powers();
  }

  /** The tests that the decoder applies to a byte, and its digit. */
  lemma ByteTests(b: byte)
    ensures (b as bv8) & 0xf0 != 0 <==> b >= 0x10
    ensures (b as bv8) & 0x80 == 0 <==> b < 0x80
    ensures Num(((b as bv8) & 0x7f) as bv32) == Digit(b)
  {
    hide Num;
    ByteAsBits(b);
    ByteBits(b as bv8);
    Widen((b as bv8) & 0x7f);
  }

  /** Placing the digit of the next byte gives the number of one byte more. */
  lemma PlaceNext(s: Bytes, idx: nat, value: bv32, c: bv32)
    requires idx < |s| && idx < MAX_LEN && Num(value) == Number(s[..idx]) && (idx == 4 ==> s[idx] < 0x10)
    requires Num(c) == Digit(s[idx])
    ensures Num(value) < Weight(idx) && Num(c) < if idx == 4 then 0x10 else 0x80
    ensures Num(Place(value, c, idx)) == Number(s[..idx + 1])
  {
    hide Place; hide Number; hide Pow128; hide Num; hide Weight;
    assert s[..idx + 1] == s[..idx] + [s[idx]];
    NumberAppend(s[..idx], s[idx]);
    NumberBound(s[..idx]);
    WeightIsPower(idx);
    PlaceAdds(value, c, idx);
  }

  lemma NoDigits()
    ensures Number([]) == 0 == Num(0)
  {
  }

  method Decode(input: Bytes) returns (r: Outcome<ParsedU32, Overflow>)
    ensures r == DecodeVarint(input)
  {
    hide Place; hide Number; hide Num;
    var value: bv32 := 0;
    NoDigits();
    var idx := 0;
    while idx < |input|
      invariant 0 <= idx <= |input| && idx <= MAX_LEN
      invariant forall k :: 0 <= k < idx ==> input[k] >= 0x80
      invariant idx == MAX_LEN ==> input[4] < 0x10
      invariant Num(value) == Number(input[..idx])
      invariant DecodeVarint(input) == DecodeFrom(input, idx)
    {
      var c := input[idx] as bv8;
      ByteTests(input[idx]);
      if idx >= 4 && c & 0xf0 != 0 {
        return Fatal(Overflow);
      }
      PlaceNext(input, idx, value, (c & 0x7f) as bv32);
      value := Place(value, (c & 0x7f) as bv32, idx);
      if c & 0x80 == 0 {
        return Success(ParsedU32(idx + 1, Num(value)));
      }
      idx := idx + 1;
    }
    return Incomplete(1);
  }

  lemma EncodingStep(left: u32)
    requires left > 0
    ensures Encoding(left) == if left / 0x80 == 0 then [left % 0x80] else [left % 0x80 + 0x80] + Encoding(left / 0x80)
  {
  }

  /** Writes the digits into an array of six bytes, the last of which is their number. */
  method Encode(value: u32) returns (r: Varint32)
    ensures r.Valid() && r.AsRef() == Encoding(value)
    ensures r.Len() == LengthOf(value) && r != SENTINEL
  {
    hide Encoding;
    EncodingZero();
    var output := new byte[6](_ => 0);
    var count := 0;
    var left: u32 := value;
    while left > 0
      invariant 0 <= count < MAX_LEN && output[5] == 0
      invariant left > 0 ==> output[..count] + Encoding(left) == Encoding(value)
      invariant left == 0 ==> output[..count + 1] == Encoding(value)
      decreases left
    {
      ghost var before, l := output[..count], left;
      EncodingStep(l);
      output[count] := left % 0x80;
      left := left / 0x80;
      if left > 0 {
        output[count] := output[count] + 0x80;
        count := count + 1;
        assert output[..count] == before + [l % 0x80 + 0x80];
        Associate(before, [l % 0x80 + 0x80], Encoding(left));
      } else {
        assert output[..count + 1] == before + [l % 0x80];
      }
    }
    output[5] := count + 1;
    assert output[..][..count + 1] == output[..count + 1];
    r := Varint32(output[..]);
  }

  lemma EncodingZero()
    ensures Encoding(0) == [0]
  {
  }
}
