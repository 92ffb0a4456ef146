/**
 * `base32_decode` of the chain configuration: RFC 4648 base32 without padding,
 * read through an unmasked 32-bit accumulator.
 *
 * The specification is the bit stream itself: the characters, five bits each, most
 * significant bit first, are the bytes, eight bits each, of the result.
 */
module Base32 {
  import opened Basics

  type Byte = bv8
  type Bits = seq<bool>

  /** The alphabet `A-Z2-7`: the five-bit value of a character, if it has one. */
  function Digit(c: Byte): (d: Option<Byte>)
    ensures d.Some? ==> d.value < 32
  {
    if 0x41 <= c <= 0x5A then Some(c - 0x41)
    else if 0x32 <= c <= 0x37 then Some(c - 0x32 + 26)
    else None
  }

  predicate InAlphabet(s: seq<Byte>) {
    forall i :: 0 <= i < |s| ==> Digit(s[i]).Some?
  }

  /** The character of a five-bit value (RFC 4648, section 6, table 3). */
  function Letter(d: Byte): (c: Byte)
    requires d < 32
    ensures Digit(c) == Some(d)
  {
    if d < 26 then d + 0x41 else d - 26 + 0x32
  }

  lemma LetterOfDigit(c: Byte)
    requires Digit(c).Some?
    ensures Letter(Digit(c).value) == c
  {
  }

  /** The alphabet in the order of the standard's table: `A` to `Z`, then `2` to `7`. */
  const ALPHABET: seq<Byte> := [
    0x41, 0x42, 0x43, 0x44, 0x45, 0x46, 0x47, 0x48, 0x49, 0x4A, 0x4B, 0x4C, 0x4D, 0x4E, 0x4F, 0x50,
    0x51, 0x52, 0x53, 0x54, 0x55, 0x56, 0x57, 0x58, 0x59, 0x5A, 0x32, 0x33, 0x34, 0x35, 0x36, 0x37]

  /** A character's value is its place in the alphabet, and nothing else has one. */
  lemma DigitIsPlace(c: Byte, d: Byte)
    requires d < 32
    ensures Digit(c) == Some(d) <==> c == ALPHABET[d as int]
  {
    hide Digit;
    if d < 26 { LetterIsPlace(c, d); } else { FigureIsPlace(c, d); }
  }

  lemma LetterIsPlace(c: Byte, d: Byte)
    requires d < 26
    ensures Digit(c) == Some(d) <==> c == ALPHABET[d as int]
  {
  }

  lemma FigureIsPlace(c: Byte, d: Byte)
    requires 26 <= d < 32
    ensures Digit(c) == Some(d) <==> c == ALPHABET[d as int]
  {
  }

  // ---------- bit streams ----------

  lemma SliceOfDrop(bits: Bits, n: nat, from: nat, to: nat)
    requires from <= to && n + to <= |bits|
    ensures bits[n..][from..to] == bits[n + from..n + to]
  {
  }

  lemma DropOfDrop(bits: Bits, n: nat, from: nat)
    requires n + from <= |bits|
    ensures bits[n..][from..] == bits[n + from..]
  {
  }

  lemma DropOfTake(bits: Bits, to: nat, from: nat)
    requires from <= to <= |bits|
    ensures bits[..to][from..] == bits[from..to]
  {
  }

  lemma SliceOfPrefix(front: Bits, last: Bits, from: nat, to: nat)
    requires from <= to <= |front|
    ensures (front + last)[from..to] == front[from..to]
  {
  }

  lemma SliceAt(bits: Bits, from: nat, to: nat, k: nat)
    requires from <= k < to <= |bits|
    ensures bits[from..to][k - from] == bits[k]
  {
  }

  predicate On(b: Byte, mask: Byte) { b & mask != 0 }

  predicate Has(v: bv32, mask: bv32) { v & mask != 0 }

  function Bits5(d: Byte): (r: Bits)
    ensures |r| == 5
  {
    [On(d, 0x10), On(d, 0x08), On(d, 0x04), On(d, 0x02), On(d, 0x01)]
  }

  function Bits8(b: Byte): (r: Bits)
    ensures |r| == 8
  {
    [On(b, 0x80), On(b, 0x40), On(b, 0x20), On(b, 0x10),
     On(b, 0x08), On(b, 0x04), On(b, 0x02), On(b, 0x01)]
  }

  function BitIf(bit: bool, weight: Byte): Byte {
    if bit then weight else 0
  }

  function Val5(r: Bits): (d: Byte)
    requires |r| == 5
    ensures d < 32
  {
    BitIf(r[0], 0x10) | BitIf(r[1], 0x08) | BitIf(r[2], 0x04) | BitIf(r[3], 0x02) | BitIf(r[4], 0x01)
  }

  function Val8(r: Bits): Byte
    requires |r| == 8
  {
    BitIf(r[0], 0x80) | BitIf(r[1], 0x40) | BitIf(r[2], 0x20) | BitIf(r[3], 0x10)
    | BitIf(r[4], 0x08) | BitIf(r[5], 0x04) | BitIf(r[6], 0x02) | BitIf(r[7], 0x01)
  }

  lemma Val5OfBits(d: Byte)
    requires d < 32
    ensures Val5(Bits5(d)) == d
  {
  }

  lemma Val8OfBits(b: Byte)
    ensures Val8(Bits8(b)) == b
  {
  }

  lemma Bits5OfVal(r: Bits)
    requires |r| == 5
    ensures Bits5(Val5(r)) == r
  {
    var d := Val5(r);
    assert d & 0x10 == BitIf(r[0], 0x10) && d & 0x08 == BitIf(r[1], 0x08) && d & 0x04 == BitIf(r[2], 0x04)
      && d & 0x02 == BitIf(r[3], 0x02) && d & 0x01 == BitIf(r[4], 0x01);
  }

  lemma MasksOfOr(x0: Byte, x1: Byte, x2: Byte, x3: Byte, x4: Byte, x5: Byte, x6: Byte, x7: Byte)
    requires x0 & 0x80 == x0 && x1 & 0x40 == x1 && x2 & 0x20 == x2 && x3 & 0x10 == x3
    requires x4 & 0x08 == x4 && x5 & 0x04 == x5 && x6 & 0x02 == x6 && x7 & 0x01 == x7
    ensures var b := x0 | x1 | x2 | x3 | x4 | x5 | x6 | x7;
      b & 0x80 == x0 && b & 0x40 == x1 && b & 0x20 == x2 && b & 0x10 == x3
      && b & 0x08 == x4 && b & 0x04 == x5 && b & 0x02 == x6 && b & 0x01 == x7
  {
  }

  lemma MaskedBit(bit: bool, weight: Byte)
    requires weight != 0
    ensures BitIf(bit, weight) & weight == BitIf(bit, weight) && (BitIf(bit, weight) != 0 <==> bit)
  {
  }

  lemma MasksOfVal8(r: Bits)
    requires |r| == 8
    ensures var b := Val8(r);
            && b & 0x80 == BitIf(r[0], 0x80) && b & 0x40 == BitIf(r[1], 0x40)
            && b & 0x20 == BitIf(r[2], 0x20) && b & 0x10 == BitIf(r[3], 0x10)
            && b & 0x08 == BitIf(r[4], 0x08) && b & 0x04 == BitIf(r[5], 0x04)
            && b & 0x02 == BitIf(r[6], 0x02) && b & 0x01 == BitIf(r[7], 0x01)
  {
    hide BitIf;
    MaskedBits(r);
    MasksOfOr(BitIf(r[0], 0x80), BitIf(r[1], 0x40), BitIf(r[2], 0x20), BitIf(r[3], 0x10),
              BitIf(r[4], 0x08), BitIf(r[5], 0x04), BitIf(r[6], 0x02), BitIf(r[7], 0x01));
  }

  lemma MaskedBits(r: Bits)
    requires |r| == 8
    ensures BitIf(r[0], 0x80) & 0x80 == BitIf(r[0], 0x80) && (BitIf(r[0], 0x80) != 0 <==> r[0])
    ensures BitIf(r[1], 0x40) & 0x40 == BitIf(r[1], 0x40) && (BitIf(r[1], 0x40) != 0 <==> r[1])
    ensures BitIf(r[2], 0x20) & 0x20 == BitIf(r[2], 0x20) && (BitIf(r[2], 0x20) != 0 <==> r[2])
    ensures BitIf(r[3], 0x10) & 0x10 == BitIf(r[3], 0x10) && (BitIf(r[3], 0x10) != 0 <==> r[3])
    ensures BitIf(r[4], 0x08) & 0x08 == BitIf(r[4], 0x08) && (BitIf(r[4], 0x08) != 0 <==> r[4])
    ensures BitIf(r[5], 0x04) & 0x04 == BitIf(r[5], 0x04) && (BitIf(r[5], 0x04) != 0 <==> r[5])
    ensures BitIf(r[6], 0x02) & 0x02 == BitIf(r[6], 0x02) && (BitIf(r[6], 0x02) != 0 <==> r[6])
    ensures BitIf(r[7], 0x01) & 0x01 == BitIf(r[7], 0x01) && (BitIf(r[7], 0x01) != 0 <==> r[7])
  {
    hide BitIf;
    MaskedBit(r[0], 0x80);
    MaskedBit(r[1], 0x40);
    MaskedBit(r[2], 0x20);
    MaskedBit(r[3], 0x10);
    MaskedBit(r[4], 0x08);
    MaskedBit(r[5], 0x04);
    MaskedBit(r[6], 0x02);
    MaskedBit(r[7], 0x01);
  }

  lemma Bits8OfVal(r: Bits)
    requires |r| == 8
    ensures Bits8(Val8(r)) == r
  {
    hide BitIf, Val8;
    MasksOfVal8(r);
    MaskedBits(r);
  }

  /** The bits of a base32 string. */
  function CharBits(s: seq<Byte>): (r: Bits)
    requires InAlphabet(s)
    ensures |r| == 5 * |s|
  {
    if s == [] then [] else CharBits(s[..|s| - 1]) + Bits5(Digit(s[|s| - 1]).value)
  }

  /** The bits of a byte string. */
  function ByteBits(out: seq<Byte>): (r: Bits)
    ensures |r| == 8 * |out|
  {
    if out == [] then [] else ByteBits(out[..|out| - 1]) + Bits8(out[|out| - 1])
  }

  lemma {:induction false} CharBitsAt(s: seq<Byte>, i: nat)
    requires InAlphabet(s) && i < |s|
    ensures CharBits(s)[5 * i..5 * i + 5] == Bits5(Digit(s[i]).value)
  {
    var front := s[..|s| - 1];
    if i < |s| - 1 {
      CharBitsAt(front, i);
      SliceOfPrefix(CharBits(front), Bits5(Digit(s[|s| - 1]).value), 5 * i, 5 * i + 5);
    }
  }

  lemma {:induction false} ByteBitsAt(out: seq<Byte>, j: nat)
    requires j < |out|
    ensures ByteBits(out)[8 * j..8 * j + 8] == Bits8(out[j])
  {
    var front := out[..|out| - 1];
    if j < |out| - 1 {
      ByteBitsAt(front, j);
      SliceOfPrefix(ByteBits(front), Bits8(out[|out| - 1]), 8 * j, 8 * j + 8);
    }
  }

  /** Byte strings of one length are determined by their bits. */
  lemma {:induction false} ByteBitsInjective(a: seq<Byte>, b: seq<Byte>)
    requires |a| == |b| && ByteBits(a) == ByteBits(b)
    ensures a == b
  {
    forall j | 0 <= j < |a| ensures a[j] == b[j] {
      ByteBitsAt(a, j);
      ByteBitsAt(b, j);
      Val8OfBits(a[j]);
      Val8OfBits(b[j]);
    }
  }

  /** Alphabet strings of one length are determined by their bits. */
  lemma {:induction false} CharBitsInjective(a: seq<Byte>, b: seq<Byte>)
    requires InAlphabet(a) && InAlphabet(b) && |a| == |b| && CharBits(a) == CharBits(b)
    ensures a == b
  {
    forall i | 0 <= i < |a| ensures a[i] == b[i] {
      CharBitsAt(a, i);
      CharBitsAt(b, i);
      Val5OfBits(Digit(a[i]).value);
      Val5OfBits(Digit(b[i]).value);
      LetterOfDigit(a[i]);
      LetterOfDigit(b[i]);
    }
  }

  // ---------- the decoder's specification ----------

  /** The bytes whose bits are the whole octets of `bits`. */
  function PackBytes(bits: Bits): (out: seq<Byte>)
    ensures |out| == |bits| / 8
  {
    if |bits| < 8 then [] else [Val8(bits[..8])] + PackBytes(bits[8..])
  }

  /** The characters whose bits are the whole five-bit groups of `bits` (RFC 4648, section 6). */
  function PackChars(bits: Bits): (s: seq<Byte>)
    ensures |s| == |bits| / 5 && InAlphabet(s)
  {
    if |bits| < 5 then [] else
      var rest := PackChars(bits[5..]);
      var s := [Letter(Val5(bits[..5]))] + rest;
      assert forall i :: 0 < i < |s| ==> s[i] == rest[i - 1];
      s
  }

  lemma {:induction false} PackBytesAt(bits: Bits, j: nat)
    requires 8 * j + 8 <= |bits|
    ensures PackBytes(bits)[j] == Val8(bits[8 * j..8 * j + 8])
  {
    if j > 0 {
      PackBytesAt(bits[8..], j - 1);
      SliceOfDrop(bits, 8, 8 * (j - 1), 8 * j);
    }
  }

  lemma {:induction false} PackCharsAt(bits: Bits, i: nat)
    requires 5 * i + 5 <= |bits|
    ensures PackChars(bits)[i] == Letter(Val5(bits[5 * i..5 * i + 5]))
  {
    if i > 0 {
      PackCharsAt(bits[5..], i - 1);
      SliceOfDrop(bits, 5, 5 * (i - 1), 5 * i);
    }
  }

  /** Octets out of a stream give back the stream, up to the bits that fill no octet. */
  lemma {:induction false} BitsOfPackedBytes(bits: Bits)
    ensures ByteBits(PackBytes(bits)) == bits[..8 * (|bits| / 8)]
  {
    hide PackBytes, Val8, Bits8, ByteBits;
    var out := PackBytes(bits);
    forall k | 0 <= k < 8 * |out| ensures ByteBits(out)[k] == bits[k] {
      var j := k / 8;
      ByteBitsAt(out, j);
      PackBytesAt(bits, j);
      Bits8OfVal(bits[8 * j..8 * j + 8]);
      SliceAt(ByteBits(out), 8 * j, 8 * j + 8, k);
      SliceAt(bits, 8 * j, 8 * j + 8, k);
    }
  }

  lemma {:induction false} BitsOfPackedChars(bits: Bits)
    ensures CharBits(PackChars(bits)) == bits[..5 * (|bits| / 5)]
  {
    hide PackChars, Val5, Bits5, CharBits, Letter, Digit;
    var s := PackChars(bits);
    forall k | 0 <= k < 5 * |s| ensures CharBits(s)[k] == bits[k] {
      var i := k / 5;
      CharBitsAt(s, i);
      PackCharsAt(bits, i);
      Bits5OfVal(bits[5 * i..5 * i + 5]);
      SliceAt(CharBits(s), 5 * i, 5 * i + 5, k);
      SliceAt(bits, 5 * i, 5 * i + 5, k);
    }
  }

  /** `base32_decode`: nothing on a character outside the alphabet, else the regrouped bits. */
  function Decode(s: seq<Byte>): Option<seq<Byte>> {
    if InAlphabet(s) then Some(PackBytes(CharBits(s))) else None
  }

  /** Section 6 of RFC 4648 for inputs that need no padding. */
  function Encode(out: seq<Byte>): (s: seq<Byte>)
    requires |out| % 5 == 0
    ensures |s| == |out| / 5 * 8
  {
    PackChars(ByteBits(out))
  }

  /** Decoding undoes encoding, so decoding reaches every byte string of these lengths. */
  lemma DecodeEncode(out: seq<Byte>)
    requires |out| % 5 == 0
    ensures InAlphabet(Encode(out)) && Decode(Encode(out)) == Some(out)
  {
    hide CharBits, ByteBits, PackBytes, PackChars, Digit;
    var groups := |out| / 5;
    var bits := ByteBits(out);
    assert |bits| == 40 * groups;
    BitsOfPackedChars(bits);
    assert CharBits(Encode(out)) == bits;
    BitsOfPackedBytes(bits);
    ByteBitsInjective(PackBytes(bits), out);
  }

  /** Encoding undoes decoding, so no two strings of these lengths decode alike. */
  lemma EncodeDecode(s: seq<Byte>)
    requires |s| % 8 == 0 && InAlphabet(s)
    ensures |Decode(s).value| % 5 == 0 && |Decode(s).value| == |s| / 8 * 5
    ensures Encode(Decode(s).value) == s
  {
    hide CharBits, ByteBits, PackBytes, PackChars, Digit;
    var groups := |s| / 8;
    var bits := CharBits(s);
    var out := PackBytes(bits);
    assert |bits| == 40 * groups && |out| == 5 * groups;
    BitsOfPackedBytes(bits);
    assert ByteBits(out) == bits;
    BitsOfPackedChars(bits);
    CharBitsInjective(PackChars(bits), s);
  }

  // ---------- the decoder ----------

  function Four(a: bool, b: bool, c: bool, d: bool): (r: Bits)
    ensures |r| == 4 && r[0] == a && r[1] == b && r[2] == c && r[3] == d
  {
    [a, b, c, d]
  }

  /** The low twelve bits of the accumulator: the most that is ever pending. */
  function Low12(value: bv32): (r: Bits)
    ensures |r| == 12
  {
    Four(Has(value, 0x800), Has(value, 0x400), Has(value, 0x200), Has(value, 0x100))
    + Four(Has(value, 0x80), Has(value, 0x40), Has(value, 0x20), Has(value, 0x10))
    + Four(Has(value, 0x08), Has(value, 0x04), Has(value, 0x02), Has(value, 0x01))
  }

  /** The accumulator after one more digit; its top five bits are lost. */
  function Accumulate(value: bv32, d: Byte): bv32 {
    (value << 5) | d as bv32
  }

  /** Shifting in moves each pending bit up by five, whatever falls off the top. */
  lemma AccumulateHigh(value: bv32, d: Byte, mask: bv32, moved: bv32)
    requires d < 32 && mask <= 0x40 && moved == mask << 5
    ensures Has(Accumulate(value, d), moved) == Has(value, mask)
  {
  }

  lemma AccumulateLow(value: bv32, d: Byte, mask: Byte)
    requires d < 32 && mask < 32
    ensures Has(Accumulate(value, d), mask as bv32) == On(d, mask)
  {
  }

  lemma Low12At(value: bv32)
    ensures var r := Low12(value);
      r[0] == Has(value, 0x800) && r[1] == Has(value, 0x400) && r[2] == Has(value, 0x200) && r[3] == Has(value, 0x100)
      && r[4] == Has(value, 0x80) && r[5] == Has(value, 0x40) && r[6] == Has(value, 0x20) && r[7] == Has(value, 0x10)
      && r[8] == Has(value, 0x08) && r[9] == Has(value, 0x04) && r[10] == Has(value, 0x02) && r[11] == Has(value, 0x01)
  {
    hide Has, Four;
  }

  lemma LowBitsAreTheDigit(value: bv32, d: Byte)
    requires d < 32
    ensures Low12(Accumulate(value, d))[7..] == Bits5(d)
  {
    hide Accumulate, Has, On;
    AccumulateLow(value, d, 0x10);
    AccumulateLow(value, d, 0x08);
    AccumulateLow(value, d, 0x04);
    AccumulateLow(value, d, 0x02);
    AccumulateLow(value, d, 0x01);
  }

  lemma HighBitsMoved(value: bv32, d: Byte)
    requires d < 32
    ensures Low12(Accumulate(value, d))[..7] == Low12(value)[5..]
  {
    hide Low12, Accumulate, Has, On;
    Low12At(value);
    Low12At(Accumulate(value, d));
    AccumulateHigh(value, d, 0x40, 0x800);
    AccumulateHigh(value, d, 0x20, 0x400);
    AccumulateHigh(value, d, 0x10, 0x200);
    AccumulateHigh(value, d, 0x08, 0x100);
    AccumulateHigh(value, d, 0x04, 0x80);
    AccumulateHigh(value, d, 0x02, 0x40);
    AccumulateHigh(value, d, 0x01, 0x20);
  }

  lemma ShiftIn(value: bv32, d: Byte)
    requires d < 32
    ensures Low12(Accumulate(value, d)) == Low12(value)[5..] + Bits5(d)
  {
    hide Low12, Bits5, Accumulate, Has, On;
    LowBitsAreTheDigit(value, d);
    HighBitsMoved(value, d);
    var after := Low12(Accumulate(value, d));
    assert after == after[..7] + after[7..];
  }

  /** The truncating cast takes the eight bits above the `bits` that stay pending. */
  function TakeOctet(value: bv32, bits: nat): Byte
    requires bits <= 4
  {
    ((value >> bits) & 0xFF) as Byte
  }

  lemma NarrowMasks(x: bv32)
    ensures var b := (x & 0xFF) as Byte;
      On(b, 0x80) == Has(x, 0x80) && On(b, 0x40) == Has(x, 0x40)
      && On(b, 0x20) == Has(x, 0x20) && On(b, 0x10) == Has(x, 0x10)
      && On(b, 0x08) == Has(x, 0x08) && On(b, 0x04) == Has(x, 0x04)
      && On(b, 0x02) == Has(x, 0x02) && On(b, 0x01) == Has(x, 0x01)
  {
  }

  lemma NarrowedBits(x: bv32)
    ensures Bits8((x & 0xFF) as Byte) == Low12(x)[4..]
  {
    NarrowMasks(x);
  }

  lemma ShiftRightMask(x: bv32, mask: bv32, from: bv32)
    requires mask <= 0x400 && from == mask << 1
    ensures Has(x >> 1, mask) == Has(x, from)
  {
  }

  lemma Low12ShiftRight(x: bv32)
    ensures Low12(x >> 1)[1..] == Low12(x)[..11]
  {
    hide Low12, Has;
    Low12At(x);
    Low12At(x >> 1);
    ShiftRightMask(x, 0x400, 0x800);
    ShiftRightMask(x, 0x200, 0x400);
    ShiftRightMask(x, 0x100, 0x200);
    ShiftRightMask(x, 0x80, 0x100);
    ShiftRightMask(x, 0x40, 0x80);
    ShiftRightMask(x, 0x20, 0x40);
    ShiftRightMask(x, 0x10, 0x20);
    ShiftRightMask(x, 0x08, 0x10);
    ShiftRightMask(x, 0x04, 0x08);
    ShiftRightMask(x, 0x02, 0x04);
    ShiftRightMask(x, 0x01, 0x02);
  }

  /** A shift by `bits`, one place at a time. */
  ghost function ShiftedRight(value: bv32, bits: nat): bv32 {
    if bits == 0 then value else ShiftedRight(value, bits - 1) >> 1
  }

  lemma ShiftByVariable(value: bv32, bits: nat)
    requires bits <= 4
    ensures value >> bits == ShiftedRight(value, bits)
  {
    if bits == 0 { assert value >> 0 == value; }
    else if bits == 1 { assert value >> 1 == (value >> 0) >> 1; }
    else if bits == 2 { assert value >> 2 == (value >> 1) >> 1; }
    else if bits == 3 { assert value >> 3 == ((value >> 1) >> 1) >> 1; }
    else { assert value >> 4 == (((value >> 1) >> 1) >> 1) >> 1; }
  }

  lemma ShiftedStep(v: Bits, inner: Bits, shifted: Bits, bits: nat)
    requires |v| == 12 && |inner| == 12 && |shifted| == 12 && 1 <= bits <= 4
    requires shifted[1..] == inner[..11] && inner[bits - 1..] == v[..13 - bits]
    ensures shifted[bits..] == v[..12 - bits]
  {
    forall k | 0 <= k < 12 - bits ensures shifted[bits + k] == v[k] {
      assert shifted[bits + k] == shifted[1..][bits + k - 1];
      assert inner[bits - 1 + k] == inner[bits - 1..][k];
    }
  }

  lemma {:induction false} Low12Shifted(value: bv32, bits: nat)
    requires bits <= 4
    ensures Low12(ShiftedRight(value, bits))[bits..] == Low12(value)[..12 - bits]
  {
    hide Low12;
    if bits > 0 {
      Low12Shifted(value, bits - 1);
      var inner := ShiftedRight(value, bits - 1);
      Low12ShiftRight(inner);
      ShiftedStep(Low12(value), Low12(inner), Low12(inner >> 1), bits);
    }
  }

  lemma TakeOctetBits(value: bv32, bits: nat)
    requires bits <= 4
    ensures Bits8(TakeOctet(value, bits)) == Low12(value)[4 - bits..12 - bits]
  {
    hide Low12;
    var shifted := value >> bits;
    NarrowedBits(shifted);
    ShiftByVariable(value, bits);
    Low12Shifted(value, bits);
    DropOfDrop(Low12(shifted), bits, 4 - bits);
    DropOfTake(Low12(value), 12 - bits, 4 - bits);
  }

  /** What the accumulator holds back: its low `bits` bits. */
  ghost function Pending(value: bv32, bits: nat): Bits
    requires bits <= 12
  {
    Low12(value)[12 - bits..]
  }

  lemma PendingAfterDigit(value: bv32, bits: nat, d: Byte)
    requires bits < 8 && d < 32
    ensures Pending(Accumulate(value, d), bits + 5) == Pending(value, bits) + Bits5(d)
  {
    ShiftIn(value, d);
  }

  lemma PendingAfterOctet(value: bv32, bits: nat)
    requires bits <= 4
    ensures Pending(value, bits + 8) == Bits8(TakeOctet(value, bits)) + Pending(value, bits)
  {
    hide Low12, Bits8, TakeOctet;
    TakeOctetBits(value, bits);
  }

  lemma ConcatIsAssociative(a: Bits, b: Bits, c: Bits)
    ensures (a + b) + c == a + (b + c)
  {
  }

  lemma NothingPending(input: seq<Byte>)
    ensures ByteBits([]) + Pending(0, 0) == CharBits(input[..0])
  {
  }

  lemma CharBitsSnoc(input: seq<Byte>, i: nat)
    requires i < |input| && InAlphabet(input[..i + 1])
    ensures InAlphabet(input[..i]) && CharBits(input[..i + 1]) == CharBits(input[..i]) + Bits5(Digit(input[i]).value)
  {
    assert input[..i + 1][..i] == input[..i];
    assert forall k :: 0 <= k < i ==> input[..i][k] == input[..i + 1][k];
  }

  lemma ByteBitsSnoc(out: seq<Byte>, b: Byte)
    ensures ByteBits(out + [b]) == ByteBits(out) + Bits8(b)
  {
    assert (out + [b])[..|out|] == out;
  }

  method Base32Decode(input: seq<Byte>) returns (r: Option<seq<Byte>>)
    ensures r == Decode(input)
    ensures r.Some? <==> InAlphabet(input)
    ensures r.Some? ==> |r.value| == 5 * |input| / 8 && ByteBits(r.value) == CharBits(input)[..8 * |r.value|]
  {
    hide Accumulate, Pending, Low12, Bits5, Bits8, TakeOctet, Digit, ByteBits, CharBits, PackBytes;
    var value: bv32 := 0;
    var bits := 0;
    var out: seq<Byte> := [];
    NothingPending(input);
    for i := 0 to |input|
      invariant InAlphabet(input[..i])
      invariant 0 <= bits < 8 && 8 * |out| + bits == 5 * i
      invariant ByteBits(out) + Pending(value, bits) == CharBits(input[..i])
    {
      var digit := Digit(input[i]);
      if digit.None? {
        return None;
      }
      CharBitsSnoc(input, i);
      PendingAfterDigit(value, bits, digit.value);
      ghost var before := value;
      value := Accumulate(value, digit.value);
      bits := bits + 5;
      ConcatIsAssociative(ByteBits(out), Pending(before, bits - 5), Bits5(digit.value));
      if bits >= 8 {
        bits := bits - 8;
        PendingAfterOctet(value, bits);
        ByteBitsSnoc(out, TakeOctet(value, bits));
        ConcatIsAssociative(ByteBits(out), Bits8(TakeOctet(value, bits)), Pending(value, bits));
        out := out + [TakeOctet(value, bits)];
      }
    }
    assert input[..|input|] == input;
    assert ByteBits(out) == CharBits(input)[..8 * |out|];
    BitsOfPackedBytes(CharBits(input));
    ByteBitsInjective(out, PackBytes(CharBits(input)));
    return Some(out);
  }
}
