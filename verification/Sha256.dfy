/**
 * `sha256Hex`: the hand-written digest behind every `payloadHash`, with one schedule array
 * reused across blocks and eight working variables, proved equal to FIPS 180-4.
 *
 * The numbers of the source are doubles cut back to 32 bits by `>>> 0` after sums of at most
 * five 32-bit terms, which is exact; they are 32-bit vectors here.
 */
module Sha256 {
  import opened Fips180

  // ---------- hexadecimal ----------

  function HexDigit(n: nat): (c: char)
    requires n < 16
  {
    if n < 10 then '0' + n as char else 'a' + (n - 10) as char
  }

  function HexValue(c: char): (n: nat)
    ensures n < 16
  {
    if '0' <= c <= '9' then (c - '0') as nat else if 'a' <= c <= 'f' then (c - 'a') as nat + 10 else 0
  }

  /** The sixteen digits, lower case. */
  lemma HexDigitsAre(n: nat)
    requires n < 16
    ensures HexDigit(n) == "0123456789abcdef"[n]
  {
  }

  /** `toString(16)`: no leading zeros. */
  function ToHex(n: nat): (s: string)
    ensures |s| > 0
  {
    if n < 16 then [HexDigit(n)] else ToHex(n / 16) + [HexDigit(n % 16)]
  }

  function PadStart(s: string, width: nat): string {
    if |s| < width then seq(width - |s|, _ => '0') + s else s
  }

  /** The last `width` hexadecimal digits of `n`. */
  function FixedHex(n: nat, width: nat): (s: string)
    ensures |s| == width
  {
    if width == 0 then "" else FixedHex(n / 16, width - 1) + [HexDigit(n % 16)]
  }

  function Power16(k: nat): (p: nat)
    ensures p > 0
  {
    if k == 0 then 1 else 16 * Power16(k - 1)
  }

  /** The number a hexadecimal string denotes. */
  function OfHex(s: string): nat {
    if s == "" then 0 else 16 * OfHex(s[..|s| - 1]) + HexValue(s[|s| - 1])
  }

  lemma {:induction false} FixedHexRoundTrip(n: nat, width: nat)
    requires n < Power16(width)
    ensures OfHex(FixedHex(n, width)) == n
  {
    if width > 0 {
      FixedHexRoundTrip(n / 16, width - 1);
      var s := FixedHex(n, width);
      assert s[..|s| - 1] == FixedHex(n / 16, width - 1);
    }
  }

  lemma {:induction false} FixedHexOfZero(width: nat)
    ensures FixedHex(0, width) == seq(width, _ => '0')
  {
    if width > 0 {
      FixedHexOfZero(width - 1);
    }
  }

  /** Padding the shortest notation to the left gives the fixed-width one. */
  lemma {:induction false} PadStartOfToHex(n: nat, width: nat)
    requires 0 < width && n < Power16(width)
    ensures |ToHex(n)| <= width && PadStart(ToHex(n), width) == FixedHex(n, width)
  {
    if n < 16 {
      FixedHexOfZero(width - 1);
    } else {
      assert Power16(1) == 16 * Power16(0);
      PadStartOfToHex(n / 16, width - 1);
      assert FixedHex(n, width) == PadStart(ToHex(n / 16), width - 1) + [HexDigit(n % 16)];
    }
  }

  /** One word after another, eight characters each. */
  function JoinHex(words: seq<Word>): (s: string)
    ensures |s| == 8 * |words|
  {
    if words == [] then "" else FixedHex(words[0] as nat, 8) + JoinHex(words[1..])
  }

  function WordList(v: Words): (words: seq<Word>)
    ensures |words| == 8
  {
    [v.a, v.b, v.c, v.d, v.e, v.f, v.g, v.h]
  }

  /** The digest as the seam and the gate write it: 64 lowercase hexadecimal characters. */
  function HexDigest(message: seq<Byte>): (s: string)
    ensures |s| == 64
  {
    JoinHex(WordList(Digest(message)))
  }

  // ---------- the gate's notation ----------

  /** The four bytes of a word, most significant first. */
  function BytesOfWord(n: nat): seq<nat> {
    [n / 0x100_0000, n / 0x1_0000 % 0x100, n / 0x100 % 0x100, n % 0x100]
  }

  /** The digest as bytes, as the gate's own hasher returns it. */
  function DigestBytes(words: seq<Word>): seq<nat> {
    if words == [] then [] else BytesOfWord(words[0] as nat) + DigestBytes(words[1..])
  }

  /** `hex::encode`: two characters a byte. */
  function HexEncode(bytes: seq<nat>): string {
    if bytes == [] then "" else FixedHex(bytes[0], 2) + HexEncode(bytes[1..])
  }

  lemma {:induction false} HexEncodeConcat(x: seq<nat>, y: seq<nat>)
    ensures HexEncode(x + y) == HexEncode(x) + HexEncode(y)
  {
    if x == [] {
      assert x + y == y;
    } else {
      assert (x + y)[1..] == x[1..] + y;
      HexEncodeConcat(x[1..], y);
    }
  }

  lemma TwoHexDigits(n: nat)
    ensures FixedHex(n, 2) == [HexDigit(n / 16 % 16), HexDigit(n % 16)]
  {
    assert FixedHex(n / 16, 1) == FixedHex(n / 16 / 16, 0) + [HexDigit(n / 16 % 16)];
  }

  lemma LastByte(n: nat, width: nat)
    ensures FixedHex(n, width + 2) == FixedHex(n / 0x100, width) + FixedHex(n % 0x100, 2)
  {
    assert n / 16 / 16 == n / 0x100 && n % 0x100 % 16 == n % 16 && n % 0x100 / 16 % 16 == n / 16 % 16;
    TwoHexDigits(n % 0x100);
    assert FixedHex(n, width + 2) == FixedHex(n / 16 / 16, width) + [HexDigit(n / 16 % 16)] + [HexDigit(n % 16)];
  }

  /** The digits of a word are the digits of its bytes. */
  lemma WordHexIsByteHex(n: nat)
    requires n < 0x1_0000_0000
    ensures HexEncode(BytesOfWord(n)) == FixedHex(n, 8)
  {
    hide FixedHex;
    var b := BytesOfWord(n);
    LastByte(n, 6);
    LastByte(n / 0x100, 4);
    LastByte(n / 0x1_0000, 2);
    assert n / 0x100 / 0x100 == n / 0x1_0000 && n / 0x1_0000 / 0x100 == n / 0x100_0000;
    assert b[1..][1..] == b[2..] && b[2..][1..] == b[3..] && b[3..][1..] == [];
    assert HexEncode(b[3..]) == FixedHex(b[3], 2) + "";
    assert HexEncode(b[2..]) == FixedHex(b[2], 2) + HexEncode(b[3..]);
    assert HexEncode(b[1..]) == FixedHex(b[1], 2) + HexEncode(b[2..]);
  }

  lemma {:induction false} HexOfBytes(words: seq<Word>)
    ensures HexEncode(DigestBytes(words)) == JoinHex(words)
  {
    hide FixedHex, BytesOfWord;
    if words != [] {
      WordHexIsByteHex(words[0] as nat);
      HexOfBytes(words[1..]);
      HexEncodeConcat(BytesOfWord(words[0] as nat), DigestBytes(words[1..]));
    }
  }

  /** Both sides of the seam write one digest alike. */
  lemma SeamAndGateWriteOneDigest(message: seq<Byte>)
    ensures HexEncode(DigestBytes(WordList(Digest(message)))) == HexDigest(message)
  {
    HexOfBytes(WordList(Digest(message)));
  }

  // ---------- the source's bit operations ----------

  /** `rotr`. */
  function Rotr(value: Word, bits: bv6): Word
    requires 0 < bits < 32
  {
    (value >> bits) | (value << (32 - bits))
  }

  function Mix0(x: Word): Word { Xor3(Rotr(x, 7), Rotr(x, 18), x >> 3) }
  function Mix1(x: Word): Word { Xor3(Rotr(x, 17), Rotr(x, 19), x >> 10) }
  function Sum0(x: Word): Word { Xor3(Rotr(x, 2), Rotr(x, 13), Rotr(x, 22)) }
  function Sum1(x: Word): Word { Xor3(Rotr(x, 6), Rotr(x, 11), Rotr(x, 25)) }

  function Choose(e: Word, f: Word, g: Word): Word { (e & f) ^ (!e & g) }
  function Majority(a: Word, b: Word, c: Word): Word { (a & b) ^ (a & c) ^ (b & c) }
  function Plus2(x: Word, y: Word): Word { x + y }
  function Plus4(x: Word, y: Word, z: Word, u: Word): Word { x + y + z + u }
  function Plus5(x: Word, y: Word, z: Word, u: Word, v: Word): Word { x + y + z + u + v }

  /** The expressions of the rounds are the functions of section 4.1.2 and addition modulo 2^32. */
  lemma ExpressionsAreTheStandards(x: Word, y: Word, z: Word, u: Word, v: Word)
    ensures Choose(x, y, z) == Ch(x, y, z) && Majority(x, y, z) == Maj(x, y, z)
    ensures Plus2(x, y) == Add(x, y) && Plus4(x, y, z, u) == Sum4(x, y, z, u)
    ensures Plus5(x, y, z, u, v) == Sum5(x, y, z, u, v)
  {
  }

  lemma RotrByFew(x: Word)
    ensures Rotr(x, 2) == x.RotateRight(2) && Rotr(x, 6) == x.RotateRight(6) && Rotr(x, 7) == x.RotateRight(7)
    ensures Rotr(x, 11) == x.RotateRight(11) && Rotr(x, 13) == x.RotateRight(13)
  {
  }

  lemma RotrByMany(x: Word)
    ensures Rotr(x, 17) == x.RotateRight(17) && Rotr(x, 18) == x.RotateRight(18) && Rotr(x, 19) == x.RotateRight(19)
    ensures Rotr(x, 22) == x.RotateRight(22) && Rotr(x, 25) == x.RotateRight(25)
  {
  }

  /** Turning a word right by one place, `bits` times over. */
  function Turn(x: Word, bits: bv6): Word
    decreases bits
  {
    if bits == 0 then x else Turn(x.RotateRight(1), bits - 1)
  }

  lemma RotrByOne(x: Word)
    ensures Rotr(x, 1) == x.RotateRight(1)
  {
  }

  lemma RotrAfterOneFew(x: Word)
    ensures var y := x.RotateRight(1);
            && Rotr(y, 1) == Rotr(x, 2) && Rotr(y, 2) == Rotr(x, 3)
            && Rotr(y, 3) == Rotr(x, 4) && Rotr(y, 4) == Rotr(x, 5)
            && Rotr(y, 5) == Rotr(x, 6) && Rotr(y, 6) == Rotr(x, 7)
            && Rotr(y, 7) == Rotr(x, 8) && Rotr(y, 8) == Rotr(x, 9)
            && Rotr(y, 9) == Rotr(x, 10) && Rotr(y, 10) == Rotr(x, 11)
  {
  }

  lemma RotrAfterOneMore(x: Word)
    ensures var y := x.RotateRight(1);
            && Rotr(y, 11) == Rotr(x, 12) && Rotr(y, 12) == Rotr(x, 13)
            && Rotr(y, 13) == Rotr(x, 14) && Rotr(y, 14) == Rotr(x, 15)
            && Rotr(y, 15) == Rotr(x, 16) && Rotr(y, 16) == Rotr(x, 17)
            && Rotr(y, 17) == Rotr(x, 18) && Rotr(y, 18) == Rotr(x, 19)
            && Rotr(y, 19) == Rotr(x, 20) && Rotr(y, 20) == Rotr(x, 21)
  {
  }

  lemma RotrAfterOneMost(x: Word)
    ensures var y := x.RotateRight(1);
            && Rotr(y, 21) == Rotr(x, 22) && Rotr(y, 22) == Rotr(x, 23)
            && Rotr(y, 23) == Rotr(x, 24) && Rotr(y, 24) == Rotr(x, 25)
            && Rotr(y, 25) == Rotr(x, 26) && Rotr(y, 26) == Rotr(x, 27)
            && Rotr(y, 27) == Rotr(x, 28) && Rotr(y, 28) == Rotr(x, 29)
            && Rotr(y, 29) == Rotr(x, 30) && Rotr(y, 30) == Rotr(x, 31)
  {
  }

  lemma RotrAfterOne(x: Word, bits: bv6)
    requires 0 < bits < 31
    ensures Rotr(x.RotateRight(1), bits) == Rotr(x, bits + 1)
  {
    hide Rotr;
    RotrAfterOneFew(x);
    RotrAfterOneMore(x);
    RotrAfterOneMost(x);
  }

  lemma Predecessor(bits: bv6)
    requires 1 < bits < 32
    ensures 0 < bits - 1 < 31 && bits - 1 + 1 == bits && bits - 1 < bits
  {
  }

  /** The shifts and the or turn a word right by any amount from 1 to 31. */
  lemma {:induction false} RotrIsRotation(x: Word, bits: bv6)
    requires 0 < bits < 32
    ensures Rotr(x, bits) == Turn(x, bits)
    decreases bits
  {
    hide Rotr;
    if bits == 1 {
      RotrByOne(x);
    } else {
      Predecessor(bits);
      RotrIsRotation(x.RotateRight(1), bits - 1);
      RotrAfterOne(x, bits - 1);
    }
  }

  /** The source's sums of rotations are the standard's sigma functions. */
  lemma SigmasAreTheStandards(x: Word)
    ensures Mix0(x) == SmallSigma0(x) && Mix1(x) == SmallSigma1(x)
    ensures Sum0(x) == BigSigma0(x) && Sum1(x) == BigSigma1(x)
  {
    hide Rotr, Xor3;
    RotrByFew(x);
    RotrByMany(x);
  }

  /** The schedule is summed in the opposite order. */
  lemma SumOrder(a: Word, b: Word, c: Word, d: Word)
    ensures Sum4(a, b, c, d) == Sum4(d, c, b, a)
  {
  }

  lemma AddCommutes(x: Word, y: Word)
    ensures Add(x, y) == Add(y, x)
  {
  }

  /** `x & ~63` for a non-negative 32-bit `x`. */
  function ClearLowSix(x: nat): nat
    requires x < 0x8000_0000
  {
    x - x % 64
  }

  // ---------- the buffer ----------

  function FourBytes(value: nat): (r: seq<Byte>)
    ensures |r| == 4
  {
    [ByteOf(value, 3), ByteOf(value, 2), ByteOf(value, 1), ByteOf(value, 0)]
  }

  /** `setUint32`, big-endian. */
  method SetUint32(buffer: array<Byte>, at: nat, value: nat)
    requires at + 4 <= buffer.Length
    modifies buffer
    ensures buffer[..] == old(buffer[..at]) + FourBytes(value) + old(buffer[at + 4..])
  {
    hide ByteOf;
    buffer[at] := ByteOf(value, 3);
    buffer[at + 1] := ByteOf(value, 2);
    buffer[at + 2] := ByteOf(value, 1);
    buffer[at + 3] := ByteOf(value, 0);
  }

  lemma HighAndLowWord(bits: nat)
    ensures FourBytes(bits / 0x1_0000_0000) + FourBytes(bits % 0x1_0000_0000) == LengthBlock(bits)
  {
    hide ByteOf;
    FourBytesOfHalf(bits, bits / 0x1_0000_0000, bits % 0x1_0000_0000);
    var block := LengthBlock(bits);
    assert block[..4] == [block[0], block[1], block[2], block[3]];
    assert block[4..] == [block[4], block[5], block[6], block[7]];
    assert block == block[..4] + block[4..];
  }

  lemma FourBytesOfHalf(bits: nat, high: nat, low: nat)
    requires high == bits / 0x1_0000_0000 && low == bits % 0x1_0000_0000
    ensures FourBytes(high) == [ByteOf(bits, 7), ByteOf(bits, 6), ByteOf(bits, 5), ByteOf(bits, 4)]
    ensures FourBytes(low) == [ByteOf(bits, 3), ByteOf(bits, 2), ByteOf(bits, 1), ByteOf(bits, 0)]
  {
    hide ByteOf;
    HighByte(bits, high, 3);
    HighByte(bits, high, 2);
    HighByte(bits, high, 1);
    HighByte(bits, high, 0);
    LowBytes(bits, high, low);
  }

  lemma HighByte(bits: nat, high: nat, k: nat)
    requires k < 4 && high == bits / 0x1_0000_0000
    ensures ByteOf(high, k) == ByteOf(bits, k + 4)
  {
    if k == 0 { assert high / 0x1 == bits / 0x1_0000_0000; }
    else if k == 1 { assert high / 0x100 == bits / 0x100_0000_0000; }
    else if k == 2 { assert high / 0x1_0000 == bits / 0x1_0000_0000_0000; }
    else { assert high / 0x100_0000 == bits / 0x100_0000_0000_0000; }
  }

  lemma LowBytes(bits: nat, high: nat, low: nat)
    requires bits == 0x1_0000_0000 * high + low
    ensures ByteOf(low, 0) == ByteOf(bits, 0) && ByteOf(low, 1) == ByteOf(bits, 1)
    ensures ByteOf(low, 2) == ByteOf(bits, 2) && ByteOf(low, 3) == ByteOf(bits, 3)
  {
    hide ByteOf;
    BytesAre(bits);
    BytesAre(low);
    SameLowByte(0x100_0000 * high, low);
    assert bits == 0x100 * (0x100_0000 * high) + low;
    SecondByte(high, low);
    ThirdByte(high, low);
    FourthByte(high, low);
  }

  lemma BytesAre(n: nat)
    ensures ByteOf(n, 0) == (n % 0x100) as Byte && ByteOf(n, 1) == (n / 0x100 % 0x100) as Byte
    ensures ByteOf(n, 2) == (n / 0x1_0000 % 0x100) as Byte && ByteOf(n, 3) == (n / 0x100_0000 % 0x100) as Byte
  {
  }

  lemma SecondByte(high: nat, low: nat)
    ensures (0x1_0000_0000 * high + low) / 0x100 % 0x100 == low / 0x100 % 0x100
  {
    DropOneByte(0x100_0000 * high, low);
    SameLowByte(0x1_0000 * high, low / 0x100);
  }

  lemma ThirdByte(high: nat, low: nat)
    ensures (0x1_0000_0000 * high + low) / 0x1_0000 % 0x100 == low / 0x1_0000 % 0x100
  {
    DropTwoBytes(0x1_0000 * high, low);
    SameLowByte(0x100 * high, low / 0x1_0000);
  }

  lemma FourthByte(high: nat, low: nat)
    ensures (0x1_0000_0000 * high + low) / 0x100_0000 % 0x100 == low / 0x100_0000 % 0x100
  {
    DropThreeBytes(0x100 * high, low);
    SameLowByte(high, low / 0x100_0000);
  }

  lemma DropOneByte(x: nat, low: nat)
    ensures (0x100 * x + low) / 0x100 == x + low / 0x100
  {
  }

  lemma DropTwoBytes(x: nat, low: nat)
    ensures (0x1_0000 * x + low) / 0x1_0000 == x + low / 0x1_0000
  {
  }

  lemma DropThreeBytes(x: nat, low: nat)
    ensures (0x100_0000 * x + low) / 0x100_0000 == x + low / 0x100_0000
  {
  }

  lemma SameLowByte(x: nat, q: nat)
    ensures (0x100 * x + q) % 0x100 == q % 0x100
  {
  }

  /** The message and its final 1 bit in a zeroed buffer, all but the length of the padding. */
  method MessageBuffer(bytes: seq<Byte>, paddedLength: nat) returns (buffer: array<Byte>)
    requires |bytes| + 9 <= paddedLength
    ensures fresh(buffer) && buffer.Length == paddedLength
    ensures buffer[..] == bytes + [0x80] + seq(paddedLength - |bytes| - 1, _ => 0)
  {
    buffer := new Byte[paddedLength](_ => 0);
    forall i | 0 <= i < |bytes| {
      buffer[i] := bytes[i];
    }
    buffer[|bytes|] := 0x80;
  }

  /** The padded message, filled in place. */
  method PadBuffer(bytes: seq<Byte>) returns (buffer: array<Byte>)
    requires |bytes| + 72 < 0x8000_0000
    ensures fresh(buffer) && buffer[..] == Pad(bytes) && buffer.Length % 64 == 0
  {
    hide ByteOf, FourBytes, LengthBlock, Pad, ZeroBytes, ClearLowSix;
    RoundedLength(|bytes|);
    var bitLength := |bytes| * 8;
    var paddedLength := ClearLowSix(|bytes| + 9 + 63);
    buffer := MessageBuffer(bytes, paddedLength);
    ghost var zeroed := buffer[..];
    SetUint32(buffer, paddedLength - 8, bitLength / 0x1_0000_0000);
    ghost var half := buffer[..];
    SetUint32(buffer, paddedLength - 4, bitLength % 0x1_0000_0000);
    WrittenIsPadded(bytes, zeroed, half, buffer[..]);
  }

  lemma RoundedLength(n: nat)
    requires n + 72 < 0x8000_0000
    ensures ClearLowSix(n + 9 + 63) == n + 9 + ZeroBytes(n) && ClearLowSix(n + 9 + 63) % 64 == 0
  {
    var q, r := n / 64, n % 64;
    assert n + 72 == 64 * (q + 1) + (r + 8);
    assert (n + 72) % 64 == (if r < 56 then r + 8 else r - 56);
  }

  /** The zeroed buffer with the two halves of the bit length written at its end. */
  lemma WrittenIsPadded(bytes: seq<Byte>, zeroed: seq<Byte>, half: seq<Byte>, full: seq<Byte>)
    requires |zeroed| == |bytes| + ZeroBytes(|bytes|) + 9
    requires zeroed == bytes + [0x80] + seq(|zeroed| - |bytes| - 1, _ => 0)
    requires half == zeroed[..|zeroed| - 8] + FourBytes(|bytes| * 8 / 0x1_0000_0000) + zeroed[|zeroed| - 4..]
    requires full == half[..|zeroed| - 4] + FourBytes(|bytes| * 8 % 0x1_0000_0000) + half[|zeroed|..]
    ensures full == Pad(bytes)
  {
    hide ByteOf, FourBytes, LengthBlock, ZeroBytes;
    var front := bytes + [0x80] + seq(ZeroBytes(|bytes|), _ => 0);
    assert zeroed[..|zeroed| - 8] == front;
    var high, low := FourBytes(|bytes| * 8 / 0x1_0000_0000), FourBytes(|bytes| * 8 % 0x1_0000_0000);
    WrittenWord(zeroed, |zeroed| - 8, high, half);
    WrittenWord(half, |zeroed| - 4, low, full);
    HighAndLowWord(|bytes| * 8);
    LastConcat(front, high, low);
  }

  lemma WrittenWord(before: seq<Byte>, at: nat, word: seq<Byte>, after: seq<Byte>)
    requires at + 4 <= |before| && |word| == 4 && after == before[..at] + word + before[at + 4..]
    ensures |after| == |before| && after[..at + 4] == before[..at] + word
  {
  }

  lemma LastConcat(x: seq<Byte>, y: seq<Byte>, z: seq<Byte>)
    ensures x + y + z == x + (y + z)
  {
  }

  /** `getUint32`, big-endian. */
  method GetUint32(buffer: array<Byte>, at: nat) returns (w: Word)
    requires at + 4 <= buffer.Length
    ensures w == WordOfBytes(buffer[at], buffer[at + 1], buffer[at + 2], buffer[at + 3])
  {
    return WordOfBytes(buffer[at], buffer[at + 1], buffer[at + 2], buffer[at + 3]);
  }

  // ---------- one block ----------

  /** The schedule of the block at `offset`, overwriting the one of the block before. */
  method FillSchedule(buffer: array<Byte>, offset: nat, w: array<Word>)
    requires offset + 64 <= buffer.Length && w.Length == 64
    modifies w
    ensures forall t :: 0 <= t < 64 ==> w[t] == Schedule(buffer[offset..offset + 64], t)
  {
    hide Mix0, Mix1, SmallSigma0, SmallSigma1, WordOfBytes, Sum4, Plus4, Schedule;
    ghost var block := buffer[offset..offset + 64];
    for i := 0 to 16
      invariant forall t :: 0 <= t < i ==> w[t] == Schedule(block, t)
    {
      ScheduleHead(block, i);
      w[i] := GetUint32(buffer, offset + i * 4);
    }
    for i := 16 to 64
      invariant forall t :: 0 <= t < i ==> w[t] == Schedule(block, t)
    {
      var s0 := Mix0(w[i - 15]);
      var s1 := Mix1(w[i - 2]);
      SigmasAreTheStandards(w[i - 15]);
      SigmasAreTheStandards(w[i - 2]);
      ScheduleStep(block, i, w[i - 16], s0, w[i - 7], s1);
      ExpressionsAreTheStandards(w[i - 16], s0, w[i - 7], s1, 0);
      w[i] := Plus4(w[i - 16], s0, w[i - 7], s1);
    }
  }

  lemma ScheduleHead(block: seq<Byte>, t: nat)
    requires |block| == 64 && t < 16
    ensures Schedule(block, t) == WordOfBytes(block[4 * t], block[4 * t + 1], block[4 * t + 2], block[4 * t + 3])
  {
  }

  lemma ScheduleStep(block: seq<Byte>, t: nat, w16: Word, s0: Word, w7: Word, s1: Word)
    requires |block| == 64 && 16 <= t < 64
    requires w16 == Schedule(block, t - 16) && w7 == Schedule(block, t - 7)
    requires s0 == SmallSigma0(Schedule(block, t - 15)) && s1 == SmallSigma1(Schedule(block, t - 2))
    ensures Schedule(block, t) == Sum4(w16, s0, w7, s1)
  {
    hide SmallSigma0, SmallSigma1, Sum4;
    SumOrder(s1, w7, s0, w16);
  }

  /** The 64 rounds, on eight variables moved along one place at a time. */
  method RunRounds(hash: Words, w: array<Word>, ghost block: seq<Byte>) returns (v: Words)
    requires w.Length == 64 && |block| == 64
    requires forall t :: 0 <= t < 64 ==> w[t] == Schedule(block, t)
    ensures v == Rounds(hash, block, 64)
  {
    hide Sum0, Sum1, BigSigma0, BigSigma1, Ch, Maj, K, Schedule, Add, Sum5, Choose, Majority, Plus2, Plus5;
    var a, b, c, d := hash.a, hash.b, hash.c, hash.d;
    var e, f, g, h := hash.e, hash.f, hash.g, hash.h;
    for i := 0 to 64
      invariant Words(a, b, c, d, e, f, g, h) == Rounds(hash, block, i)
    {
      SigmasAreTheStandards(e);
      SigmasAreTheStandards(a);
      var s1 := Sum1(e);
      var ch := Choose(e, f, g);
      ExpressionsAreTheStandards(e, f, g, 0, 0);
      var temp1 := Plus5(h, s1, ch, K(i), w[i]);
      ExpressionsAreTheStandards(h, s1, ch, K(i), w[i]);
      var s0 := Sum0(a);
      var maj := Majority(a, b, c);
      ExpressionsAreTheStandards(a, b, c, 0, 0);
      var temp2 := Plus2(s0, maj);
      ExpressionsAreTheStandards(s0, maj, 0, 0, 0);
      ExpressionsAreTheStandards(d, temp1, 0, 0, 0);
      ExpressionsAreTheStandards(temp1, temp2, 0, 0, 0);
      h := g;
      g := f;
      f := e;
      e := Plus2(d, temp1);
      d := c;
      c := b;
      b := a;
      a := Plus2(temp1, temp2);
    }
    return Words(a, b, c, d, e, f, g, h);
  }

  // ---------- the digest ----------

  method ToHexWord(word: Word) returns (s: string)
    ensures s == FixedHex(word as nat, 8)
  {
    hide ToHex, FixedHex, PadStart;
    assert Power16(8) == 0x1_0000_0000 by {
      assert Power16(2) == 0x100 && Power16(4) == 0x1_0000 && Power16(6) == 0x100_0000;
    }
    PadStartOfToHex(word as nat, 8);
    return PadStart(ToHex(word as nat), 8);
  }

  lemma PlusIsAdd()
    ensures forall x, y :: Plus2(x, y) == Add(x, y)
  {
  }

  lemma HashOfNothing(padded: seq<Byte>)
    ensures HashOf(padded, 0) == INITIAL
  {
  }

  lemma NextHash(padded: seq<Byte>, n: nat, hash: Words, v: Words)
    requires 0 < n && 64 * n <= |padded| && hash == HashOf(padded, n - 1)
    requires v == Rounds(hash, padded[64 * (n - 1)..64 * n], 64)
    ensures HashOf(padded, n) == Words(Add(hash.a, v.a), Add(hash.b, v.b), Add(hash.c, v.c), Add(hash.d, v.d),
                                       Add(hash.e, v.e), Add(hash.f, v.f), Add(hash.g, v.g), Add(hash.h, v.h))
  {
    hide Add, Rounds;
    AddCommutes(hash.a, v.a);
    AddCommutes(hash.b, v.b);
    AddCommutes(hash.c, v.c);
    AddCommutes(hash.d, v.d);
    AddCommutes(hash.e, v.e);
    AddCommutes(hash.f, v.f);
    AddCommutes(hash.g, v.g);
    AddCommutes(hash.h, v.h);
  }

  /** The last loop of the source: each word as eight characters, joined. */
  method JoinWords(words: seq<Word>) returns (hex: string)
    ensures hex == JoinHex(words)
  {
    hide FixedHex, JoinHex;
    hex := "";
    JoinHexOfNothing();
    for i := 0 to |words|
      invariant hex == JoinHex(words[..i])
    {
      var part := ToHexWord(words[i]);
      JoinHexSnoc(words[..i], words[i]);
      assert words[..i + 1] == words[..i] + [words[i]];
      hex := hex + part;
    }
    assert words[..|words|] == words;
  }

  lemma JoinHexOfNothing()
    ensures JoinHex([]) == ""
  {
  }

  method Sha256Hex(bytes: seq<Byte>) returns (hex: string)
    requires |bytes| + 72 < 0x8000_0000
    ensures hex == HexDigest(bytes)
  {
    hide Pad, Rounds, Schedule, HashOf, Add, Plus2, JoinHex;
    var buffer := PadBuffer(bytes);
    var hash := INITIAL;
    HashOfNothing(Pad(bytes));
    var w := new Word[64];
    var offset := 0;
    while offset < buffer.Length
      invariant offset % 64 == 0 && offset <= buffer.Length
      invariant buffer[..] == Pad(bytes)
      invariant hash == HashOf(Pad(bytes), offset / 64)
    {
      ghost var block := buffer[offset..offset + 64];
      ghost var n := offset / 64 + 1;
      assert block == Pad(bytes)[64 * (n - 1)..64 * n];
      FillSchedule(buffer, offset, w);
      var v := RunRounds(hash, w, block);
      NextHash(Pad(bytes), n, hash, v);
      PlusIsAdd();
      hash := Words(Plus2(hash.a, v.a), Plus2(hash.b, v.b), Plus2(hash.c, v.c), Plus2(hash.d, v.d),
                    Plus2(hash.e, v.e), Plus2(hash.f, v.f), Plus2(hash.g, v.g), Plus2(hash.h, v.h));
      offset := offset + 64;
      assert offset / 64 == n;
    }
    hex := JoinWords([hash.a, hash.b, hash.c, hash.d, hash.e, hash.f, hash.g, hash.h]);
  }

  lemma {:induction false} JoinHexSnoc(words: seq<Word>, last: Word)
    ensures JoinHex(words + [last]) == JoinHex(words) + FixedHex(last as nat, 8)
  {
    hide FixedHex;
    if words == [] {
      assert (words + [last])[1..] == [];
    } else {
      assert (words + [last])[1..] == words[1..] + [last];
      JoinHexSnoc(words[1..], last);
    }
  }
}
