/**
 * `is_public_key`: a Stellar ed25519 public key is 56 base32 characters, the version byte
 * 0x30, 32 key bytes, and the CRC16-XModem of those 33 bytes in little-endian order.
 *
 * The main result is what the checksum is there for: no single mistyped character, whatever
 * it is replaced by, turns a key into another accepted string.
 */
module StrKey {
  import opened Basics
  import opened Base32
  import opened Crc16

  const VERSION: Byte := 0x30

  function FromLittleEndian(low: Byte, high: Byte): Word {
    low as Word | (high as Word << 8)
  }

  predicate IsPublicKey(value: seq<Byte>) {
    |value| == 56
    && Decode(value).Some?
    && var decoded := Decode(value).value;
       |decoded| == 35 && decoded[0] == VERSION
       && Crc(decoded[..33]) == FromLittleEndian(decoded[33], decoded[34])
  }

  method CheckPublicKey(value: seq<Byte>) returns (ok: bool)
    ensures ok == IsPublicKey(value)
    ensures ok <==> exists payload :: |payload| == 32 && value == KeyOf(payload)
  {
    hide KeyOf, IsPublicKey, Decode, Crc;
    AcceptedIffGenerated(value);
    KeyShape(value);
    if |value| != 56 {
      return false;
    }
    var decoded := Base32Decode(value);
    if decoded.None? {
      return false;
    }
    if |decoded.value| != 35 || decoded.value[0] != VERSION {
      return false;
    }
    var expected := Crc16Xmodem(decoded.value[..33]);
    return expected == FromLittleEndian(decoded.value[33], decoded.value[34]);
  }

  lemma KeyShape(value: seq<Byte>)
    ensures IsPublicKey(value) <==>
      |value| == 56 && Decode(value).Some? && |Decode(value).value| == 35 && Decode(value).value[0] == VERSION
      && Crc(Decode(value).value[..33]) == FromLittleEndian(Decode(value).value[33], Decode(value).value[34])
  {
    hide Decode, Crc;
  }

  // ---------- which strings are accepted ----------

  /** The two checksum bytes, low byte first. */
  function LittleEndian(crc: Word): seq<Byte> {
    [(crc & 0xFF) as Byte, (crc >> 8) as Byte]
  }

  lemma LittleEndianRoundTrip(crc: Word, low: Byte, high: Byte)
    ensures FromLittleEndian(LittleEndian(crc)[0], LittleEndian(crc)[1]) == crc
    ensures LittleEndian(FromLittleEndian(low, high)) == [low, high]
  {
    WordOfBytes(crc);
    BytesOfWord(low, high);
  }

  lemma WordOfBytes(crc: bv16)
    ensures (crc & 0xFF) as bv8 as bv16 | ((crc >> 8) as bv8 as bv16 << 8) == crc
  {
  }

  lemma BytesOfWord(low: bv8, high: bv8)
    ensures ((low as bv16 | (high as bv16 << 8)) & 0xFF) as bv8 == low
    ensures ((low as bv16 | (high as bv16 << 8)) >> 8) as bv8 == high
  {
  }

  /** The StrKey of 32 key bytes, as SEP-0023 writes it. */
  function KeyOf(payload: seq<Byte>): (value: seq<Byte>)
    requires |payload| == 32
    ensures |value| == 56
  {
    Encode([VERSION] + payload + LittleEndian(Crc([VERSION] + payload)))
  }

  /** The accepted strings are exactly the StrKeys of 32-byte payloads. */
  lemma AcceptedIffGenerated(value: seq<Byte>)
    ensures IsPublicKey(value) <==> exists payload :: |payload| == 32 && value == KeyOf(payload)
  {
    hide Decode, Encode, Crc;
    if IsPublicKey(value) {
      var decoded := Decode(value).value;
      var payload := decoded[1..33];
      assert decoded[..33] == [VERSION] + payload;
      LittleEndianRoundTrip(0, decoded[33], decoded[34]);
      assert decoded == [VERSION] + payload + LittleEndian(Crc([VERSION] + payload));
      DecodedIsInAlphabet(value);
      EncodeDecode(value);
      assert value == KeyOf(payload);
    }
    forall payload | |payload| == 32 && value == KeyOf(payload) ensures IsPublicKey(value) {
      KeyOfIsAccepted(payload);
    }
  }

  lemma DecodedIsInAlphabet(value: seq<Byte>)
    requires Decode(value).Some?
    ensures InAlphabet(value)
  {
  }

  /** A key decodes to the payload it was made of, so no two payloads share one. */
  lemma KeyOfIsAccepted(payload: seq<Byte>)
    requires |payload| == 32
    ensures IsPublicKey(KeyOf(payload)) && Decode(KeyOf(payload)).value[1..33] == payload
  {
    hide Decode, Encode, Crc;
    var crc := Crc([VERSION] + payload);
    var decoded := [VERSION] + payload + LittleEndian(crc);
    DecodeEncode(decoded);
    LittleEndianRoundTrip(crc, 0, 0);
    assert decoded[..33] == [VERSION] + payload;
    assert decoded[33] == LittleEndian(crc)[0] && decoded[34] == LittleEndian(crc)[1];
  }

  // ---------- what a key looks like ----------

  /** The bits of an accepted key are the bits of its 35 bytes. */
  lemma BitsOfKey(value: seq<Byte>)
    requires IsPublicKey(value)
    ensures InAlphabet(value) && |CharBits(value)| == 280
    ensures ByteBits(Decode(value).value) == CharBits(value)
  {
    hide Crc, CharBits, ByteBits, PackBytes, Digit;
    BitsOfPackedBytes(CharBits(value));
  }

  /**
   * The accepted strings, read off their characters: 56 of the alphabet, 'G' first and 'A' to 'D'
   * after it, and the checksum of the first 33 bytes in the last two.
   */
  lemma KeysBeginWithG(value: seq<Byte>)
    ensures IsPublicKey(value) <==>
              && |value| == 56 && InAlphabet(value) && value[0] == 0x47 && 0x41 <= value[1] <= 0x44
              && var decoded := Decode(value).value;
                 |decoded| == 35 && Crc(decoded[..33]) == FromLittleEndian(decoded[33], decoded[34])
  {
    hide Crc, CharBits, ByteBits, Digit, PackBytes;
    if |value| == 56 && InAlphabet(value) {
      BitsOfPackedBytes(CharBits(value));
      FirstByteIs(value, Decode(value).value);
    }
  }

  /** Byte 0x30 is the five bits of 'G' and the three leading zeros of 'A' to 'D'. */
  lemma FirstByteIs(value: seq<Byte>, decoded: seq<Byte>)
    requires |value| == 56 && InAlphabet(value) && |decoded| == 35
    requires ByteBits(decoded) == CharBits(value)[..8 * |decoded|]
    ensures decoded[0] == 0x30 <==> value[0] == 0x47 && 0x41 <= value[1] <= 0x44
  {
    hide CharBits, ByteBits, Digit, Bits5, Bits8, Val8;
    ByteBitsAt(decoded, 0);
    CharBitsAt(value, 0);
    CharBitsAt(value, 1);
    var r := CharBits(value);
    assert ByteBits(decoded)[0..8] == r[0..8];
    assert r[0..8] == r[0..5] + r[5..10][..3];
    var d, e := Digit(value[0]).value, Digit(value[1]).value;
    assert Bits8(decoded[0]) == Bits5(d) + Bits5(e)[..3];
    FirstEightBits(decoded[0], d, e);
    DigitOfG(value[0]);
    DigitsOfAToD(value[1]);
  }

  lemma FirstEightBits(b: Byte, d: Byte, e: Byte)
    requires d < 32 && e < 32 && Bits8(b) == Bits5(d) + Bits5(e)[..3]
    ensures b == 0x30 <==> d == 6 && e < 4
  {
    hide Bits5, Bits8, On;
    OctetBits(b);
    DigitBits(d);
    DigitBits(e);
    var r := Bits8(b);
    assert r[0] == Bits5(d)[0] && r[1] == Bits5(d)[1] && r[2] == Bits5(d)[2] && r[3] == Bits5(d)[3];
    assert r[4] == Bits5(d)[4] && r[5] == Bits5(e)[0] && r[6] == Bits5(e)[1] && r[7] == Bits5(e)[2];
    MasksOfVersion(b, d, e);
  }

  lemma OctetBits(b: Byte)
    ensures var r := Bits8(b);
            && r[0] == (b & 0x80 != 0) && r[1] == (b & 0x40 != 0) && r[2] == (b & 0x20 != 0) && r[3] == (b & 0x10 != 0)
            && r[4] == (b & 0x08 != 0) && r[5] == (b & 0x04 != 0) && r[6] == (b & 0x02 != 0) && r[7] == (b & 0x01 != 0)
  {
  }

  lemma DigitBits(d: Byte)
    ensures var r := Bits5(d);
            && r[0] == (d & 0x10 != 0) && r[1] == (d & 0x08 != 0) && r[2] == (d & 0x04 != 0) && r[3] == (d & 0x02 != 0)
            && r[4] == (d & 0x01 != 0)
  {
  }

  lemma MasksOfVersion(b: bv8, d: bv8, e: bv8)
    requires d < 32 && e < 32
    requires (b & 0x80 != 0) == (d & 0x10 != 0) && (b & 0x40 != 0) == (d & 0x08 != 0)
    requires (b & 0x20 != 0) == (d & 0x04 != 0) && (b & 0x10 != 0) == (d & 0x02 != 0)
    requires (b & 0x08 != 0) == (d & 0x01 != 0) && (b & 0x04 != 0) == (e & 0x10 != 0)
    requires (b & 0x02 != 0) == (e & 0x08 != 0) && (b & 0x01 != 0) == (e & 0x04 != 0)
    ensures b == 0x30 <==> d == 6 && e < 4
  {
  }

  lemma DigitOfG(c: Byte)
    requires Digit(c).Some?
    ensures Digit(c).value == 6 <==> c == 0x47
  {
  }

  lemma DigitsOfAToD(c: Byte)
    requires Digit(c).Some?
    ensures Digit(c).value < 4 <==> 0x41 <= c <= 0x44
  {
  }

  // ---------- one mistyped character ----------

  /** A change of character `i` leaves every bit outside its five unchanged. */
  lemma OtherBitsAgree(s: seq<Byte>, t: seq<Byte>, i: nat, p: nat)
    requires |s| == |t| && InAlphabet(s) && InAlphabet(t)
    requires forall k :: 0 <= k < |s| && k != i ==> s[k] == t[k]
    requires p < 5 * |s| && (p < 5 * i || 5 * i + 5 <= p)
    ensures CharBits(s)[p] == CharBits(t)[p]
  {
    hide CharBits, Bits5, Digit;
    var k := p / 5;
    CharBitsAt(s, k);
    CharBitsAt(t, k);
    assert CharBits(s)[p] == CharBits(s)[5 * k..5 * k + 5][p - 5 * k];
    assert CharBits(t)[p] == CharBits(t)[5 * k..5 * k + 5][p - 5 * k];
  }

  /** Bytes whose bits agree are equal. */
  lemma BytesAgree(a: seq<Byte>, b: seq<Byte>, j: nat)
    requires j < |a| == |b|
    requires forall p :: 8 * j <= p < 8 * j + 8 ==> ByteBits(a)[p] == ByteBits(b)[p]
    ensures a[j] == b[j]
  {
    hide ByteBits, Bits8, Val8;
    ByteBitsAt(a, j);
    ByteBitsAt(b, j);
    assert ByteBits(a)[8 * j..8 * j + 8] == ByteBits(b)[8 * j..8 * j + 8];
    Val8OfBits(a[j]);
    Val8OfBits(b[j]);
  }

  /** Bytes whose high four bits agree differ in their low nibble only. */
  lemma HighNibblesAgree(a: seq<Byte>, b: seq<Byte>, j: nat)
    requires j < |a| == |b|
    requires forall p :: 8 * j <= p < 8 * j + 4 ==> ByteBits(a)[p] == ByteBits(b)[p]
    ensures (a[j] ^ b[j]) & 0xF0 == 0
  {
    hide ByteBits, On;
    ByteBitsAt(a, j);
    ByteBitsAt(b, j);
    assert forall k :: 0 <= k < 4 ==> Bits8(a[j])[k] == ByteBits(a)[8 * j..8 * j + 8][k] == ByteBits(a)[8 * j + k];
    assert forall k :: 0 <= k < 4 ==> Bits8(b[j])[k] == ByteBits(b)[8 * j..8 * j + 8][k] == ByteBits(b)[8 * j + k];
    NibbleOfBits(a[j], b[j]);
  }

  lemma NibbleOfBits(a: Byte, b: Byte)
    requires Bits8(a)[0] == Bits8(b)[0] && Bits8(a)[1] == Bits8(b)[1]
    requires Bits8(a)[2] == Bits8(b)[2] && Bits8(a)[3] == Bits8(b)[3]
    ensures (a ^ b) & 0xF0 == 0
  {
    NibbleOfMasks(a, b);
  }

  lemma NibbleOfMasks(a: bv8, b: bv8)
    requires (a & 0x80 != 0) == (b & 0x80 != 0) && (a & 0x40 != 0) == (b & 0x40 != 0)
    requires (a & 0x20 != 0) == (b & 0x20 != 0) && (a & 0x10 != 0) == (b & 0x10 != 0)
    ensures (a ^ b) & 0xF0 == 0
  {
  }

  /** Equal checksum fields mean equal checksum bytes, and the second byte is the high one. */
  lemma ChecksumBytes(x: Word, y: Word, xl: Byte, xh: Byte, yl: Byte, yh: Byte)
    requires x == FromLittleEndian(xl, xh) && y == FromLittleEndian(yl, yh)
    ensures x == y ==> xl == yl && xh == yh
    ensures xh == yh ==> Plus(x, y) & 0xFF00 == 0
  {
    BytesOfWord(xl, xh);
    BytesOfWord(yl, yh);
    HighByteOfSum(xl, yl, xh);
  }

  lemma HighByteOfSum(xl: bv8, yl: bv8, h: bv8)
    ensures ((xl as bv16 | (h as bv16 << 8)) ^ (yl as bv16 | (h as bv16 << 8))) & 0xFF00 == 0
  {
  }

  /** The last two bytes are the checksum of the others. */
  predicate Checked(a: seq<Byte>) {
    |a| == 35 && Crc(a[..33]) == FromLittleEndian(a[33], a[34])
  }

  /** Two accepted decodings that agree except within two adjacent bytes are equal, wherever these lie. */
  lemma DecodingsAgree(a: seq<Byte>, b: seq<Byte>, j: nat)
    requires Checked(a) && Checked(b) && j < 35
    requires forall k :: 0 <= k < 35 && k != j && k != j + 1 ==> a[k] == b[k]
    requires j == 32 ==> (a[32] ^ b[32]) & 0xF0 == 0
    ensures a == b
  {
    hide Checked;
    if j < 32 {
      DataBytesAgree(a, b, j);
    } else if j == 32 {
      BoundaryBytesAgree(a, b);
    } else {
      ChecksumBytesAgree(a, b);
    }
  }

  lemma DataBytesAgree(a: seq<Byte>, b: seq<Byte>, j: nat)
    requires Checked(a) && Checked(b) && j < 32
    requires forall k :: 0 <= k < 35 && k != j && k != j + 1 ==> a[k] == b[k]
    ensures a == b
  {
    hide Crc, FromLittleEndian;
    BurstDetected(a[..33], b[..33], j);
    assert forall k :: 0 <= k < 33 ==> a[k] == a[..33][k] && b[k] == b[..33][k];
  }

  lemma BoundaryBytesAgree(a: seq<Byte>, b: seq<Byte>)
    requires Checked(a) && Checked(b) && (a[32] ^ b[32]) & 0xF0 == 0
    requires forall k :: 0 <= k < 35 && k != 32 && k != 33 ==> a[k] == b[k]
    ensures a == b
  {
    hide Crc, FromLittleEndian, Plus, Spread;
    ChecksumBytes(Crc(a[..33]), Crc(b[..33]), a[33], a[34], b[33], b[34]);
    assert a[..33][..32] == b[..33][..32];
    LastByteDetected(a[..33], b[..33]);
    NibbleReachesHighByte(a[32] ^ b[32]);
    XorZero(a[32], b[32]);
    assert a[..33] == b[..33];
  }

  lemma ChecksumBytesAgree(a: seq<Byte>, b: seq<Byte>)
    requires Checked(a) && Checked(b) && forall k :: 0 <= k < 33 ==> a[k] == b[k]
    ensures a == b
  {
    hide Crc, FromLittleEndian;
    assert a[..33] == b[..33];
    ChecksumBytes(Crc(a[..33]), Crc(b[..33]), a[33], a[34], b[33], b[34]);
  }

  /** Accepted keys that agree except at one character are the same key. */
  lemma NoTwoKeysOneCharacterApart(s: seq<Byte>, t: seq<Byte>, i: nat)
    requires IsPublicKey(s) && IsPublicKey(t) && i < 56
    requires forall k :: 0 <= k < 56 && k != i ==> s[k] == t[k]
    ensures s == t
  {
    hide Crc, CharBits, ByteBits, Decode, Digit, FromLittleEndian;
    BitsOfKey(s);
    BitsOfKey(t);
    var a, b := Decode(s).value, Decode(t).value;
    var j := 5 * i / 8;
    forall p | 0 <= p < 280 && (p < 5 * i || 5 * i + 5 <= p) ensures ByteBits(a)[p] == ByteBits(b)[p] {
      OtherBitsAgree(s, t, i, p);
    }
    forall k | 0 <= k < 35 && k != j && k != j + 1 ensures a[k] == b[k] {
      BytesAgree(a, b, k);
    }
    if j == 32 {
      HighNibblesAgree(a, b, 32);
    }
    DecodingsAgree(a, b, j);
    CharBitsInjective(s, t);
  }

  /**
   * Replacing the character at `i` of an accepted key by anything else, a character of any
   * encoded width or nothing at all, gives a string that is not accepted.
   */
  lemma MistypedKeyRejected(key: seq<Byte>, i: nat, typed: seq<Byte>)
    requires IsPublicKey(key) && i < |key| && typed != [key[i]]
    ensures !IsPublicKey(key[..i] + typed + key[i + 1..])
  {
    hide Decode, Crc;
    var other := key[..i] + typed + key[i + 1..];
    if IsPublicKey(other) {
      assert typed == [other[i]];
      NoTwoKeysOneCharacterApart(key, other, i);
    }
  }
}
