/**
 * SHA-256 as FIPS 180-4 defines it: the functions of section 4.1.2, the constants of
 * sections 4.2.2 and 5.3.3, the padding of section 5.1.1 and the computation of section 6.2.
 * Messages are byte strings, so the bit lengths of the standard are multiples of eight.
 */
module Fips180 {
  import Octets

  type Byte = bv8
  type Word = bv32

  /** The eight words of a hash value, and the eight working variables. */
  datatype Words = Words(a: Word, b: Word, c: Word, d: Word, e: Word, f: Word, g: Word, h: Word)

  // ---------- section 4.1.2 ----------

  function Ch(x: Word, y: Word, z: Word): Word { (x & y) ^ (!x & z) }
  function Maj(x: Word, y: Word, z: Word): Word { (x & y) ^ (x & z) ^ (y & z) }
  /** Addition modulo 2^32, of two, four and five words. */
  function Add(x: Word, y: Word): Word { x + y }
  function Sum4(x: Word, y: Word, z: Word, u: Word): Word { x + y + z + u }
  function Sum5(x: Word, y: Word, z: Word, u: Word, v: Word): Word { x + y + z + u + v }

  function Xor3(x: Word, y: Word, z: Word): Word { x ^ y ^ z }
  function BigSigma0(x: Word): Word { Xor3(x.RotateRight(2), x.RotateRight(13), x.RotateRight(22)) }
  function BigSigma1(x: Word): Word { Xor3(x.RotateRight(6), x.RotateRight(11), x.RotateRight(25)) }
  function SmallSigma0(x: Word): Word { Xor3(x.RotateRight(7), x.RotateRight(18), x >> 3) }
  function SmallSigma1(x: Word): Word { Xor3(x.RotateRight(17), x.RotateRight(19), x >> 10) }

  /** In their other usual forms: a bit of `x` picks from `y` or `z`; two of three bits agree. */
  lemma ChoiceAndMajority(x: Word, y: Word, z: Word)
    ensures Ch(x, y, z) == (x & y) | (!x & z)
    ensures Maj(x, y, z) == (x & (y | z)) | (y & z)
  {
    assert (x & y) ^ (!x & z) == (x & y) | (!x & z);
    assert (x & y) ^ (x & z) ^ (y & z) == (x & (y | z)) | (y & z);
  }

  // ---------- sections 4.2.2 and 5.3.3 ----------

  /** The round constants, one row of eight at a time. */
  function K(t: nat): Word
    requires t < 64
  {
    var row, column := t / 8, t % 8;
    if row == 0 then Pick(column, 0x428a2f98, 0x71374491, 0xb5c0fbcf, 0xe9b5dba5,
                          0x3956c25b, 0x59f111f1, 0x923f82a4, 0xab1c5ed5)
    else if row == 1 then Pick(column, 0xd807aa98, 0x12835b01, 0x243185be, 0x550c7dc3,
                               0x72be5d74, 0x80deb1fe, 0x9bdc06a7, 0xc19bf174)
    else if row == 2 then Pick(column, 0xe49b69c1, 0xefbe4786, 0x0fc19dc6, 0x240ca1cc,
                               0x2de92c6f, 0x4a7484aa, 0x5cb0a9dc, 0x76f988da)
    else if row == 3 then Pick(column, 0x983e5152, 0xa831c66d, 0xb00327c8, 0xbf597fc7,
                               0xc6e00bf3, 0xd5a79147, 0x06ca6351, 0x14292967)
    else if row == 4 then Pick(column, 0x27b70a85, 0x2e1b2138, 0x4d2c6dfc, 0x53380d13,
                               0x650a7354, 0x766a0abb, 0x81c2c92e, 0x92722c85)
    else if row == 5 then Pick(column, 0xa2bfe8a1, 0xa81a664b, 0xc24b8b70, 0xc76c51a3,
                               0xd192e819, 0xd6990624, 0xf40e3585, 0x106aa070)
    else if row == 6 then Pick(column, 0x19a4c116, 0x1e376c08, 0x2748774c, 0x34b0bcb5,
                               0x391c0cb3, 0x4ed8aa4a, 0x5b9cca4f, 0x682e6ff3)
    else Pick(column, 0x748f82ee, 0x78a5636f, 0x84c87814, 0x8cc70208, 0x90befffa, 0xa4506ceb, 0xbef9a3f7, 0xc67178f2)
  }

  function Pick(i: nat, x0: Word, x1: Word, x2: Word, x3: Word, x4: Word, x5: Word, x6: Word, x7: Word): Word
    requires i < 8
  {
    if i == 0 then x0 else if i == 1 then x1 else if i == 2 then x2 else if i == 3 then x3
    else if i == 4 then x4 else if i == 5 then x5 else if i == 6 then x6 else x7
  }

  const INITIAL: Words := Words(0x6a09e667, 0xbb67ae85, 0x3c6ef372, 0xa54ff53a,
                                0x510e527f, 0x9b05688c, 0x1f83d9ab, 0x5be0cd19)

  // ---------- section 5.1.1 ----------

  /** Byte `k`, from the right, of the base-256 notation of `n`. */
  function ByteOf(n: nat, k: nat): Byte
    requires k < 8
  {
    ((n / Radix(k)) % 0x100) as Byte
  }

  function Radix(k: nat): (r: nat)
    requires k < 8
    ensures r > 0
  {
    if k == 0 then 0x1 else if k == 1 then 0x100 else if k == 2 then 0x1_0000 else if k == 3 then 0x100_0000
    else if k == 4 then 0x1_0000_0000 else if k == 5 then 0x100_0000_0000
    else if k == 6 then 0x1_0000_0000_0000 else 0x100_0000_0000_0000
  }

  function LengthBlock(bits: nat): (r: seq<Byte>)
    ensures |r| == 8
  {
    seq(8, i requires 0 <= i < 8 => ByteOf(bits, 7 - i))
  }

  /** The zero bytes between the final 1 bit and the length: as few as bring the length to 56 modulo 64. */
  function ZeroBytes(n: nat): nat {
    (55 - n % 64) % 64
  }

  function Pad(message: seq<Byte>): (padded: seq<Byte>)
    ensures |padded| == |message| + 9 + ZeroBytes(|message|)
  {
    message + [0x80] + seq(ZeroBytes(|message|), _ => 0) + LengthBlock(8 * |message|)
  }

  /** The padded length is the least multiple of 64 that leaves room for nine more bytes. */
  lemma PaddedLengthIsLeast(message: seq<Byte>, other: nat)
    requires other % 64 == 0 && |message| + 9 <= other
    ensures |Pad(message)| % 64 == 0 && |message| + 9 <= |Pad(message)| <= other
  {
    var n, r := |message| / 64, |message| % 64;
    assert |message| == 64 * n + r;
    assert other == 64 * (other / 64);
  }

  /** Dropping the last base-256 digit and reading the rest are two ways to write one number. */
  lemma DigitsBelow(n: nat, m: nat, radix: nat)
    requires radix > 0 && n / (radix * 0x100) == m / (radix * 0x100)
    requires (n / radix) % 0x100 == (m / radix) % 0x100
    ensures n / radix == m / radix
  {
    DivideTwice(n, radix);
    DivideTwice(m, radix);
  }

  lemma DivideTwice(n: nat, radix: nat)
    requires radix > 0
    ensures n / (radix * 0x100) == (n / radix) / 0x100
  {
    var q, r := n / radix, n % radix;
    var h, d := q / 0x100, q % 0x100;
    assert n == radix * q + r && q == 0x100 * h + d;
    Regroup(radix, h, d);
    QuotientOf(n, radix * 0x100, h, radix * d + r, radix, d);
  }

  lemma Regroup(radix: nat, h: nat, d: nat)
    ensures radix * (0x100 * h + d) == (radix * 0x100) * h + radix * d
  {
  }

  lemma QuotientOf(n: nat, divisor: nat, h: nat, rest: nat, radix: nat, d: nat)
    requires radix > 0 && divisor == radix * 0x100 && n == divisor * h + rest
    requires d < 0x100 && rest < radix * d + radix
    ensures n / divisor == h
  {
    assert rest < divisor by {
      assert radix * d + radix == radix * (d + 1);
      assert radix * (d + 1) <= radix * 0x100;
    }
    UniqueQuotient(n, divisor, h, rest);
  }

  lemma UniqueQuotient(n: nat, divisor: nat, h: nat, rest: nat)
    requires divisor > 0 && n == divisor * h + rest && rest < divisor
    ensures n / divisor == h
  {
    var q := n / divisor;
    assert q < h ==> divisor * (q + 1) <= divisor * h;
    assert h < q ==> divisor * (h + 1) <= divisor * q;
  }

  /** Eight base-256 digits determine a number below 2^64. */
  lemma LengthBlockIsInjective(n: nat, m: nat)
    requires n < 0x1_0000_0000_0000_0000 && m < 0x1_0000_0000_0000_0000 && LengthBlock(n) == LengthBlock(m)
    ensures n == m
  {
    hide ByteOf;
    forall k: nat | k < 8 ensures ByteOf(n, k) == ByteOf(m, k) {
      assert LengthBlock(n)[7 - k] == LengthBlock(m)[7 - k];
    }
    hide LengthBlock;
    SameDigit(n, m, 7);
    DigitsBelow(n, m, Radix(7));
    SameDigit(n, m, 6);
    DigitsBelow(n, m, Radix(6));
    SameDigit(n, m, 5);
    DigitsBelow(n, m, Radix(5));
    SameDigit(n, m, 4);
    DigitsBelow(n, m, Radix(4));
    SameDigit(n, m, 3);
    DigitsBelow(n, m, Radix(3));
    SameDigit(n, m, 2);
    DigitsBelow(n, m, Radix(2));
    SameDigit(n, m, 1);
    DigitsBelow(n, m, Radix(1));
    SameDigit(n, m, 0);
    DigitsBelow(n, m, Radix(0));
  }

  lemma SameDigit(n: nat, m: nat, k: nat)
    requires k < 8 && ByteOf(n, k) == ByteOf(m, k)
    ensures (n / Radix(k)) % 0x100 == (m / Radix(k)) % 0x100
  {
    hide Radix;
    Octets.OctetRoundTrip((n / Radix(k)) % 0x100);
    Octets.OctetRoundTrip((m / Radix(k)) % 0x100);
  }

  /** A message can be read back from its padding: messages whose bit length fits the length block never pad alike. */
  lemma PadIsInjective(x: seq<Byte>, y: seq<Byte>)
    requires 8 * |x| < 0x1_0000_0000_0000_0000 && 8 * |y| < 0x1_0000_0000_0000_0000
    requires Pad(x) == Pad(y)
    ensures x == y
  {
    hide LengthBlock;
    var n := |Pad(x)|;
    assert Pad(x)[n - 8..] == LengthBlock(8 * |x|);
    assert Pad(y)[n - 8..] == LengthBlock(8 * |y|);
    LengthBlockIsInjective(8 * |x|, 8 * |y|);
    assert Pad(x)[..|x|] == x && Pad(y)[..|y|] == y;
  }

  // ---------- section 6.2 ----------

  /** Four bytes, most significant first. */
  function WordOfBytes(b0: Byte, b1: Byte, b2: Byte, b3: Byte): Word {
    (b0 as Word << 24) | (b1 as Word << 16) | (b2 as Word << 8) | b3 as Word
  }

  /** The bytes of a word can be read back, most significant first. */
  lemma BytesOfWordOfBytes(b0: Byte, b1: Byte, b2: Byte, b3: Byte)
    ensures var w := WordOfBytes(b0, b1, b2, b3);
            && (w >> 24) as Byte == b0 && ((w >> 16) & 0xFF) as Byte == b1
            && ((w >> 8) & 0xFF) as Byte == b2 && (w & 0xFF) as Byte == b3
  {
  }

  /** The message schedule of one 64-byte block. */
  function Schedule(block: seq<Byte>, t: nat): Word
    requires |block| == 64 && t < 64
  {
    if t < 16 then WordOfBytes(block[4 * t], block[4 * t + 1], block[4 * t + 2], block[4 * t + 3])
    else Sum4(SmallSigma1(Schedule(block, t - 2)), Schedule(block, t - 7),
              SmallSigma0(Schedule(block, t - 15)), Schedule(block, t - 16))
  }

  /** One round. */
  function Round(v: Words, k: Word, w: Word): Words {
    var t1 := Sum5(v.h, BigSigma1(v.e), Ch(v.e, v.f, v.g), k, w);
    var t2 := Add(BigSigma0(v.a), Maj(v.a, v.b, v.c));
    Words(Add(t1, t2), v.a, v.b, v.c, Add(v.d, t1), v.e, v.f, v.g)
  }

  /** The working variables after `t` rounds. */
  function Rounds(v: Words, block: seq<Byte>, t: nat): Words
    requires |block| == 64 && t <= 64
  {
    if t == 0 then v else Round(Rounds(v, block, t - 1), K(t - 1), Schedule(block, t - 1))
  }

  function AddWords(v: Words, w: Words): Words {
    Words(Add(v.a, w.a), Add(v.b, w.b), Add(v.c, w.c), Add(v.d, w.d),
          Add(v.e, w.e), Add(v.f, w.f), Add(v.g, w.g), Add(v.h, w.h))
  }

  function Compress(hash: Words, block: seq<Byte>): Words
    requires |block| == 64
  {
    AddWords(Rounds(hash, block, 64), hash)
  }

  /** The intermediate hash value after `n` blocks. */
  function HashOf(padded: seq<Byte>, n: nat): Words
    requires 64 * n <= |padded|
  {
    if n == 0 then INITIAL else Compress(HashOf(padded, n - 1), padded[64 * (n - 1)..64 * n])
  }

  function Digest(message: seq<Byte>): Words {
    var padded := Pad(message);
    HashOf(padded, |padded| / 64)
  }
}
