/**
 * `crc16_xmodem`: the checksum of a StrKey, polynomial 0x1021, initial value 0.
 *
 * Two independent readings are connected: the byte-wise register of the source, and the
 * remainder of the message, shifted up by sixteen places, after long division over GF(2)
 * by x^16 + x^12 + x^5 + 1.
 */
module Crc16 {
  import opened Base32

  type Word = bv16

  const POLYNOMIAL: Word := 0x1021

  // ---------- the register ----------

  /** One turn of the inner loop. */
  function Shift(crc: Word): Word {
    if crc & 0x8000 != 0 then Plus(Double(crc), POLYNOMIAL) else Double(crc)
  }

  function Shifts(crc: Word, n: nat): Word {
    if n == 0 then crc else Shift(Shifts(crc, n - 1))
  }

  /** Addition over GF(2), term by term. */
  function Plus(x: Word, y: Word): Word {
    x ^ y
  }

  function Double(x: Word): Word {
    x << 1
  }

  function InHighByte(b: Byte): Word {
    b as Word << 8
  }

  /** The incoming byte meets the high byte of the register. */
  function Mix(crc: Word, b: Byte): Word {
    Plus(crc, InHighByte(b))
  }

  function AbsorbByte(crc: Word, b: Byte): Word {
    Shifts(Mix(crc, b), 8)
  }

  /** The register after a byte string, starting from `crc`. */
  function CrcFrom(crc: Word, data: seq<Byte>): Word {
    if data == [] then crc else AbsorbByte(CrcFrom(crc, data[..|data| - 1]), data[|data| - 1])
  }

  function Crc(data: seq<Byte>): Word {
    CrcFrom(0, data)
  }

  method Crc16Xmodem(data: seq<Byte>) returns (crc: Word)
    ensures crc == Crc(data)
    ensures crc == Remainder(ByteBits(data))
  {
    hide Shift, Mix, Remainder;
    crc := 0;
    for i := 0 to |data|
      invariant crc == Crc(data[..i])
    {
      ghost var before := crc;
      crc := Mix(crc, data[i]);
      for k := 0 to 8
        invariant crc == Shifts(Mix(before, data[i]), k)
      {
        crc := Shift(crc);
      }
      assert data[..i + 1][..i] == data[..i];
    }
    assert data[..|data|] == data;
    CrcIsRemainder(data);
  }

  // ---------- linearity and injectivity ----------

  /** `Shift` without its branch: the bit that falls off returns at the divisor's low terms. */
  ghost function Branchless(x: Word): Word {
    Plus(Double(x), Returned(x >> 15))
  }

  ghost function Returned(top: Word): Word {
    (top << 12) ^ (top << 5) ^ top
  }

  lemma ShiftWithoutBranch(x: Word)
    ensures Shift(x) == Branchless(x)
  {
    if x & 0x8000 != 0 {
      TopBitSet(x);
    } else {
      TopBitClear(x);
    }
  }

  lemma TopBitSet(x: Word)
    requires x & 0x8000 != 0
    ensures x >> 15 == 1
  {
  }

  lemma TopBitClear(x: Word)
    requires x & 0x8000 == 0
    ensures x >> 15 == 0
  {
  }

  lemma DoubleIsLinear(x: Word, y: Word)
    ensures Double(Plus(x, y)) == Plus(Double(x), Double(y))
  {
  }

  lemma TopIsLinear(x: Word, y: Word)
    ensures Plus(x, y) >> 15 == Plus(x >> 15, y >> 15)
  {
  }

  lemma ReturnedIsLinear(t: Word, u: Word)
    requires t <= 1 && u <= 1
    ensures Returned(Plus(t, u)) == Plus(Returned(t), Returned(u))
  {
  }

  lemma TopIsABit(x: Word)
    ensures x >> 15 <= 1
  {
  }

  lemma PlusIsAssociative(x: Word, y: Word, z: Word)
    ensures Plus(Plus(x, y), z) == Plus(x, Plus(y, z))
  {
  }

  lemma PlusSwaps(x: Word, y: Word, z: Word)
    ensures Plus(Plus(x, y), z) == Plus(Plus(x, z), y)
  {
  }

  lemma PlusCancels(x: Word, y: Word, z: Word)
    requires Plus(x, z) == Plus(y, z)
    ensures x == y
  {
  }

  lemma PlusRegroups(a: Word, b: Word, c: Word, d: Word)
    ensures Plus(Plus(a, b), Plus(c, d)) == Plus(Plus(a, c), Plus(b, d))
  {
    hide Plus;
    PlusIsAssociative(Plus(a, b), c, d);
    PlusSwaps(a, b, c);
    PlusIsAssociative(Plus(a, c), b, d);
  }

  lemma BranchlessIsLinear(x: Word, y: Word)
    ensures Branchless(Plus(x, y)) == Plus(Branchless(x), Branchless(y))
  {
    hide Plus, Double, Returned;
    DoubleIsLinear(x, y);
    TopIsLinear(x, y);
    TopIsABit(x);
    TopIsABit(y);
    ReturnedIsLinear(x >> 15, y >> 15);
    PlusRegroups(Double(x), Double(y), Returned(x >> 15), Returned(y >> 15));
  }

  lemma ShiftIsLinear(x: Word, y: Word)
    ensures Shift(Plus(x, y)) == Plus(Shift(x), Shift(y))
  {
    hide Shift, Branchless, Plus;
    ShiftWithoutBranch(x);
    ShiftWithoutBranch(y);
    ShiftWithoutBranch(Plus(x, y));
    BranchlessIsLinear(x, y);
  }

  lemma LowBitIsTop(x: Word)
    ensures Branchless(x) & 1 == x >> 15
  {
    hide Plus, Double, Returned;
    TopIsABit(x);
    DoubleIsEven(x);
    LowBitOfSum(Double(x), x >> 15);
  }

  lemma DoubleIsEven(x: Word)
    ensures Double(x) & 1 == 0
  {
  }

  lemma LowBitOfSum(even: Word, t: Word)
    requires even & 1 == 0 && t <= 1
    ensures Plus(even, Returned(t)) & 1 == t
  {
  }

  lemma TopAndRest(x: Word, y: Word)
    requires x >> 15 == y >> 15 && Double(x) == Double(y)
    ensures x == y
  {
  }

  lemma ShiftIsInjective(x: Word, y: Word)
    requires Shift(x) == Shift(y)
    ensures x == y
  {
    hide Shift, Plus, Double, Returned;
    ShiftWithoutBranch(x);
    ShiftWithoutBranch(y);
    LowBitIsTop(x);
    LowBitIsTop(y);
    PlusCancels(Double(x), Double(y), Returned(x >> 15));
    TopAndRest(x, y);
  }

  lemma {:induction false} ShiftsAreLinear(x: Word, y: Word, n: nat)
    ensures Shifts(Plus(x, y), n) == Plus(Shifts(x, n), Shifts(y, n))
  {
    hide Shift, Plus;
    if n > 0 {
      ShiftsAreLinear(x, y, n - 1);
      ShiftIsLinear(Shifts(x, n - 1), Shifts(y, n - 1));
    }
  }

  lemma {:induction false} ShiftsAreInjective(x: Word, y: Word, n: nat)
    requires Shifts(x, n) == Shifts(y, n)
    ensures x == y
  {
    hide Shift;
    if n > 0 {
      ShiftIsInjective(Shifts(x, n - 1), Shifts(y, n - 1));
      ShiftsAreInjective(x, y, n - 1);
    }
  }

  lemma {:induction false} ShiftsCommute(x: Word, n: nat)
    ensures Shifts(Shift(x), n) == Shift(Shifts(x, n))
  {
    hide Shift;
    if n > 0 {
      ShiftsCommute(x, n - 1);
    }
  }

  /** Equal bytes after different registers leave different registers. */
  lemma {:induction false} CrcFromIsInjective(x: Word, y: Word, data: seq<Byte>)
    requires CrcFrom(x, data) == CrcFrom(y, data)
    ensures x == y
  {
    hide Shifts, Mix;
    if data != [] {
      var front, last := data[..|data| - 1], data[|data| - 1];
      ShiftsAreInjective(Mix(CrcFrom(x, front), last), Mix(CrcFrom(y, front), last), 8);
      MixIsInjective(CrcFrom(x, front), CrcFrom(y, front), last);
      CrcFromIsInjective(x, y, front);
    }
  }

  lemma MixIsInjective(x: Word, y: Word, b: Byte)
    requires Mix(x, b) == Mix(y, b)
    ensures x == y
  {
  }

  lemma {:induction false} CrcFromConcat(crc: Word, a: seq<Byte>, b: seq<Byte>)
    ensures CrcFrom(crc, a + b) == CrcFrom(CrcFrom(crc, a), b)
  {
    hide Shifts;
    if b == [] {
      assert a + b == a;
    } else {
      CrcFromConcat(crc, a, b[..|b| - 1]);
      assert (a + b)[..|a + b| - 1] == a + b[..|b| - 1];
    }
  }

  // ---------- bursts ----------

  /** How the register moves when one byte changes by `d`: d(x) x^16 reduced. */
  function Spread(d: Byte): Word {
    var t := d as Word ^ (d as Word >> 4);
    (t << 12) ^ (t << 5) ^ t
  }

  lemma SpreadIsShifts(d: Byte)
    ensures Shifts(InHighByte(d), 8) == Spread(d)
  {
    hide Shifts;
    UnfoldEight(InHighByte(d));
    EightShifts(InHighByte(d), d as Word);
  }

  lemma UnfoldEight(x: Word)
    ensures Shifts(x, 8) == Shift(Shift(Shift(Shift(Shift(Shift(Shift(Shift(x))))))))
  {
    hide Shift;
    assert Shifts(x, 2) == Shift(Shifts(x, 1)) && Shifts(x, 1) == Shift(x);
    assert Shifts(x, 4) == Shift(Shifts(x, 3)) && Shifts(x, 3) == Shift(Shifts(x, 2));
    assert Shifts(x, 6) == Shift(Shifts(x, 5)) && Shifts(x, 5) == Shift(Shifts(x, 4));
    assert Shifts(x, 8) == Shift(Shifts(x, 7)) && Shifts(x, 7) == Shift(Shifts(x, 6));
  }

  lemma EightShifts(x: Word, d: Word)
    requires d < 0x100 && x == d << 8
    ensures Shift(Shift(Shift(Shift(Shift(Shift(Shift(Shift(x)))))))) ==
      var t := d ^ (d >> 4); (t << 12) ^ (t << 5) ^ t
  {
  }

  lemma AbsorbDifference(crc: Word, a: Byte, b: Byte)
    ensures Plus(AbsorbByte(crc, a), AbsorbByte(crc, b)) == Spread(a ^ b)
  {
    hide Shifts, Spread, Mix, Plus, InHighByte;
    ShiftsAreLinear(Mix(crc, a), Mix(crc, b), 8);
    MixDifference(crc, a, b);
    SpreadIsShifts(a ^ b);
  }

  lemma MixDifference(crc: Word, a: Byte, b: Byte)
    ensures Plus(Mix(crc, a), Mix(crc, b)) == InHighByte(a ^ b)
  {
  }

  /** A change confined to one byte always reaches the low byte of the register. */
  lemma SpreadReachesLowByte(d: Byte)
    requires Spread(d) & 0xFF == 0
    ensures d == 0
  {
  }

  /** A change confined to a low nibble always reaches the high byte of the register. */
  lemma NibbleReachesHighByte(d: Byte)
    requires d & 0xF0 == 0 && Spread(d) & 0xFF00 == 0
    ensures d == 0
  {
  }

  /** From one register, two different byte pairs lead to two different registers. */
  lemma PairsSeparate(crc: Word, a0: Byte, a1: Byte, b0: Byte, b1: Byte)
    requires AbsorbByte(AbsorbByte(crc, a0), a1) == AbsorbByte(AbsorbByte(crc, b0), b1)
    ensures a0 == b0 && a1 == b1
  {
    hide Shifts, Spread, Mix, Plus;
    var x, y := AbsorbByte(crc, a0), AbsorbByte(crc, b0);
    ShiftsAreInjective(Mix(x, a1), Mix(y, b1), 8);
    LowBytesAgree(x, y, a1, b1);
    AbsorbDifference(crc, a0, b0);
    SpreadReachesLowByte(a0 ^ b0);
    XorZero(a0, b0);
    MixSeparates(x, a1, b1);
  }

  lemma LowBytesAgree(x: Word, y: Word, a: Byte, b: Byte)
    requires Mix(x, a) == Mix(y, b)
    ensures Plus(x, y) & 0xFF == 0
  {
  }

  lemma XorZero(a: Byte, b: Byte)
    requires a ^ b == 0
    ensures a == b
  {
  }

  lemma MixSeparates(x: Word, a: Byte, b: Byte)
    requires Mix(x, a) == Mix(x, b)
    ensures a == b
  {
  }

  /**
   * Messages of one length that agree outside bytes `j` and `j + 1` have different checksums
   * unless they are the same.
   */
  lemma BurstDetected(a: seq<Byte>, b: seq<Byte>, j: nat)
    requires |a| == |b| && j + 1 < |a|
    requires forall k :: 0 <= k < |a| && k != j && k != j + 1 ==> a[k] == b[k]
    ensures Crc(a) == Crc(b) <==> a == b
  {
    hide AbsorbByte, CrcFrom;
    if Crc(a) == Crc(b) {
      assert a[..j] == b[..j] && a[j + 2..] == b[j + 2..];
      var crc := Crc(a[..j]);
      CrcAround(a, j);
      CrcAround(b, j);
      CrcFromIsInjective(AbsorbByte(AbsorbByte(crc, a[j]), a[j + 1]),
                         AbsorbByte(AbsorbByte(crc, b[j]), b[j + 1]), a[j + 2..]);
      PairsSeparate(crc, a[j], a[j + 1], b[j], b[j + 1]);
    }
  }

  /** The checksum as seen from two adjacent bytes. */
  lemma CrcAround(a: seq<Byte>, j: nat)
    requires j + 1 < |a|
    ensures Crc(a) == CrcFrom(AbsorbByte(AbsorbByte(Crc(a[..j]), a[j]), a[j + 1]), a[j + 2..])
  {
    hide AbsorbByte, CrcFrom;
    var prefix, pair, suffix := a[..j], a[j..j + 2], a[j + 2..];
    assert a == prefix + (pair + suffix);
    CrcFromConcat(0, prefix, pair + suffix);
    CrcFromConcat(Crc(prefix), pair, suffix);
    CrcOfPair(Crc(prefix), pair);
  }

  lemma CrcOfPair(crc: Word, x: seq<Byte>)
    requires |x| == 2
    ensures CrcFrom(crc, x) == AbsorbByte(AbsorbByte(crc, x[0]), x[1])
  {
    hide AbsorbByte;
    assert x[..1][..0] == [];
    assert CrcFrom(crc, x[..1]) == AbsorbByte(crc, x[0]);
  }

  /** The same for messages that differ in their last byte only. */
  lemma LastByteDetected(a: seq<Byte>, b: seq<Byte>)
    requires |a| == |b| > 0 && a[..|a| - 1] == b[..|b| - 1]
    ensures Plus(Crc(a), Crc(b)) == Spread(a[|a| - 1] ^ b[|b| - 1])
  {
    hide AbsorbByte, Spread, Plus;
    AbsorbDifference(Crc(a[..|a| - 1]), a[|a| - 1], b[|b| - 1]);
  }

  // ---------- long division ----------

  /** Brings one more message bit down into the register and subtracts the divisor if it fits. */
  ghost function BringDown(r: Word, bit: bool): Word {
    var shifted := if bit then (r << 1) | 1 else r << 1;
    if r & 0x8000 != 0 then Plus(shifted, POLYNOMIAL) else shifted
  }

  ghost function Divide(r: Word, bits: Bits): Word
    decreases |bits|
  {
    if bits == [] then r else Divide(BringDown(r, bits[0]), bits[1..])
  }

  ghost function Zeros(n: nat): (z: Bits)
    ensures |z| == n
  {
    seq(n, _ => false)
  }

  /** The remainder of M(x) x^16 modulo x^16 + x^12 + x^5 + 1, most significant bit first. */
  ghost function Remainder(message: Bits): Word {
    Divide(0, message + Zeros(16))
  }

  /** The register fed one bit at a time. */
  ghost function Weight(bit: bool, w: Word): Word {
    if bit then w else 0
  }

  ghost function Feed(crc: Word, bit: bool): Word {
    Shift(Plus(crc, Weight(bit, 0x8000)))
  }

  ghost function FeedAll(crc: Word, bits: Bits): Word
    decreases |bits|
  {
    if bits == [] then crc else FeedAll(Feed(crc, bits[0]), bits[1..])
  }

  lemma BringDownIsShift(r: Word, bit: bool)
    ensures BringDown(r, bit) == Plus(Shift(r), Weight(bit, 1))
  {
    hide Plus;
    if bit {
      OrIsPlus(r);
    } else {
      NoChange(Shift(r));
    }
  }

  lemma OrIsPlus(r: Word)
    ensures (r << 1) | 1 == Plus(r << 1, 1)
    ensures Plus(Plus(r << 1, 1), POLYNOMIAL) == Plus(Plus(r << 1, POLYNOMIAL), 1)
  {
    hide Plus;
    LowBitFree(r);
    PlusSwaps(r << 1, 1, POLYNOMIAL);
  }

  lemma LowBitFree(r: Word)
    ensures (r << 1) | 1 == Plus(r << 1, 1)
  {
  }

  lemma {:induction false} DivideZeros(r: Word, n: nat)
    ensures Divide(r, Zeros(n)) == Shifts(r, n)
    decreases n
  {
    hide Shift, BringDown, Plus;
    if n > 0 {
      BringDownIsShift(r, false);
      NoChange(Shift(r));
      assert Zeros(n)[1..] == Zeros(n - 1);
      DivideZeros(Shift(r), n - 1);
      ShiftsCommute(r, n - 1);
    }
  }

  lemma NoChange(x: Word)
    ensures Plus(x, 0) == x
  {
  }

  /** x^16 reduces to the low terms of the divisor. */
  lemma SixteenShiftsOfOne()
    ensures Shifts(1, 16) == POLYNOMIAL && Shifts(0, 16) == 0
  {
    assert Shifts(1, 4) == 0x10 && Shifts(0, 4) == 0;
    assert Shifts(1, 8) == 0x100 && Shifts(0, 8) == 0;
    assert Shifts(1, 12) == 0x1000 && Shifts(0, 12) == 0;
    assert Shifts(1, 15) == 0x8000 && Shifts(0, 15) == 0;
  }

  /** A bit brought down sixteen places early is a bit fed at the top. */
  lemma BringDownThenShift(r: Word, bit: bool)
    ensures Shifts(BringDown(r, bit), 16) == Feed(Shifts(r, 16), bit)
  {
    hide Shift, BringDown, Shifts, Plus;
    BringDownIsShift(r, bit);
    ShiftsAreLinear(Shift(r), Weight(bit, 1), 16);
    ShiftsCommute(r, 16);
    SixteenShiftsOfOne();
    ShiftIsLinear(Shifts(r, 16), Weight(bit, 0x8000));
    ShiftOfTop();
  }

  lemma ShiftOfTop()
    ensures Shift(0x8000) == POLYNOMIAL && Shift(0) == 0
  {
  }

  lemma {:induction false} DivideIsFeed(r: Word, bits: Bits)
    ensures Divide(r, bits + Zeros(16)) == FeedAll(Shifts(r, 16), bits)
    decreases |bits|
  {
    hide Shifts, BringDown, Feed;
    if bits == [] {
      assert bits + Zeros(16) == Zeros(16);
      DivideZeros(r, 16);
    } else {
      assert (bits + Zeros(16))[1..] == bits[1..] + Zeros(16);
      DivideIsFeed(BringDown(r, bits[0]), bits[1..]);
      BringDownThenShift(r, bits[0]);
    }
  }

  lemma {:induction false} FeedAllConcat(crc: Word, a: Bits, b: Bits)
    ensures FeedAll(crc, a + b) == FeedAll(FeedAll(crc, a), b)
    decreases |a|
  {
    hide Feed;
    if a == [] {
      assert a + b == b;
    } else {
      assert (a + b)[1..] == a[1..] + b;
      FeedAllConcat(Feed(crc, a[0]), a[1..], b);
    }
  }

  predicate Bit(w: Word, mask: Word) {
    w & mask != 0
  }

  /** The register fed the top bits of `w`, one at a time. */
  ghost function FeedTop(crc: Word, w: Word, n: nat): Word
    decreases n
  {
    if n == 0 then crc else FeedTop(Feed(crc, Bit(w, 0x8000)), Double(w), n - 1)
  }

  /** Only the top `n` bits of `w` are in use. */
  ghost predicate EmptyAfter(w: Word, n: nat)
    decreases n
  {
    if n == 0 then w == 0 else EmptyAfter(Double(w), n - 1)
  }

  /** `bits` are the top bits of `w`. */
  ghost predicate Reads(w: Word, bits: Bits)
    decreases |bits|
  {
    bits == [] || (bits[0] == Bit(w, 0x8000) && Reads(Double(w), bits[1..]))
  }

  lemma ShiftTopOff(crc: Word, w: Word)
    ensures Shift(Plus(crc, w)) == Plus(Feed(crc, Bit(w, 0x8000)), Double(w))
  {
    hide Shift, Plus;
    var top := Weight(Bit(w, 0x8000), 0x8000);
    SplitTop(crc, w, top);
    ShiftIsLinear(Plus(crc, top), w & 0x7FFF);
    ShiftLow(w);
  }

  lemma SplitTop(crc: Word, w: Word, top: Word)
    requires top == Weight(Bit(w, 0x8000), 0x8000)
    ensures Plus(crc, w) == Plus(Plus(crc, top), w & 0x7FFF)
  {
    hide Plus, Weight;
    TopIsMask(w);
    SplitWord(w);
    PlusIsAssociative(crc, w & 0x8000, w & 0x7FFF);
  }

  lemma SplitWord(w: Word)
    ensures w == Plus(w & 0x8000, w & 0x7FFF)
  {
  }

  lemma TopIsMask(w: Word)
    ensures Weight(Bit(w, 0x8000), 0x8000) == w & 0x8000
  {
  }

  lemma ShiftLow(w: Word)
    ensures Shift(w & 0x7FFF) == Double(w)
  {
  }

  /** Mixing a whole block in at once is feeding it bit by bit. */
  lemma {:induction false} FeedTopIsShifts(crc: Word, w: Word, n: nat)
    requires EmptyAfter(w, n)
    ensures FeedTop(crc, w, n) == Shifts(Plus(crc, w), n)
    decreases n
  {
    hide Shift, Feed, Plus;
    if n == 0 {
      NoChange(crc);
    } else {
      FeedTopIsShifts(Feed(crc, Bit(w, 0x8000)), Double(w), n - 1);
      ShiftTopOff(crc, w);
      ShiftsCommute(Plus(crc, w), n - 1);
    }
  }

  lemma {:induction false} FeedAllIsFeedTop(crc: Word, w: Word, bits: Bits)
    requires Reads(w, bits)
    ensures FeedAll(crc, bits) == FeedTop(crc, w, |bits|)
    decreases |bits|
  {
    hide Feed;
    if bits != [] {
      FeedAllIsFeedTop(Feed(crc, bits[0]), Double(w), bits[1..]);
    }
  }

  /** One step of reading: what is left after the top bit is read is the word doubled. */
  lemma ReadsStep(w: Word, w': Word, bits: Bits, k: nat, n: nat)
    requires k < |bits| && w' == Double(w) && bits[k] == Bit(w, 0x8000)
    requires Reads(w', bits[k + 1..]) && EmptyAfter(w', n)
    ensures Reads(w, bits[k..]) && EmptyAfter(w, n + 1)
  {
    assert bits[k..][1..] == bits[k + 1..];
  }

  /** Doubling a byte's word brings its bits to the top one after another. */
  lemma BitsComeToTheTop(b: bv8, w0: bv16, w1: bv16, w2: bv16, w3: bv16, w4: bv16, w5: bv16, w6: bv16, w7: bv16)
    requires w0 == b as bv16 << 8 && w1 == w0 << 1 && w2 == w1 << 1 && w3 == w2 << 1
    requires w4 == w3 << 1 && w5 == w4 << 1 && w6 == w5 << 1 && w7 == w6 << 1
    ensures (b & 0x80 != 0) == (w0 & 0x8000 != 0) && (b & 0x40 != 0) == (w1 & 0x8000 != 0)
    ensures (b & 0x20 != 0) == (w2 & 0x8000 != 0) && (b & 0x10 != 0) == (w3 & 0x8000 != 0)
    ensures (b & 0x08 != 0) == (w4 & 0x8000 != 0) && (b & 0x04 != 0) == (w5 & 0x8000 != 0)
    ensures (b & 0x02 != 0) == (w6 & 0x8000 != 0) && (b & 0x01 != 0) == (w7 & 0x8000 != 0)
    ensures w7 << 1 == 0
  {
  }

  /** The words a byte's word doubles to. */
  ghost function Doubled(w: Word, n: nat): Word {
    if n == 0 then w else Double(Doubled(w, n - 1))
  }

  lemma DoubledOnce(w: Word, n: nat)
    ensures Doubled(w, 0) == w && Doubled(w, n + 1) == Doubled(w, n) << 1
  {
  }

  lemma DoubledTopIsBit(b: Byte)
    ensures forall k :: 0 <= k < 8 ==> Bits8(b)[k] == Bit(Doubled(InHighByte(b), k), 0x8000)
    ensures Doubled(InHighByte(b), 8) == 0
  {
    hide Doubled;
    var w := InHighByte(b);
    DoubledOnce(w, 0);
    DoubledOnce(w, 1);
    DoubledOnce(w, 2);
    DoubledOnce(w, 3);
    DoubledOnce(w, 4);
    DoubledOnce(w, 5);
    DoubledOnce(w, 6);
    DoubledOnce(w, 7);
    BitsComeToTheTop(b, w, Doubled(w, 1), Doubled(w, 2), Doubled(w, 3),
                     Doubled(w, 4), Doubled(w, 5), Doubled(w, 6), Doubled(w, 7));
  }

  lemma {:induction false} ReadsFrom(w: Word, bits: Bits, k: nat)
    requires k <= |bits| && Doubled(w, |bits|) == 0
    requires forall i :: 0 <= i < |bits| ==> bits[i] == Bit(Doubled(w, i), 0x8000)
    ensures Reads(Doubled(w, k), bits[k..]) && EmptyAfter(Doubled(w, k), |bits| - k)
    decreases |bits| - k
  {
    hide Bit, Double;
    if k < |bits| {
      ReadsFrom(w, bits, k + 1);
      ReadsStep(Doubled(w, k), Doubled(w, k + 1), bits, k, |bits| - k - 1);
    }
  }

  /** The eight bits of a byte, read off the high byte of a word. */
  lemma ByteReads(b: Byte)
    ensures Reads(InHighByte(b), Bits8(b)) && EmptyAfter(InHighByte(b), 8)
  {
    hide InHighByte, Double, Bit, Bits8;
    DoubledTopIsBit(b);
    ReadsFrom(InHighByte(b), Bits8(b), 0);
    assert Bits8(b)[0..] == Bits8(b);
  }

  lemma AbsorbIsFeed(crc: Word, b: Byte)
    ensures AbsorbByte(crc, b) == FeedAll(crc, Bits8(b))
  {
    hide Shifts, Bits8, Reads, EmptyAfter, FeedAll, Plus, InHighByte;
    ByteReads(b);
    FeedTopIsShifts(crc, InHighByte(b), 8);
    FeedAllIsFeedTop(crc, InHighByte(b), Bits8(b));
  }

  lemma {:induction false} CrcIsFeed(data: seq<Byte>)
    ensures Crc(data) == FeedAll(0, ByteBits(data))
  {
    hide AbsorbByte, Feed, Bits8;
    if data != [] {
      var front, last := data[..|data| - 1], data[|data| - 1];
      CrcIsFeed(front);
      FeedAllConcat(0, ByteBits(front), Bits8(last));
      AbsorbIsFeed(Crc(front), last);
    }
  }

  /** The checksum is the remainder of the message. */
  lemma CrcIsRemainder(data: seq<Byte>)
    ensures Crc(data) == Remainder(ByteBits(data))
  {
    hide Crc, FeedAll, Divide, Shifts;
    CrcIsFeed(data);
    SixteenShiftsOfOne();
    DivideIsFeed(0, ByteBits(data));
  }
}
