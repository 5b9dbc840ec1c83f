/** crc16 of drivers/RS485.c:28-54, the CRC of section 6.2.2 of the MODBUS over Serial Line Specification
    and Implementation Guide V1.02. */
module Crc {
  import opened CrcRegister

  type Byte = bv8

  /** The low n bits of w, lowest first. */
  function BitsOf(w: Word, n: nat): (r: seq<bool>)
    ensures |r| == n
  {
    if n == 0 then [] else [Odd(w)] + BitsOf(Half(w), n - 1)
  }

  function Widen(b: Byte): Word { b as Word }

  /** The message bits in the order in which the register meets them. */
  function Stream(msg: seq<Byte>): (r: seq<bool>)
    ensures |r| == 8 * |msg|
  {
    if msg == [] then [] else BitsOf(Widen(msg[0]), 8) + Stream(msg[1..])
  }

  lemma {:induction false} PackBits(w: Word, n: nat)
    requires n <= 16 && Meet(w, High(n)) == 0
    ensures Pack(BitsOf(w, n)) == w
    decreases n
  {
    hide Xor, Shift, Meet, High, Half, Odd;
    if n == 0 {
      HighNone(w);
    } else {
      HighStep(n);
      HalfLow(w, High(n - 1));
      SplitWord(w);
      PackBits(Half(w), n - 1);
    }
  }

  lemma HighStep(n: nat)
    requires n > 0
    ensures High(n) == Shift(High(n - 1))
  {
  }

  lemma HighNone(w: Word)
    requires Meet(w, High(0)) == 0
    ensures w == 0
  {
  }

  lemma HalfLow(w: Word, h: Word)
    requires Meet(w, Shift(h)) == 0
    ensures Meet(Half(w), h) == 0
  {
  }

  lemma SplitWord(w: Word)
    ensures Xor(Unit(Odd(w)), Shift(Half(w))) == w
  {
  }

  /** One byte through the inner loop: eight turns. */
  function Turns(c: Word, n: nat): Word
    decreases n
  {
    if n == 0 then c else Turns(Step(c), n - 1)
  }

  /** The outer loop. */
  function Crc(c: Word, msg: seq<Byte>): Word
    decreases |msg|
  {
    if msg == [] then c else Crc(Turns(Xor(c, Widen(msg[0])), 8), msg[1..])
  }

  lemma {:induction false} TurnsFeed(c: Word, n: nat)
    ensures Turns(c, n) == Feed(c, Zeros(n))
    decreases n
  {
    hide Step, Xor;
    if n > 0 {
      assert Zeros(n)[1..] == Zeros(n - 1);
      XorLaws(c, 0, 0, 0);
      TurnsFeed(Step(c), n - 1);
    }
  }

  lemma ByteLow(b: Byte)
    ensures Meet(Widen(b), 0xFF00) == 0
  {
  }

  lemma High8()
    ensures High(8) == 0xFF00
  {
    assert High(3) == 0xFFF8 by { assert High(1) == 0xFFFE; }
    assert High(6) == 0xFFC0 by { assert High(4) == 0xFFF0; assert High(5) == 0xFFE0; }
    assert High(7) == 0xFF80;
  }

  /** The byte loop feeds the message bits. */
  lemma {:induction false} CrcIsFeed(c: Word, msg: seq<Byte>)
    ensures Crc(c, msg) == Feed(c, Stream(msg))
    decreases |msg|
  {
    hide Step, Xor, Meet, Widen, High, BitsOf;
    if msg != [] {
      var b := Widen(msg[0]);
      ByteLow(msg[0]);
      High8();
      PackBits(b, 8);
      FeedPacked(c, BitsOf(b, 8));
      TurnsFeed(Xor(c, b), 8);
      FeedConcat(c, BitsOf(b, 8), Stream(msg[1..]));
      CrcIsFeed(Turns(Xor(c, b), 8), msg[1..]);
    }
  }

  // ---------- What the receiver relies on ----------

  lemma {:induction false} StreamConcat(a: seq<Byte>, b: seq<Byte>)
    ensures Stream(a + b) == Stream(a) + Stream(b)
  {
    if a == [] {
      assert a + b == b;
    } else {
      assert (a + b)[1..] == a[1..] + b;
      StreamConcat(a[1..], b);
    }
  }

  function Low(c: Word): Byte { (c & 0xFF) as Byte }
  function HighByte(c: Word): Byte { ((c >> 8) & 0xFF) as Byte }

  function ShiftDown(w: Word, n: nat): Word { if n == 0 then w else ShiftDown(Half(w), n - 1) }

  lemma {:induction false} BitsAppend(w: Word, n: nat, m: nat)
    ensures BitsOf(w, n) + BitsOf(ShiftDown(w, n), m) == BitsOf(w, n + m)
    decreases n
  {
    hide Half, Odd;
    if n > 0 {
      BitsAppend(Half(w), n - 1, m);
      assert [Odd(w)] + BitsOf(Half(w), n - 1) + BitsOf(ShiftDown(w, n), m) == [Odd(w)] + (BitsOf(Half(w), n - 1) + BitsOf(ShiftDown(w, n), m));
    } else {
      assert [] + BitsOf(w, m) == BitsOf(w, m);
    }
  }

  function Mask(n: nat): Word { if n == 0 then 0 else Xor(1, Shift(Mask(n - 1))) }

  lemma {:induction false} SameLow(w: Word, v: Word, n: nat)
    requires Meet(Xor(w, v), Mask(n)) == 0
    ensures BitsOf(w, n) == BitsOf(v, n)
    decreases n
  {
    hide Xor, Shift, Meet, Half, Odd;
    if n > 0 {
      LowestSame(w, v, Mask(n - 1));
      SameLow(Half(w), Half(v), n - 1);
    }
  }

  lemma LowestSame(w: Word, v: Word, m: Word)
    requires Meet(Xor(w, v), Xor(1, Shift(m))) == 0
    ensures (Odd(w) <==> Odd(v)) && Meet(Xor(Half(w), Half(v)), m) == 0
  {
    hide Meet, Xor, Shift, Half, Odd;
    HalfXor(w, v);
    OddXor(w, v);
    MaskOdd(Xor(w, v), m);
    MaskHalf(Xor(w, v), m);
  }

  lemma MaskOdd(d: Word, m: Word)
    requires Meet(d, Xor(1, Shift(m))) == 0
    ensures !Odd(d)
  {
  }

  lemma MaskHalf(d: Word, m: Word)
    requires Meet(d, Xor(1, Shift(m))) == 0
    ensures Meet(Half(d), m) == 0
  {
  }

  lemma Mask8()
    ensures Mask(8) == 0xFF
  {
    assert Mask(3) == 7 by { assert Mask(1) == 1; assert Mask(2) == 3; }
    assert Mask(6) == 63 by { assert Mask(4) == 15; assert Mask(5) == 31; }
    assert Mask(7) == 127;
  }

  lemma ShiftDown8(c: Word)
    ensures ShiftDown(c, 8) == c >> 8
  {
    hide Half;
    var c1 := Half(c);
    var c2 := Half(c1);
    var c3 := Half(c2);
    var c4 := Half(c3);
    var c5 := Half(c4);
    var c6 := Half(c5);
    var c7 := Half(c6);
    assert ShiftDown(c7, 1) == Half(c7);
    assert ShiftDown(c5, 3) == Half(c7);
    assert ShiftDown(c3, 5) == Half(c7);
    assert ShiftDown(c1, 7) == Half(c7);
    EightHalves(c);
  }

  lemma EightHalves(c: Word)
    ensures Half(Half(Half(Half(Half(Half(Half(Half(c)))))))) == c >> 8
  {
  }

  lemma LowSame(c: Word)
    ensures Meet(Xor(Widen(Low(c)), c), 0xFF) == 0
  {
  }

  lemma HighSame(c: Word)
    ensures Widen(HighByte(c)) == c >> 8
  {
  }

  /** A word's two bytes, low byte first, stream as its sixteen bits. */
  lemma WordStream(c: Word)
    ensures Stream([Low(c), HighByte(c)]) == BitsOf(c, 16)
  {
    hide Low, HighByte, Widen, BitsOf, Mask, ShiftDown;
    var m := [Low(c), HighByte(c)];
    assert m[1..] == [HighByte(c)] && m[1..][1..] == [];
    assert Stream([HighByte(c)]) == BitsOf(Widen(HighByte(c)), 8);
    Mask8();
    LowSame(c);
    SameLow(Widen(Low(c)), c, 8);
    ShiftDown8(c);
    HighSame(c);
    BitsAppend(c, 8, 8);
  }

  /** A message followed by its own CRC, low byte first, has CRC 0. */
  lemma ResidueZero(c: Word, msg: seq<Byte>)
    ensures var r := Crc(c, msg); Crc(c, msg + [Low(r), HighByte(r)]) == 0
  {
    hide Step, Xor, Low, HighByte, High;
    var r := Crc(c, msg);
    CrcIsFeed(c, msg);
    CrcIsFeed(c, msg + [Low(r), HighByte(r)]);
    StreamConcat(msg, [Low(r), HighByte(r)]);
    WordStream(r);
    FeedConcat(c, Stream(msg), BitsOf(r, 16));
    FeedPacked(r, BitsOf(r, 16));
    High16(r);
    PackBits(r, 16);
    XorLaws(r, r, 0, 0);
    ZerosKeepZero(16);
  }

  lemma High16(r: Word)
    ensures Meet(r, High(16)) == 0
  {
    High8();
    assert High(16) == 0 by {
      assert High(11) == 0xF800 by { assert High(9) == 0xFE00; assert High(10) == 0xFC00; }
      assert High(14) == 0xC000 by { assert High(12) == 0xF000; assert High(13) == 0xE000; }
      assert High(15) == 0x8000;
    }
    MeetNone(r);
  }

  lemma MeetNone(r: Word)
    ensures Meet(r, 0) == 0
  {
  }

  lemma ByteBits(x: Byte, y: Byte)
    requires BitsOf(Widen(x), 8) == BitsOf(Widen(y), 8)
    ensures x == y
  {
    hide BitsOf, Xor, Meet, High;
    High8();
    ByteLow(x);
    ByteLow(y);
    PackBits(Widen(x), 8);
    PackBits(Widen(y), 8);
  }

  /** Messages that differ only within two adjacent bytes have different CRCs. */
  lemma TwoBytesDetected(c: Word, a: seq<Byte>, x: (Byte, Byte), y: (Byte, Byte), z: seq<Byte>)
    requires Crc(c, a + [x.0, x.1] + z) == Crc(c, a + [y.0, y.1] + z)
    ensures x == y
  {
    hide Widen, BitsOf, Feed;
    CrcIsFeed(c, a + [x.0, x.1] + z);
    CrcIsFeed(c, a + [y.0, y.1] + z);
    ThreeStreams(a, x, z);
    ThreeStreams(a, y, z);
    var w, v := PairStream(x), PairStream(y);
    BurstDetected(c, Stream(a), w, v, Stream(z));
    assert w[..8] == BitsOf(Widen(x.0), 8) && v[..8] == BitsOf(Widen(y.0), 8);
    assert w[8..] == BitsOf(Widen(x.1), 8) && v[8..] == BitsOf(Widen(y.1), 8);
    ByteBits(x.0, y.0);
    ByteBits(x.1, y.1);
  }

  function PairStream(x: (Byte, Byte)): seq<bool> { BitsOf(Widen(x.0), 8) + BitsOf(Widen(x.1), 8) }

  lemma ThreeStreams(a: seq<Byte>, x: (Byte, Byte), z: seq<Byte>)
    ensures Stream(a + [x.0, x.1] + z) == Stream(a) + PairStream(x) + Stream(z)
  {
    hide Widen, BitsOf;
    StreamConcat(a + [x.0, x.1], z);
    StreamConcat(a, [x.0, x.1]);
    assert [x.0, x.1][1..] == [x.1] && [x.1][1..] == [];
    assert Stream([x.1]) == BitsOf(Widen(x.1), 8);
  }

  // ---------- Which CRC ----------

  /** The bits of a byte, lowest first. */
  function ByteBitsOf(b: Byte): seq<bool> {
    [b & 1 != 0, b & 2 != 0, b & 4 != 0, b & 8 != 0, b & 16 != 0, b & 32 != 0, b & 64 != 0, b & 128 != 0]
  }

  lemma LowBits(b: Byte)
    ensures Odd(Widen(b)) == (b & 1 != 0)
    ensures Odd(Half(Widen(b))) == (b & 2 != 0)
    ensures Odd(Half(Half(Widen(b)))) == (b & 4 != 0)
    ensures Odd(Half(Half(Half(Widen(b))))) == (b & 8 != 0)
  {
  }

  lemma HighBits(b: Byte)
    ensures Odd(Half(Half(Half(Half(Widen(b)))))) == (b & 16 != 0)
    ensures Odd(Half(Half(Half(Half(Half(Widen(b))))))) == (b & 32 != 0)
    ensures Odd(Half(Half(Half(Half(Half(Half(Widen(b)))))))) == (b & 64 != 0)
    ensures Odd(Half(Half(Half(Half(Half(Half(Half(Widen(b))))))))) == (b & 128 != 0)
  {
  }

  function Nibble(w: Word): seq<bool> { [Odd(w), Odd(Half(w)), Odd(Half(Half(w))), Odd(Half(Half(Half(w))))] }

  lemma PairFirst(w: Word, n: nat)
    requires n >= 2
    ensures BitsOf(w, n) == [Odd(w), Odd(Half(w))] + BitsOf(Half(Half(w)), n - 2)
  {
    hide Odd, Half;
    assert BitsOf(w, n) == [Odd(w)] + BitsOf(Half(w), n - 1);
  }

  lemma NibbleFirst(w: Word, n: nat)
    requires n >= 4
    ensures BitsOf(w, n) == Nibble(w) + BitsOf(Half(Half(Half(Half(w)))), n - 4)
  {
    PairFirst(w, n);
    PairFirst(Half(Half(w)), n - 2);
    hide Odd, Half, BitsOf;
    assert Nibble(w) == [Odd(w), Odd(Half(w))] + [Odd(Half(Half(w))), Odd(Half(Half(Half(w))))];
  }

  lemma NibblesAre(b: Byte)
    ensures Nibble(Widen(b)) + Nibble(Half(Half(Half(Half(Widen(b)))))) == ByteBitsOf(b)
  {
    hide Odd, Half, Widen;
    LowBits(b);
    HighBits(b);
  }

  lemma ByteBitsAre(b: Byte)
    ensures BitsOf(Widen(b), 8) == ByteBitsOf(b)
  {
    hide Odd, Half, Widen, Nibble, ByteBitsOf;
    var w := Half(Half(Half(Half(Widen(b)))));
    NibblesAre(b);
    NibbleFirst(Widen(b), 8);
    NibbleFirst(w, 4);
    assert Nibble(w) + [] == Nibble(w);
  }

  /** The register meets the bytes in order, each with its lowest bit first. */
  lemma {:induction false} StreamAt(msg: seq<Byte>, i: nat)
    requires i < |msg|
    ensures Stream(msg)[8 * i..8 * i + 8] == ByteBitsOf(msg[i])
    decreases i
  {
    hide ByteBitsOf, BitsOf;
    var first := BitsOf(Widen(msg[0]), 8);
    if i == 0 {
      ByteBitsAre(msg[0]);
      assert (first + Stream(msg[1..]))[..8] == first;
    } else {
      StreamAt(msg[1..], i - 1);
      assert (first + Stream(msg[1..]))[8 * i..8 * i + 8] == Stream(msg[1..])[8 * (i - 1)..8 * (i - 1) + 8];
    }
  }

  function Ones(n: nat): (r: seq<bool>)
    ensures |r| == n && forall i :: 0 <= i < n ==> r[i]
  {
    if n == 0 then [] else [true] + Ones(n - 1)
  }

  lemma {:induction false} PackOnes(n: nat)
    ensures Pack(Ones(n)) == Mask(n)
  {
    if n > 0 {
      assert Ones(n)[1..] == Ones(n - 1);
      PackOnes(n - 1);
    }
  }

  lemma Mask16()
    ensures Mask(16) == 0xFFFF
  {
    Mask8();
    assert Mask(11) == 0x7FF by { assert Mask(9) == 0x1FF; assert Mask(10) == 0x3FF; }
    assert Mask(14) == 0x3FFF by { assert Mask(12) == 0xFFF; assert Mask(13) == 0x1FFF; }
    assert Mask(15) == 0x7FFF;
  }

  lemma OnesFed(n: nat)
    ensures Feed(0, Ones(16) + Zeros(n)) == Feed(0xFFFF, Zeros(16 + n))
  {
    hide Step, Xor, Mask, Pack, Ones, Zeros, Feed;
    PackOnes(16);
    Mask16();
    FeedPacked(0, Ones(16));
    FeedConcat(0, Ones(16), Zeros(n));
    FeedConcat(0xFFFF, Zeros(16), Zeros(n));
    assert Zeros(16) + Zeros(n) == Zeros(16 + n);
    XorLaws(0xFFFF, 0, 0, 0);
  }

  /** Starting from all ones is starting from nothing with the first sixteen bits inverted. */
  lemma StartFed(es: seq<bool>, n: nat)
    requires |es| == 16 + n
    ensures Feed(0xFFFF, es) == Feed(0, XorBits(es, Ones(16) + Zeros(n)))
  {
    hide Step, Xor, Ones, Zeros;
    OnesFed(n);
    XorLaws(0xFFFF, 0, 0, 0);
    XorLaws(0, 0, 0, 0);
    FeedLinear(0, 0xFFFF, es, Zeros(|es|));
    FeedLinear(0, 0, es, Ones(16) + Zeros(n));
    XorZeros(es);
  }

  /** A message followed by two bytes leaves the register empty exactly when those are its CRC. */
  lemma CheckFed(c: Word, msg: seq<Byte>, low: Byte, high: Byte)
    ensures Feed(c, Stream(msg + [low, high])) == 0 <==> low == Low(Crc(c, msg)) && high == HighByte(Crc(c, msg))
  {
    hide Step, Xor, BitsOf, Crc, High, Low, HighByte;
    var d := Crc(c, msg);
    CrcIsFeed(c, msg + [low, high]);
    ResidueZero(c, msg);
    if Feed(c, Stream(msg + [low, high])) == 0 {
      assert msg + [low, high] + [] == msg + [low, high] && msg + [Low(d), HighByte(d)] + [] == msg + [Low(d), HighByte(d)];
      TwoBytesDetected(c, msg, (low, high), (Low(d), HighByte(d)), []);
    }
  }

  /** The message bits and the check bits, the first sixteen of them all inverted, are a multiple of
      x^16 + x^15 + x^2 + 1: what section 6.2.2 of the MODBUS guide asks of the two bytes. */
  ghost predicate Checks(msg: seq<Byte>, low: Byte, high: Byte) {
    Divisible(XorBits(Stream(msg + [low, high]), Ones(16) + Zeros(8 * |msg|)))
  }

  /** That holds of the CRC and of no other two bytes. */
  lemma ChecksIff(msg: seq<Byte>, low: Byte, high: Byte)
    ensures Checks(msg, low, high) <==> low == Low(Crc(0xFFFF, msg)) && high == HighByte(Crc(0xFFFF, msg))
  {
    hide Step, Xor, BitsOf, Divisible, Crc, Low, HighByte;
    CheckFed(0xFFFF, msg, low, high);
    StartFed(Stream(msg + [low, high]), 8 * |msg|);
    DividesIff(XorBits(Stream(msg + [low, high]), Ones(16) + Zeros(8 * |msg|)));
  }

  // ---------- Odd numbers of wrong bits ----------

  /** Whether the low n bits of a word, or a bit stream, have an odd number of ones. */
  predicate Parity(c: Word, n: nat)
    decreases n
  {
    n > 0 && Odd(c) != Parity(Half(c), n - 1)
  }

  predicate OddOnes(bs: seq<bool>) { bs != [] && bs[0] != OddOnes(bs[1..]) }

  lemma {:induction false} ParityLinear(a: Word, b: Word, n: nat)
    ensures Parity(Xor(a, b), n) == (Parity(a, n) != Parity(b, n))
    decreases n
  {
    hide Xor, Half, Odd;
    if n > 0 {
      HalfXor(a, b);
      OddXor(a, b);
      ParityLinear(Half(a), Half(b), n - 1);
    }
  }

  lemma {:induction false} ParityLast(c: Word, n: nat)
    ensures Parity(c, n + 1) == (Parity(c, n) != Odd(ShiftDown(c, n)))
    decreases n
  {
    hide Half, Odd;
    if n > 0 { ParityLast(Half(c), n - 1); }
  }

  lemma {:induction false} ShiftDownAdd(c: Word, n: nat, m: nat)
    ensures ShiftDown(c, n + m) == ShiftDown(ShiftDown(c, n), m)
    decreases n
  {
    hide Half;
    if n > 0 { ShiftDownAdd(Half(c), n - 1, m); }
  }

  lemma ShiftedOut(c: Word)
    ensures !Odd((c >> 8) >> 8)
  {
  }

  /** Halving a word drops its lowest bit from the count. */
  lemma ParityHalf(c: Word)
    ensures Parity(Half(c), 16) == (Parity(c, 16) != Odd(c))
  {
    hide Half, Odd, ShiftDown;
    ParityLast(c, 16);
    ShiftDownAdd(c, 8, 8);
    ShiftDown8(c);
    ShiftDown8(c >> 8);
    ShiftedOut(c);
  }

  lemma {:induction false} ParityZero(n: nat)
    ensures !Parity(0, n)
  {
    if n > 0 {
      HalfZero();
      ParityZero(n - 1);
    }
  }

  lemma HalfZero()
    ensures Half(0) == 0 && !Odd(0)
  {
  }

  lemma ParityUnit(b: bool)
    ensures Parity(Unit(b), 16) == b
  {
    UnitHalf(b);
    hide Half, Odd, Unit;
    ParityZero(15);
  }

  lemma UnitHalf(b: bool)
    ensures Half(Unit(b)) == 0 && Odd(Unit(b)) == b
  {
  }

  /** The polynomial's word has three ones. */
  lemma ParityTaps()
    ensures Parity(0xA001, 16)
  {
    assert Half(0xA001) == 0x5000 && Half(0x5000) == 0x2800 && Half(0x2800) == 0x1400 && Half(0x1400) == 0xA00;
    assert Half(0xA00) == 0x500 && Half(0x500) == 0x280 && Half(0x280) == 0x140 && Half(0x140) == 0xA0;
    assert Half(0xA0) == 0x50 && Half(0x50) == 0x28 && Half(0x28) == 0x14 && Half(0x14) == 10 && Half(10) == 5 && Half(5) == 2 && Half(2) == 1;
    assert Half(1) == 0 && Odd(1) && !Odd(2) && Odd(5) && !Odd(10) && !Odd(0x14) && !Odd(0x28) && !Odd(0x50) && !Odd(0xA0) && !Odd(0x140);
    assert !Odd(0x280) && !Odd(0x500) && !Odd(0xA00) && !Odd(0x1400) && !Odd(0x2800) && !Odd(0x5000) && Odd(0xA001);
    hide Half, Odd;
    assert Parity(1, 1);
    assert !Parity(5, 3);
    assert !Parity(0x14, 5);
    assert !Parity(0x50, 7);
    assert !Parity(0x140, 9);
    assert !Parity(0x500, 11);
    assert !Parity(0x1400, 13);
    assert !Parity(0x5000, 15);
  }

  /** A register turn neither makes nor loses an odd count. */
  lemma ParityTurn(c: Word, b: bool)
    ensures Parity(Step(Xor(c, Unit(b))), 16) == (Parity(c, 16) != b)
  {
    hide Xor, Half, Odd, Unit, Parity;
    var x := Xor(c, Unit(b));
    ParityLinear(c, Unit(b), 16);
    ParityUnit(b);
    ParityHalf(x);
    ParityLinear(Half(x), 0xA001, 16);
    ParityTaps();
  }

  lemma {:induction false} ParityFed(c: Word, bs: seq<bool>)
    ensures Parity(Feed(c, bs), 16) == (Parity(c, 16) != OddOnes(bs))
    decreases |bs|
  {
    hide Parity, Step, Xor, Unit;
    if bs != [] {
      ParityTurn(c, bs[0]);
      ParityFed(Step(Xor(c, Unit(bs[0]))), bs[1..]);
    }
  }

  lemma {:induction false} OddOnesXor(bs: seq<bool>, es: seq<bool>)
    requires |bs| == |es|
    ensures OddOnes(XorBits(bs, es)) == (OddOnes(bs) != OddOnes(es))
  {
    if bs != [] { OddOnesXor(bs[1..], es[1..]); }
  }

  /** Messages of equal length that differ in an odd number of bits have different CRCs. */
  lemma OddErrorsDetected(c: Word, a: seq<Byte>, b: seq<Byte>)
    requires |a| == |b| && OddOnes(XorBits(Stream(a), Stream(b)))
    ensures Crc(c, a) != Crc(c, b)
  {
    hide Parity, Feed, Crc;
    CrcIsFeed(c, a);
    CrcIsFeed(c, b);
    ParityFed(c, Stream(a));
    ParityFed(c, Stream(b));
    OddOnesXor(Stream(a), Stream(b));
  }

  // ---------- The program ----------

  function Mix(wcrc: bv32, b: Byte): bv32 { wcrc ^ (b as bv32) }
  function Turn(wcrc: bv32): bv32 { if wcrc & 0x0001 != 0 then (wcrc >> 1) ^ 0xA001 else wcrc >> 1 }
  function LowByteOf(wcrc: bv32): Byte { (wcrc & 0xFF) as Byte }
  function NextByteOf(wcrc: bv32): Byte { ((wcrc >> 8) & 0xFF) as Byte }

  /** crc16: wcrc is a 32-bit variable; the result goes to M_CRC, low byte first. */
  method Crc16(msg: seq<Byte>) returns (low: Byte, high: Byte)
    ensures low == Low(Crc(0xFFFF, msg)) && high == HighByte(Crc(0xFFFF, msg))
    ensures Checks(msg, low, high)
  {
    hide Checks, Low, HighByte, Xor, Step, Widen, Wide, Mix, Turn, LowByteOf, NextByteOf;
    var wcrc: bv32 := 0xFFFF;
    ghost var c: Word := 0xFFFF;
    var i := 0;
    assert msg[i..] == msg;
    StartWide();
    while i < |msg|
      invariant 0 <= i <= |msg| && wcrc == Wide(c)
      invariant Crc(0xFFFF, msg) == Crc(c, msg[i..])
    {
      assert msg[i..][1..] == msg[i + 1..];
      WideXor(c, msg[i]);
      wcrc := Mix(wcrc, msg[i]);
      c := Xor(c, Widen(msg[i]));
      ghost var c0 := c;
      var j := 0;
      while j < 8
        invariant 0 <= j <= 8 && wcrc == Wide(c)
        invariant Turns(c0, 8) == Turns(c, 8 - j)
      {
        WideStep(c);
        wcrc := Turn(wcrc);
        c := Step(c);
        j := j + 1;
      }
      i := i + 1;
    }
    WideLow(c);
    WideHigh(c);
    ChecksIff(msg, Low(c), HighByte(c));
    return LowByteOf(wcrc), NextByteOf(wcrc);
  }

  function Wide(c: Word): bv32 { c as bv32 }

  lemma StartWide()
    ensures Wide(0xFFFF) == 0xFFFF
  {
  }

  lemma WideXor(c: Word, b: Byte)
    ensures Mix(Wide(c), b) == Wide(Xor(c, Widen(b)))
  {
  }

  lemma WideStep(c: Word)
    ensures Turn(Wide(c)) == Wide(Step(c))
  {
    if Odd(c) { WideOdd(c); } else { WideEven(c); }
  }

  lemma WideOdd(c: Word)
    requires c & 1 == 1
    ensures Wide(c) & 1 != 0
    ensures (Wide(c) >> 1) ^ 0xA001 == Wide((c >> 1) ^ 0xA001)
  {
  }

  lemma WideEven(c: Word)
    requires c & 1 != 1
    ensures Wide(c) & 1 == 0
    ensures Wide(c) >> 1 == Wide(c >> 1)
  {
  }

  lemma WideLow(c: Word)
    ensures LowByteOf(Wide(c)) == Low(c)
  {
  }

  lemma WideHigh(c: Word)
    ensures NextByteOf(Wide(c)) == HighByte(c)
  {
  }
}
