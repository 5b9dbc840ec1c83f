/** The shift register inside crc16 of drivers/RS485.c:28-54, fed one message bit at a time. */
module CrcRegister {
  type Word = bv16

  function Xor(a: Word, b: Word): Word { a ^ b }
  function Half(c: Word): Word { c >> 1 }
  predicate Odd(c: Word) { c & 1 == 1 }

  /** One turn of the inner loop. */
  function Step(c: Word): Word { if Odd(c) then Xor(Half(c), 0xA001) else Half(c) }

  /** What one turn came from: the polynomial's top bit tells which branch was taken. */
  function Unstep(c: Word): Word { if c & 0x8000 != 0 then ((c ^ 0xA001) << 1) ^ 1 else c << 1 }

  function Unit(b: bool): Word { if b then 1 else 0 }

  /** The register after the bits of bs. */
  function Feed(c: Word, bs: seq<bool>): Word
    decreases |bs|
  {
    if bs == [] then c else Feed(Step(Xor(c, Unit(bs[0]))), bs[1..])
  }

  lemma StepUndone(c: Word)
    ensures Unstep(Step(c)) == c
  {
  }

  lemma StepLinear(a: Word, b: Word)
    ensures Step(Xor(a, b)) == Xor(Step(a), Step(b))
  {
    hide Xor, Half, Odd;
    HalfXor(a, b);
    OddXor(a, b);
    TapBoth(Half(a), Half(b), 0xA001);
    TapLeft(Half(a), Half(b), 0xA001);
    TapRight(Half(a), Half(b), 0xA001);
  }

  lemma HalfXor(a: Word, b: Word)
    ensures Half(Xor(a, b)) == Xor(Half(a), Half(b))
  {
  }

  lemma OddXor(a: Word, b: Word)
    ensures Odd(Xor(a, b)) <==> Odd(a) != Odd(b)
  {
  }

  lemma TapBoth(p: Word, q: Word, k: Word)
    ensures Xor(Xor(p, k), Xor(q, k)) == Xor(p, q)
  {
    hide Xor;
    TapLeft(p, Xor(q, k), k);
    TapRight(p, q, k);
    TapTwice(Xor(p, q), k);
  }

  lemma TapTwice(x: Word, k: Word)
    ensures Xor(Xor(x, k), k) == x
  {
  }

  lemma TapLeft(p: Word, q: Word, k: Word)
    ensures Xor(Xor(p, k), q) == Xor(Xor(p, q), k)
  {
    hide Xor;
    XorSwap(Xor(p, k), q);
    TapRight(q, p, k);
    XorSwap(p, q);
  }

  lemma XorSwap(a: Word, b: Word)
    ensures Xor(a, b) == Xor(b, a)
  {
  }

  lemma TapRight(p: Word, q: Word, k: Word)
    ensures Xor(p, Xor(q, k)) == Xor(Xor(p, q), k)
  {
  }

  lemma XorLaws(a: Word, b: Word, c: Word, d: Word)
    ensures Xor(Xor(a, b), Xor(c, d)) == Xor(Xor(a, c), Xor(b, d))
    ensures Xor(a, b) == 0 <==> a == b
    ensures Xor(a, a) == 0 && Xor(a, 0) == a && Xor(0, a) == a
    ensures Xor(a, b) == Xor(b, a)
  {
    XorNone(a);
    XorZeroIff(a, b);
    hide Xor;
    XorSwap(a, 0);
    XorSwap(a, b);
    TapRight(Xor(a, b), c, d);
    TapLeft(a, c, b);
    TapRight(Xor(a, c), b, d);
  }

  lemma XorNone(a: Word)
    ensures Xor(a, 0) == a
    ensures Xor(a, a) == 0
  {
  }

  lemma XorZeroIff(a: Word, b: Word)
    ensures Xor(a, b) == 0 <==> a == b
  {
  }

  function XorBits(bs: seq<bool>, es: seq<bool>): (r: seq<bool>)
    requires |bs| == |es|
    ensures |r| == |bs| && forall i :: 0 <= i < |r| ==> r[i] == (bs[i] != es[i])
  {
    if bs == [] then [] else [bs[0] != es[0]] + XorBits(bs[1..], es[1..])
  }

  /** The register is linear in what it holds and what is fed to it. */
  lemma {:induction false} FeedLinear(c: Word, d: Word, bs: seq<bool>, es: seq<bool>)
    requires |bs| == |es|
    ensures Feed(Xor(c, d), XorBits(bs, es)) == Xor(Feed(c, bs), Feed(d, es))
    decreases |bs|
  {
    hide Step, Xor;
    if bs != [] {
      var x, y := Xor(c, Unit(bs[0])), Xor(d, Unit(es[0]));
      XorLaws(c, d, Unit(bs[0]), Unit(es[0]));
      UnitXor(bs[0], es[0]);
      StepLinear(x, y);
      FeedLinear(Step(x), Step(y), bs[1..], es[1..]);
    }
  }

  lemma UnitXor(a: bool, b: bool)
    ensures Unit(a != b) == Xor(Unit(a), Unit(b))
  {
  }

  lemma {:induction false} FeedInjective(c: Word, d: Word, bs: seq<bool>)
    requires Feed(c, bs) == Feed(d, bs)
    ensures c == d
    decreases |bs|
  {
    hide Step, Xor, Unstep;
    if bs != [] {
      var u := Unit(bs[0]);
      FeedInjective(Step(Xor(c, u)), Step(Xor(d, u)), bs[1..]);
      StepUndone(Xor(c, u));
      StepUndone(Xor(d, u));
      XorLaws(Xor(c, u), Xor(d, u), 0, 0);
      XorLaws(c, u, d, u);
      XorLaws(u, u, 0, 0);
      XorLaws(Xor(c, d), 0, 0, 0);
      XorLaws(c, d, 0, 0);
    }
  }

  lemma {:induction false} FeedConcat(c: Word, a: seq<bool>, b: seq<bool>)
    ensures Feed(c, a + b) == Feed(Feed(c, a), b)
    decreases |a|
  {
    hide Step, Xor;
    if a == [] {
      assert a + b == b;
    } else {
      assert (a + b)[1..] == a[1..] + b;
      FeedConcat(Step(Xor(c, Unit(a[0]))), a[1..], b);
    }
  }

  // ---------- A burst of at most sixteen bits ----------

  function Zeros(n: nat): (r: seq<bool>)
    ensures |r| == n && forall i :: 0 <= i < n ==> !r[i]
  {
    if n == 0 then [] else [false] + Zeros(n - 1)
  }

  function Shift(c: Word): Word { c << 1 }

  /** The bits as a word, first bit lowest. */
  function Pack(es: seq<bool>): Word {
    if es == [] then 0 else Xor(Unit(es[0]), Shift(Pack(es[1..])))
  }

  function High(k: nat): Word { if k == 0 then 0xFFFF else Shift(High(k - 1)) }

  function Meet(a: Word, b: Word): Word { a & b }

  lemma {:induction false} PackLow(es: seq<bool>)
    ensures Meet(Pack(es), High(|es|)) == 0
  {
    hide Xor, Shift, Meet;
    if es == [] {
      MeetZero(High(0));
    } else {
      PackLow(es[1..]);
      MeetShift(es[0], Pack(es[1..]), High(|es| - 1));
    }
  }

  lemma MeetZero(a: Word)
    ensures Meet(0, a) == 0
  {
  }

  lemma MeetShift(b: bool, c: Word, h: Word)
    requires Meet(c, h) == 0
    ensures Meet(Xor(Unit(b), Shift(c)), Shift(h)) == 0
  {
  }

  lemma HighTop(k: nat)
    requires k <= 15
    ensures Meet(High(k), 0x8000) == 0x8000
  {
    assert High(3) == 0xFFF8 by { assert High(1) == 0xFFFE; }
    assert High(6) == 0xFFC0 by { assert High(4) == 0xFFF0; assert High(5) == 0xFFE0; }
    assert High(9) == 0xFE00 by { assert High(7) == 0xFF80; assert High(8) == 0xFF00; }
    assert High(12) == 0xF000 by { assert High(10) == 0xFC00; assert High(11) == 0xF800; }
    assert High(15) == 0x8000 by { assert High(13) == 0xE000; assert High(14) == 0xC000; }
    assert High(2) == 0xFFFC && High(5) == 0xFFE0 && High(8) == 0xFF00 && High(11) == 0xF800 && High(14) == 0xC000;
    assert High(1) == 0xFFFE && High(4) == 0xFFF0 && High(7) == 0xFF80 && High(10) == 0xFC00 && High(13) == 0xE000 && High(0) == 0xFFFF;
  }

  lemma TopClear(p: Word, h: Word)
    requires Meet(p, h) == 0 && Meet(h, 0x8000) == 0x8000
    ensures Meet(p, 0x8000) == 0
  {
  }

  lemma StepShift(p: Word)
    requires Meet(p, 0x8000) == 0
    ensures Step(Shift(p)) == p
    ensures Shift(p) == 0 ==> p == 0
  {
  }

  lemma {:induction false} XorZeros(es: seq<bool>)
    ensures XorBits(Zeros(|es|), es) == es && XorBits(es, Zeros(|es|)) == es
    ensures XorBits(es, es) == Zeros(|es|)
  {
    if es != [] { XorZeros(es[1..]); }
  }

  /** Up to sixteen bits may be put into the register at once. */
  lemma {:induction false} FeedPacked(c: Word, es: seq<bool>)
    requires |es| <= 16
    ensures Feed(c, es) == Feed(Xor(c, Pack(es)), Zeros(|es|))
  {
    FeedPackedZero(es);
    XorZeros(es);
    FeedLinear(c, 0, Zeros(|es|), es);
    XorZeros(Zeros(|es|));
    FeedLinear(c, Pack(es), Zeros(|es|), Zeros(|es|));
    XorLaws(c, 0, 0, 0);
  }

  lemma {:induction false} FeedPackedZero(es: seq<bool>)
    requires |es| <= 16
    ensures Feed(0, es) == Feed(Pack(es), Zeros(|es|))
  {
    hide Step, Xor, Shift, Meet, High;
    if es != [] {
      var rest, u := es[1..], Unit(es[0]);
      var z, p := Zeros(|rest|), Pack(rest);
      FeedPackedZero(rest);
      XorLaws(u, 0, 0, 0);
      XorLaws(Step(u), 0, 0, 0);
      XorZeros(rest);
      FeedLinear(Step(u), 0, z, rest);
      XorZeros(z);
      FeedLinear(Step(u), p, z, z);
      PackLow(rest);
      HighTop(|rest|);
      TopClear(p, High(|rest|));
      StepShift(p);
      StepLinear(u, Shift(p));
      XorLaws(Pack(es), 0, 0, 0);
      assert Zeros(|es|)[1..] == z;
    }
  }

  lemma {:induction false} PackZero(es: seq<bool>)
    requires |es| <= 16 && Pack(es) == 0
    ensures es == Zeros(|es|)
  {
    hide Xor, Shift, Meet, High;
    if es != [] {
      PackLow(es[1..]);
      HighTop(|es| - 1);
      TopClear(Pack(es[1..]), High(|es| - 1));
      StepShift(Pack(es[1..]));
      UnitOrShift(es[0], Pack(es[1..]));
      PackZero(es[1..]);
    }
  }

  lemma UnitOrShift(b: bool, p: Word)
    requires Xor(Unit(b), Shift(p)) == 0
    ensures !b && Shift(p) == 0
  {
  }

  /** No error pattern of at most sixteen consecutive bits leaves the register unchanged. */
  lemma BurstSeen(es: seq<bool>)
    requires |es| <= 16 && Feed(0, es) == 0
    ensures es == Zeros(|es|)
  {
    FeedPackedZero(es);
    FeedPackedZero(Zeros(|es|));
    ZerosKeepZero(|es|);
    FeedInjective(Pack(es), 0, Zeros(|es|));
    PackZero(es);
  }

  lemma {:induction false} ZerosKeepZero(n: nat)
    ensures Feed(0, Zeros(n)) == 0
  {
    if n > 0 {
      assert Zeros(n)[1..] == Zeros(n - 1);
      ZerosKeepZero(n - 1);
    }
  }

  /** Bit streams that differ only within sixteen consecutive bits end in different registers, from any
      common start. */
  lemma BurstDetected(c: Word, p: seq<bool>, w: seq<bool>, v: seq<bool>, s: seq<bool>)
    requires |w| == |v| <= 16 && Feed(c, p + w + s) == Feed(c, p + v + s)
    ensures w == v
  {
    hide Step, Xor;
    FeedConcat(c, p + w, s);
    FeedConcat(c, p + v, s);
    FeedConcat(c, p, w);
    FeedConcat(c, p, v);
    var r := Feed(c, p);
    FeedInjective(Feed(r, w), Feed(r, v), s);
    FeedLinear(r, r, w, v);
    XorLaws(r, r, 0, 0);
    XorLaws(Feed(r, w), Feed(r, v), 0, 0);
    BurstSeen(XorBits(w, v));
    forall i | 0 <= i < |w| ensures w[i] == v[i] { assert XorBits(w, v)[i] == Zeros(|w|)[i]; }
  }

  // ---------- Which polynomial ----------

  /** The coefficients of x^16 + x^15 + x^2 + 1, highest first. */
  const GENERATOR: seq<bool> := [true, true] + [false, false, false, false, false, false] + [false, false, false, false, false, false]
                                + [true, false, true]

  /** The product of the polynomial with coefficients q and the generator: the sum of shifted copies. */
  function Product(q: seq<bool>): (r: seq<bool>)
    ensures |r| == |q| + 16
  {
    if q == [] then Zeros(16) else XorBits(Copy(q[0], |q| - 1), [false] + Product(q[1..]))
  }

  /** The generator, or nothing, in front of n more coefficients. */
  function Copy(b: bool, n: nat): (r: seq<bool>)
    ensures |r| == n + 17 && r[0] == b
  {
    if b then GENERATOR + Zeros(n) else Zeros(n + 17)
  }

  /** The generator's own bits leave the register empty. */
  lemma GeneratorFed()
    ensures Feed(0, GENERATOR) == 0
  {
    var zeros := [false, false, false, false, false, false];
    FeedConcat(0, [true, true] + zeros + zeros, [true, false, true]);
    FeedConcat(0, [true, true] + zeros, zeros);
    FeedConcat(0, [true, true], zeros);
    FeedOne(0, true, [true]);
    FeedOne(0xA001, true, []);
    FirstTurns();
    MiddleTurns();
    LastTurns();
    SixZeros(0x5000, zeros);
    SixZeros(0x140, zeros);
    FeedOne(5, true, [false, true]);
    FeedOne(2, false, [true]);
    FeedOne(1, true, []);
    hide Step, Xor;
    assert Feed(0, [true, true]) == 0x5000;
    assert Feed(5, [true, false, true]) == 0;
  }

  lemma FeedOne(c: Word, b: bool, rest: seq<bool>)
    ensures Feed(c, [b] + rest) == Feed(Step(Xor(c, Unit(b))), rest)
  {
    assert ([b] + rest)[1..] == rest;
  }

  lemma FirstTurns()
    ensures Step(Xor(0, Unit(true))) == 0xA001 && Step(Xor(0xA001, Unit(true))) == 0x5000
  {
  }

  lemma LastTurns()
    ensures Step(Xor(5, Unit(true))) == 2 && Step(Xor(2, Unit(false))) == 1 && Step(Xor(1, Unit(true))) == 0
  {
  }

  lemma MiddleTurns()
    ensures Step(0x5000) == 0x2800 && Step(0x2800) == 0x1400 && Step(0x1400) == 0xA00 && Step(0xA00) == 0x500
    ensures Step(0x500) == 0x280 && Step(0x280) == 0x140 && Step(0x140) == 0xA0 && Step(0xA0) == 0x50
    ensures Step(0x50) == 0x28 && Step(0x28) == 0x14 && Step(0x14) == 10 && Step(10) == 5
  {
  }

  lemma SixZeros(c: Word, zeros: seq<bool>)
    requires zeros == [false, false, false, false, false, false]
    ensures Feed(c, zeros) == Step(Step(Step(Step(Step(Step(c))))))
  {
    hide Step, Xor;
    ZeroTurn(c, [false, false, false, false, false]);
    ZeroTurn(Step(c), [false, false, false, false]);
    ZeroTurn(Step(Step(c)), [false, false, false]);
    ZeroTurn(Step(Step(Step(c))), [false, false]);
    ZeroTurn(Step(Step(Step(Step(c)))), [false]);
    ZeroTurn(Step(Step(Step(Step(Step(c))))), []);
    assert zeros == [false] + [false, false, false, false, false];
    assert [false, false, false, false, false] == [false] + [false, false, false, false];
    assert [false, false, false, false] == [false] + [false, false, false];
    assert [false, false, false] == [false] + [false, false];
    assert [false, false] == [false] + [false] && [false] + [] == [false];
  }

  lemma ZeroTurn(c: Word, rest: seq<bool>)
    ensures Feed(c, [false] + rest) == Feed(Step(c), rest)
  {
    FeedOne(c, false, rest);
    XorLaws(c, 0, 0, 0);
  }

  lemma StepNothing()
    ensures Step(0) == 0
  {
  }

  lemma CopyFed(b: bool, n: nat)
    ensures Feed(0, Copy(b, n)) == 0
  {
    hide Step, Xor;
    GeneratorFed();
    FeedConcat(0, GENERATOR, Zeros(n));
    ZerosKeepZero(n);
    ZerosKeepZero(n + 17);
  }

  lemma {:induction false} ProductFed(q: seq<bool>)
    ensures Feed(0, Product(q)) == 0
  {
    hide Step, Xor;
    if q == [] {
      ZerosKeepZero(16);
    } else {
      CopyFed(q[0], |q| - 1);
      ProductFed(q[1..]);
      ZeroTurn(0, Product(q[1..]));
      StepNothing();
      XorLaws(0, 0, 0, 0);
      FeedLinear(0, 0, Copy(q[0], |q| - 1), [false] + Product(q[1..]));
    }
  }

  /** A stream that leaves an empty register empty is divided by the generator, coefficient by coefficient. */
  lemma {:induction false} Divide(es: seq<bool>) returns (q: seq<bool>)
    requires |es| >= 16 && Feed(0, es) == 0
    ensures |q| == |es| - 16 && Product(q) == es
    decreases |es|
  {
    hide Step, Xor;
    if |es| == 16 {
      BurstSeen(es);
      q := [];
    } else {
      var n := |es| - 17;
      var copy, rest := Copy(es[0], n), XorBits(es, Copy(es[0], n));
      CopyFed(es[0], n);
      XorLaws(0, 0, 0, 0);
      FeedLinear(0, 0, es, copy);
      assert rest == [false] + rest[1..];
      ZeroTurn(0, rest[1..]);
      StepNothing();
      var p := Divide(rest[1..]);
      q := [es[0]] + p;
      assert q[1..] == p;
      XorBack(es, copy);
    }
  }

  lemma XorBack(es: seq<bool>, d: seq<bool>)
    requires |es| == |d|
    ensures XorBits(d, XorBits(es, d)) == es
  {
    var r := XorBits(d, XorBits(es, d));
    forall i | 0 <= i < |es| ensures r[i] == es[i] { }
  }

  /** The bits are a multiple of the generator. */
  ghost predicate Divisible(es: seq<bool>) { exists q: seq<bool> :: Product(q) == es }

  /** A stream of sixteen bits or more leaves an empty register empty exactly when it is a multiple of
      x^16 + x^15 + x^2 + 1. */
  lemma DividesIff(es: seq<bool>)
    requires |es| >= 16
    ensures Feed(0, es) == 0 <==> Divisible(es)
  {
    hide Step, Xor;
    if Feed(0, es) == 0 {
      var q := Divide(es);
    } else if q: seq<bool> :| Product(q) == es {
      ProductFed(q);
    }
  }
}
