/** Bitmaps held in unsigned words, and __rt_ffs (rt-thread/src/kservice.c:1264-1308). */
module Bits {
  /** Bit p of v. */
  predicate Bit(v: nat, p: nat) { if p == 0 then v % 2 == 1 else Bit(v / 2, p - 1) }

  /** v | (1 << p) */
  function SetBit(v: nat, p: nat): nat {
    if p == 0 then (if v % 2 == 1 then v else v + 1) else v % 2 + 2 * SetBit(v / 2, p - 1)
  }

  /** v & ~(1 << p) */
  function ClearBit(v: nat, p: nat): nat {
    if p == 0 then (if v % 2 == 1 then v - 1 else v) else v % 2 + 2 * ClearBit(v / 2, p - 1)
  }

  function Pow2(k: nat): (r: nat)
    ensures r > 0
  {
    if k == 0 then 1 else 2 * Pow2(k - 1)
  }

  lemma {:induction false} SetBitIs(v: nat, p: nat, q: nat)
    ensures Bit(SetBit(v, p), q) <==> q == p || Bit(v, q)
    ensures SetBit(v, p) > 0
  {
    if p > 0 && q > 0 {
      SetBitIs(v / 2, p - 1, q - 1);
      Halve(v % 2, SetBit(v / 2, p - 1));
    } else if p > 0 {
      SetBitIs(v / 2, p - 1, 0);
      Halve(v % 2, SetBit(v / 2, p - 1));
    }
  }

  lemma Halve(r: nat, h: nat)
    requires r < 2
    ensures (r + 2 * h) / 2 == h && (r + 2 * h) % 2 == r
  {
  }

  lemma {:induction false} ClearBitIs(v: nat, p: nat, q: nat)
    ensures Bit(ClearBit(v, p), q) <==> q != p && Bit(v, q)
  {
    if p > 0 {
      Halve(v % 2, ClearBit(v / 2, p - 1));
      if q > 0 { ClearBitIs(v / 2, p - 1, q - 1); }
    }
  }

  lemma {:induction false} ZeroHasNone(p: nat)
    ensures !Bit(0, p)
  {
    if p > 0 { ZeroHasNone(p - 1); }
  }

  lemma {:induction false} BitsBelow(v: nat, k: nat, p: nat)
    requires v < Pow2(k) && k <= p
    ensures !Bit(v, p)
  {
    if k > 0 {
      BitsBelow(v / 2, k - 1, p - 1);
    } else {
      ZeroHasNone(p);
    }
  }

  lemma {:induction false} SetBitBelow(v: nat, k: nat, p: nat)
    requires v < Pow2(k) && p < k
    ensures SetBit(v, p) < Pow2(k) && ClearBit(v, p) < Pow2(k)
  {
    if p > 0 { SetBitBelow(v / 2, k - 1, p - 1); }
  }

  /** The position of the lowest set bit. */
  function LowBit(v: nat): (p: nat)
    requires v > 0
  {
    if v % 2 == 1 then 0 else 1 + LowBit(v / 2)
  }

  lemma {:induction false} LowBitIs(v: nat, q: nat)
    requires v > 0
    ensures Bit(v, LowBit(v)) && (q < LowBit(v) ==> !Bit(v, q))
  {
    if v % 2 == 0 { LowBitIs(v / 2, if q > 0 then q - 1 else 0); }
  }

  // ---------- __rt_ffs ----------

  const ROW: seq<nat> := [0, 0, 1, 0, 2, 0, 1, 0, 3, 0, 1, 0, 2, 0, 1, 0]
  const COLUMN: seq<nat> := [0, 4, 5, 4, 6, 4, 5, 4, 7, 4, 5, 4, 6, 4, 5, 4]

  /** __lowest_bit_bitmap: its sixteen rows differ only in their first column. */
  function Bitmap(i: nat): nat
    requires i < 256
  {
    if i % 16 == 0 then COLUMN[i / 16] else ROW[i % 16]
  }

  /** __rt_ffs */
  function Ffs(v: nat): nat
    requires v < 0x1_0000_0000
  {
    if v == 0 then 0
    else if v % 256 != 0 then Bitmap(v % 256) + 1
    else if v / 0x100 % 256 != 0 then Bitmap(v / 0x100 % 256) + 9
    else if v / 0x1_0000 % 256 != 0 then Bitmap(v / 0x1_0000 % 256) + 17
    else Bitmap(v / 0x100_0000) + 25
  }

  lemma RowIsLow(i: nat)
    requires 0 < i < 16
    ensures ROW[i] == LowBit(i) && COLUMN[i] == 4 + LowBit(i)
  {
    assert LowBit(1) == 0 && LowBit(3) == 0 && LowBit(5) == 0 && LowBit(7) == 0;
    assert LowBit(2) == 1 && LowBit(6) == 1 && LowBit(10) == 1 && LowBit(14) == 1;
    assert LowBit(4) == 2 && LowBit(12) == 2 && LowBit(8) == 3;
  }

  /** Dropping low zero bits, and high bits, in blocks of k. */
  lemma {:induction false} LowBitBlocks(v: nat, k: nat)
    requires v > 0
    ensures v % Pow2(k) != 0 ==> LowBit(v) == LowBit(v % Pow2(k))
    ensures v % Pow2(k) == 0 ==> v / Pow2(k) > 0 && LowBit(v) == k + LowBit(v / Pow2(k))
  {
    if k > 0 {
      var m := Pow2(k - 1);
      HalveMod(v, m);
      if v % 2 == 0 { LowBitBlocks(v / 2, k - 1); }
    }
  }

  lemma HalveMod(v: nat, m: nat)
    requires m > 0
    ensures v % (2 * m) == v % 2 + 2 * (v / 2 % m)
    ensures v / (2 * m) == v / 2 / m
  {
    var h, r := v / 2, v % 2;
    var q, s := h / m, h % m;
    assert h == m * q + s;
    assert v == (2 * m) * q + (2 * s + r) by { assert v == 2 * h + r; assert 2 * (m * q) == (2 * m) * q; }
    DivUnique(v, 2 * m, q, 2 * s + r);
  }

  lemma DivUnique(v: nat, d: nat, q: nat, r: nat)
    requires d > 0 && v == d * q + r && r < d
    ensures v / d == q && v % d == r
  {
    var q1, r1 := v / d, v % d;
    assert d * (q1 - q) == r - r1 by { assert v == d * q1 + r1; assert d * (q1 - q) == d * q1 - d * q; }
    Multiple(d, q1 - q);
  }

  lemma Multiple(d: nat, k: int)
    ensures k >= 1 ==> d * k >= d
    ensures k <= -1 ==> d * k <= 0 - d
  {
    if k >= 1 { assert d * k == d + d * (k - 1) && d * (k - 1) >= 0; }
    if k <= -1 { assert d * k == 0 - d - d * (-k - 1) && d * (-k - 1) >= 0; }
  }

  lemma BitmapIsLow(i: nat)
    requires 0 < i < 256
    ensures Bitmap(i) == LowBit(i)
  {
    assert Pow2(4) == 16 by { assert Pow2(3) == 8 by { assert Pow2(1) == 2; } }
    LowBitBlocks(i, 4);
    if i % 16 == 0 { RowIsLow(i / 16); } else { RowIsLow(i % 16); }
  }

  lemma Powers()
    ensures Pow2(8) == 256 && Pow2(5) == 32
  {
    assert Pow2(3) == 8 by { assert Pow2(1) == 2; }
    assert Pow2(5) == 32;
    assert Pow2(7) == 128;
  }

  /** __rt_ffs is one more than the position of the lowest set bit, and 0 for 0. */
  lemma FfsIs(v: nat)
    requires v < 0x1_0000_0000
    ensures Ffs(v) == if v == 0 then 0 else LowBit(v) + 1
  {
    hide LowBit, Bitmap, Pow2;
    if v > 0 {
      Powers();
      var v1 := v / 0x100;
      var v2 := v1 / 0x100;
      var v3 := v2 / 0x100;
      LowBitBlocks(v, 8);
      if v % 256 != 0 {
        BitmapIsLow(v % 256);
      } else {
        LowBitBlocks(v1, 8);
        if v1 % 256 != 0 {
          BitmapIsLow(v1 % 256);
        } else {
          LowBitBlocks(v2, 8);
          if v2 % 256 != 0 { BitmapIsLow(v2 % 256); } else {
            LowBitBlocks(v3, 8);
            BitmapIsLow(v3);
          }
        }
      }
    }
  }
}
