/** The block list behind the system heap of rt-thread/src/mem.c, as a value.

    A heap is a row of blocks that tile the offsets from 0 up to the end marker.  Each block
    starts with a 12-byte header; `off` is the offset of that header and `next` the offset of the
    header that follows.  The functions below say what the allocator does to that row; class
    SmallMem.Heap is the program that does it in place. */
module HeapBlocks {
  const HEADER: nat := 12
  const MIN_SIZE: nat := 12
  const WORD: nat := 0x1_0000_0000

  datatype Block = Block(off: nat, next: nat, used: bool) {
    /** Bytes available to the user. */
    function Size(): int { next - off - 12 }

    function Span(): int { next - off }
  }

  /** RT_ALIGN on a 32-bit rt_size_t: rounding up may wrap to 0. */
  function RoundUp(size: nat): (r: nat)
    requires size < WORD
    ensures r % 4 == 0 && r < WORD
    ensures size <= WORD - 4 ==> size <= r < size + 4
    ensures size > WORD - 4 ==> r == 0
  {
    var up := (size + 3) / 4 * 4;
    if up < WORD then up else up - WORD
  }

  lemma RoundUpMultiple(n: nat)
    requires n % 4 == 0 && n < WORD
    ensures RoundUp(n) == n
  {
  }

  datatype Option = None | Some(value: nat)

  function Last(bs: seq<Block>): Block
    requires bs != []
  {
    bs[|bs| - 1]
  }

  // ---------- Well-formed rows ----------

  /** The blocks cover lo..hi without gap or overlap. */
  ghost predicate Tiled(bs: seq<Block>, lo: nat, hi: nat) {
    if bs == [] then lo == hi
    else bs[0].off == lo && lo % 4 == 0 && lo + 12 <= bs[0].next && Tiled(bs[1..], bs[0].next, hi)
  }

  ghost predicate NoTwoFree(bs: seq<Block>) {
    |bs| >= 2 ==> (bs[0].used || bs[1].used) && NoTwoFree(bs[1..])
  }

  ghost predicate WellFormed(bs: seq<Block>, end: nat) {
    bs != [] && Tiled(bs, 0, end) && end % 4 == 0 && NoTwoFree(bs)
  }

  /** Offset of the lowest free block, or `end`. */
  ghost function Lowest(bs: seq<Block>, end: nat): nat {
    if bs == [] then end else if !bs[0].used then bs[0].off else Lowest(bs[1..], end)
  }

  /** Bytes in used blocks, headers included. */
  ghost function UsedSum(bs: seq<Block>): int {
    if bs == [] then 0 else (if bs[0].used then bs[0].Span() else 0) + UsedSum(bs[1..])
  }

  /** The simple view of the heap: the set of ranges handed out. */
  ghost function Live(bs: seq<Block>): set<Block> {
    if bs == [] then {} else (if bs[0].used then {bs[0]} else {}) + Live(bs[1..])
  }

  /** Position of the block whose header is at off, or the length of the row. */
  ghost function IndexOf(bs: seq<Block>, off: nat): (k: nat)
    ensures k <= |bs| && (k < |bs| ==> bs[k].off == off)
    ensures forall j :: 0 <= j < k ==> bs[j].off != off
  {
    if bs == [] || bs[0].off == off then 0 else 1 + IndexOf(bs[1..], off)
  }

  /** The byte count rt_malloc searches for, or None when it refuses at once. */
  function Request(size: nat, memSize: nat): Option
    requires size < WORD
  {
    if size == 0 || RoundUp(size) > memSize then None else Some(if RoundUp(size) < 12 then 12 else RoundUp(size))
  }

  // ---------- What the operations do to the row ----------

  /** The test of rt_malloc's search loop; the loop only looks below memSize - n. */
  predicate Fits(b: Block, n: nat, memSize: nat) {
    !b.used && b.Size() >= n && b.off < memSize - n
  }

  ghost function FirstFit(bs: seq<Block>, n: nat, memSize: nat): (k: nat)
    ensures k <= |bs| && (k < |bs| ==> Fits(bs[k], n, memSize))
    ensures forall j :: 0 <= j < k ==> !Fits(bs[j], n, memSize)
  {
    if bs == [] || Fits(bs[0], n, memSize) then 0 else 1 + FirstFit(bs[1..], n, memSize)
  }

  /** The block rt_malloc picks for a request, or the length of the row if it returns null. */
  ghost function Room(bs: seq<Block>, memSize: nat, size: nat): (k: nat)
    requires size < WORD
    ensures k <= |bs|
  {
    match Request(size, memSize)
    case None => |bs|
    case Some(n) => FirstFit(bs, n, memSize)
  }

  /** The used block that free block b becomes for a request of n bytes. */
  function Given(b: Block, n: nat): Block {
    if b.Size() >= n + 24 then Block(b.off, b.off + 12 + n, true) else b.(used := true)
  }

  /** Handing out block i for n bytes: a remainder that can hold a minimal block stays free. */
  function Take(bs: seq<Block>, i: nat, n: nat): seq<Block>
    requires i < |bs|
  {
    var b, y := bs[i], Given(bs[i], n);
    bs[..i] + [y] + (if y.next < b.next then [Block(y.next, b.next, false)] + bs[i + 1..] else bs[i + 1..])
  }

  /** The forward half of plug_holes: free block x absorbs a free successor. */
  function Forward(x: Block, z: seq<Block>): (Block, seq<Block>) {
    if z != [] && !z[0].used then (x.(next := z[0].next), z[1..]) else (x, z)
  }

  /** The backward half: a free predecessor absorbs x. */
  function Backward(a: seq<Block>, x: Block): (seq<Block>, Block) {
    if a != [] && !Last(a).used then (a[..|a| - 1], x.(off := Last(a).off)) else (a, x)
  }

  /** plug_holes on the free block x between rows a and z. */
  function Plug(a: seq<Block>, x: Block, z: seq<Block>): seq<Block> {
    var (x1, z1) := Forward(x, z);
    var (a1, x2) := Backward(a, x1);
    a1 + [x2] + z1
  }

  function Release(bs: seq<Block>, i: nat): seq<Block>
    requires i < |bs|
  {
    Plug(bs[..i], bs[i].(used := false), bs[i + 1..])
  }

  function Shrink(bs: seq<Block>, i: nat, n: nat): seq<Block>
    requires i < |bs|
  {
    var b, cut := bs[i], bs[i].off + 12 + n;
    Plug(bs[..i] + [b.(next := cut)], Block(cut, b.next, false), bs[i + 1..])
  }

  // ---------- The three calls, as functions of the row ----------

  ghost function AfterMalloc(bs: seq<Block>, memSize: nat, size: nat): seq<Block>
    requires size < WORD
  {
    var k := Room(bs, memSize, size);
    if k == |bs| then bs else Take(bs, k, Request(size, memSize).value)
  }

  /** rt_free of the block whose header is at off. */
  ghost function FreeAt(bs: seq<Block>, off: nat): seq<Block> {
    if IndexOf(bs, off) < |bs| then Release(bs, IndexOf(bs, off)) else bs
  }

  /** rt_realloc of the used block at off. */
  ghost function AfterRealloc(bs: seq<Block>, memSize: nat, off: nat, newsize: nat): seq<Block>
    requires newsize < WORD && IndexOf(bs, off) < |bs|
  {
    var n, i := RoundUp(newsize), IndexOf(bs, off);
    if n > memSize then bs
    else if n == 0 then FreeAt(bs, off)
    else if n == bs[i].Size() then bs
    else if n + 24 < bs[i].Size() then Shrink(bs, i, n)
    else if Room(bs, memSize, n) == |bs| then bs
    else FreeAt(AfterMalloc(bs, memSize, n), off)
  }

  // ---------- Rows in pieces ----------

  ghost function EndOf(a: seq<Block>, lo: nat): nat {
    if a == [] then lo else Last(a).next
  }

  lemma {:induction false} TiledConcat(a: seq<Block>, z: seq<Block>, lo: nat, hi: nat)
    ensures Tiled(a + z, lo, hi) <==> Tiled(a, lo, EndOf(a, lo)) && Tiled(z, EndOf(a, lo), hi)
  {
    if a == [] {
      assert a + z == z;
    } else {
      assert (a + z)[1..] == a[1..] + z;
      TiledConcat(a[1..], z, a[0].next, hi);
    }
  }

  lemma {:induction false} NoTwoFreeConcat(a: seq<Block>, z: seq<Block>)
    ensures NoTwoFree(a + z) <==> NoTwoFree(a) && NoTwoFree(z) && (a != [] && z != [] ==> Last(a).used || z[0].used)
  {
    if a == [] {
      assert a + z == z;
    } else {
      assert (a + z)[1..] == a[1..] + z;
      NoTwoFreeConcat(a[1..], z);
    }
  }

  lemma {:induction false} SumsConcat(a: seq<Block>, z: seq<Block>, end: nat)
    ensures UsedSum(a + z) == UsedSum(a) + UsedSum(z)
    ensures Live(a + z) == Live(a) + Live(z)
    ensures Lowest(a + z, end) == Lowest(a, Lowest(z, end))
  {
    if a == [] {
      assert a + z == z;
    } else {
      assert (a + z)[1..] == a[1..] + z;
      SumsConcat(a[1..], z, end);
    }
  }

  lemma TiledAround(a: seq<Block>, x: Block, z: seq<Block>, lo: nat, end: nat)
    ensures Tiled(a + [x] + z, lo, end) <==>
            Tiled(a, lo, EndOf(a, lo)) && x.off == EndOf(a, lo) && x.off % 4 == 0 && x.off + 12 <= x.next && Tiled(z, x.next, end)
  {
    assert a + [x] + z == a + ([x] + z);
    assert ([x] + z)[1..] == z;
    TiledConcat(a, [x] + z, lo, end);
  }

  lemma NoTwoFreeAround(a: seq<Block>, x: Block, z: seq<Block>)
    ensures NoTwoFree(a + [x] + z) <==>
      && NoTwoFree(a) && NoTwoFree(z)
      && (a != [] ==> Last(a).used || x.used) && (z != [] ==> x.used || z[0].used)
  {
    assert a + [x] + z == a + ([x] + z);
    assert ([x] + z)[1..] == z;
    NoTwoFreeConcat(a, [x] + z);
  }

  /** A row seen as a, then the single block x, then z. */
  lemma Around(a: seq<Block>, x: Block, z: seq<Block>, lo: nat, end: nat)
    ensures Tiled(a + [x] + z, lo, end) <==>
            Tiled(a, lo, EndOf(a, lo)) && x.off == EndOf(a, lo) && x.off % 4 == 0 && x.off + 12 <= x.next && Tiled(z, x.next, end)
    ensures NoTwoFree(a + [x] + z) <==>
            && NoTwoFree(a) && NoTwoFree(z)
            && (a != [] ==> Last(a).used || x.used) && (z != [] ==> x.used || z[0].used)
    ensures UsedSum(a + [x] + z) == UsedSum(a) + (if x.used then x.Span() else 0) + UsedSum(z)
    ensures Live(a + [x] + z) == Live(a) + (if x.used then {x} else {}) + Live(z)
    ensures Lowest(a + [x] + z, end) == Lowest(a, if x.used then Lowest(z, end) else x.off)
  {
    TiledAround(a, x, z, lo, end);
    NoTwoFreeAround(a, x, z);
    assert a + [x] + z == a + ([x] + z);
    assert ([x] + z)[1..] == z;
    SumsConcat(a, [x] + z, end);
  }

  /** Facts about one block of a row. */
  lemma At(bs: seq<Block>, end: nat, i: nat)
    requires WellFormed(bs, end) && i < |bs|
    ensures bs[i].off % 4 == 0 && bs[i].next % 4 == 0 && bs[i].off + 12 <= bs[i].next <= end
    ensures bs[i].next == end <==> i == |bs| - 1
    ensures i + 1 < |bs| ==> bs[i + 1].off == bs[i].next && (bs[i].used || bs[i + 1].used)
    ensures bs[i].off == EndOf(bs[..i], 0)
  {
    assert bs == bs[..i] + [bs[i]] + bs[i + 1..];
    Around(bs[..i], bs[i], bs[i + 1..], 0, end);
    TiledEnds(bs[i + 1..], bs[i].next, end);
  }

  lemma {:induction false} TiledEnds(bs: seq<Block>, lo: nat, hi: nat)
    requires Tiled(bs, lo, hi)
    ensures lo <= hi && (bs != [] ==> lo + 12 <= hi && lo % 4 == 0)
  {
    if bs != [] { TiledEnds(bs[1..], bs[0].next, hi); }
  }

  /** Everything below the lowest-free offset is in use. */
  lemma {:induction false} BelowLowest(bs: seq<Block>, lo: nat, end: nat, i: nat)
    requires Tiled(bs, lo, end) && i < |bs|
    ensures lo <= bs[i].off
    ensures bs[i].off < Lowest(bs, end) ==> bs[i].used
    ensures !bs[i].used ==> Lowest(bs, end) <= bs[i].off
  {
    if i > 0 { BelowLowest(bs[1..], bs[0].next, end, i - 1); }
  }

  lemma {:induction false} OffsOrdered(bs: seq<Block>, lo: nat, hi: nat, i: nat, j: nat)
    requires Tiled(bs, lo, hi) && i <= j < |bs|
    ensures lo <= bs[i].off && bs[i].off + 12 <= bs[i].next && (i < j ==> bs[i].next <= bs[j].off)
  {
    if i > 0 {
      OffsOrdered(bs[1..], bs[0].next, hi, i - 1, j - 1);
    } else if j > 0 {
      OffsOrdered(bs[1..], bs[0].next, hi, 0, j - 1);
    }
  }

  lemma {:induction false} LowestIndex(bs: seq<Block>, end: nat) returns (k: nat)
    ensures k <= |bs| && Lowest(bs, end) == if k < |bs| then bs[k].off else end
    ensures (k < |bs| ==> !bs[k].used) && forall j :: 0 <= j < k ==> bs[j].used
  {
    k := 0;
    if bs != [] && bs[0].used {
      k := LowestIndex(bs[1..], end);
      k := k + 1;
      assert forall j :: 0 < j < k ==> bs[j] == bs[1..][j - 1];
    }
  }

  // ---------- The operations keep the row well-formed and account for it ----------

  lemma TakeWholeKeeps(a: seq<Block>, x: Block, z: seq<Block>, end: nat)
    requires WellFormed(a + [x] + z, end) && !x.used
    ensures var y := x.(used := true); var r := a + [y] + z;
      WellFormed(r, end) && Live(r) == Live(a + [x] + z) + {y} && UsedSum(r) == UsedSum(a + [x] + z) + y.Span()
  {
    Around(a, x, z, 0, end);
    Around(a, x.(used := true), z, 0, end);
  }

  lemma Alone(b: Block)
    requires !b.used
    ensures Tiled([], b.off, b.off) && EndOf([], b.off) == b.off && NoTwoFree([]) && Live([]) == {} && UsedSum([]) == 0
  {
  }

  lemma TakePartKeeps(a: seq<Block>, x: Block, z: seq<Block>, end: nat, n: nat)
    requires WellFormed(a + [x] + z, end) && !x.used && x.Size() >= n + 24 && n % 4 == 0
    ensures var y := Given(x, n); var r := a + [y] + ([Block(y.next, x.next, false)] + z);
      WellFormed(r, end) && Live(r) == Live(a + [x] + z) + {y} && UsedSum(r) == UsedSum(a + [x] + z) + y.Span()
  {
    hide Tiled, NoTwoFree, Live, UsedSum, Lowest;
    var y := Given(x, n);
    var rest := Block(y.next, x.next, false);
    Alone(rest);
    Around(a, x, z, 0, end);
    Around(a, y, [rest] + z, 0, end);
    assert [] + [rest] + z == [rest] + z;
    Around([], rest, z, y.next, end);
  }

  lemma TakeKeeps(bs: seq<Block>, end: nat, i: nat, n: nat)
    requires WellFormed(bs, end) && i < |bs| && !bs[i].used && bs[i].Size() >= n && n % 4 == 0
    ensures var r, y := Take(bs, i, n), Given(bs[i], n);
      && WellFormed(r, end)
      && y.used && y.off == bs[i].off && (if bs[i].Size() >= n + 24 then y.Size() == n else y.next == bs[i].next)
      && Live(r) == Live(bs) + {y}
      && UsedSum(r) == UsedSum(bs) + y.Span()
  {
    var a, x, z := bs[..i], bs[i], bs[i + 1..];
    assert bs == a + [x] + z;
    if x.Size() >= n + 24 {
      TakePartKeeps(a, x, z, end, n);
    } else {
      TakeWholeKeeps(a, x, z, end);
    }
  }

  lemma ForwardKeeps(a: seq<Block>, x: Block, z: seq<Block>, end: nat)
    requires !x.used && Tiled(a + [x] + z, 0, end) && NoTwoFree(z)
    ensures var (x1, z1) := Forward(x, z);
      && !x1.used && x1.off == x.off && Tiled(a + [x1] + z1, 0, end)
      && NoTwoFree(z1) && (z1 != [] ==> z1[0].used)
      && Live(z1) == Live(z) && UsedSum(z1) == UsedSum(z)
  {
    if z != [] && !z[0].used {
      TiledAround(a, x, z, 0, end);
      TiledAround(a, x.(next := z[0].next), z[1..], 0, end);
    }
  }

  lemma BackwardKeeps(a: seq<Block>, x: Block, z: seq<Block>, end: nat)
    requires !x.used && Tiled(a + [x] + z, 0, end) && NoTwoFree(a) && NoTwoFree(z)
    requires z != [] ==> z[0].used
    ensures var (a1, x1) := Backward(a, x); var r := a1 + [x1] + z;
      && Tiled(r, 0, end) && NoTwoFree(r)
      && Live(r) == Live(a) + Live(z) && UsedSum(r) == UsedSum(a) + UsedSum(z) && Lowest(r, end) == Lowest(a, x.off)
      && Live(a1) == Live(a)
  {
    Around(a, x, z, 0, end);
    if a != [] && !Last(a).used {
      var a' := a[..|a| - 1];
      assert a == a' + [Last(a)] + [];
      Around(a', Last(a), [], 0, x.off);
      Around(a', x.(off := Last(a).off), z, 0, end);
    }
  }

  /** plug_holes repairs a row whose only defect is around the free block x; no live range and no
      total moves, and the lowest free block is x unless a lower one exists. */
  lemma PlugKeeps(a: seq<Block>, x: Block, z: seq<Block>, end: nat)
    requires !x.used && Tiled(a + [x] + z, 0, end) && NoTwoFree(a) && NoTwoFree(z)
    ensures var r := Plug(a, x, z);
      && r != [] && Tiled(r, 0, end) && NoTwoFree(r)
      && Live(r) == Live(a) + Live(z) && UsedSum(r) == UsedSum(a) + UsedSum(z) && Lowest(r, end) == Lowest(a, x.off)
  {
    ForwardKeeps(a, x, z, end);
    var (x1, z1) := Forward(x, z);
    BackwardKeeps(a, x1, z1, end);
  }

  lemma {:induction false} LiveWithin(bs: seq<Block>, lo: nat, hi: nat, b: Block)
    requires Tiled(bs, lo, hi) && b in Live(bs)
    ensures b.used && b in bs && lo <= b.off && b.off + 12 <= b.next <= hi
  {
    TiledEnds(bs[1..], bs[0].next, hi);
    if !(bs[0].used && b == bs[0]) { LiveWithin(bs[1..], bs[0].next, hi, b); }
  }

  /** plug_holes touches no live range, and finds the lowest-free pointer already right. */
  lemma PlugParts(a: seq<Block>, x: Block, z: seq<Block>, end: nat)
    requires !x.used && Tiled(a + [x] + z, 0, end) && NoTwoFree(a) && NoTwoFree(z)
    ensures var (x1, z1) := Forward(x, z); var (a1, x2) := Backward(a, x1);
      && !x1.used && x1.off == x.off && Live(a1) == Live(a) && Live(z1) == Live(z)
      && (Lowest(a, x.off) == x.off ==> x2.off == x.off)
    ensures Lowest(a, x.off) < x.next
  {
    ForwardKeeps(a, x, z, end);
    var (x1, z1) := Forward(x, z);
    BackwardKeeps(a, x1, z1, end);
    TiledAround(a, x, z, 0, end);
    LowestStop(a, 0, x.off, x.off, x.off);
    if a != [] && !Last(a).used {
      BelowLowest(a, 0, x.off, |a| - 1);
      assert a == a[..|a| - 1] + [Last(a)] + [];
      TiledAround(a[..|a| - 1], Last(a), [], 0, x.off);
      SumsConcat(a[..|a| - 1], [Last(a)], x.off);
      assert a[..|a| - 1] + [Last(a)] == a;
      LowestStop(a[..|a| - 1], 0, Last(a).off, Last(a).off, Last(a).off);
    }
  }

  lemma {:induction false} IndexOfLive(bs: seq<Block>, lo: nat, end: nat, b: Block)
    requires Tiled(bs, lo, end) && b in Live(bs)
    ensures IndexOf(bs, b.off) < |bs| && bs[IndexOf(bs, b.off)] == b
  {
    TiledEnds(bs[1..], bs[0].next, end);
    if b in Live(bs[1..]) {
      LiveWithin(bs[1..], bs[0].next, end, b);
      IndexOfLive(bs[1..], bs[0].next, end, b);
    }
  }

  /** Distinct live ranges do not overlap. */
  lemma {:induction false} LiveApart(bs: seq<Block>, lo: nat, end: nat, b: Block, c: Block)
    requires Tiled(bs, lo, end) && b in Live(bs) && c in Live(bs) && b != c
    ensures b.next <= c.off || c.next <= b.off
  {
    if b in Live(bs[1..]) && c in Live(bs[1..]) {
      LiveApart(bs[1..], bs[0].next, end, b, c);
    } else if b in Live(bs[1..]) {
      LiveWithin(bs[1..], bs[0].next, end, b);
    } else {
      LiveWithin(bs[1..], bs[0].next, end, c);
    }
  }

  lemma NotAround(a: seq<Block>, x: Block, z: seq<Block>, end: nat)
    requires Tiled(a + [x] + z, 0, end)
    ensures x !in Live(a) && x !in Live(z)
  {
    Around(a, x, z, 0, end);
    if x in Live(a) { LiveWithin(a, 0, x.off, x); }
    if x in Live(z) { LiveWithin(z, x.next, end, x); }
  }

  lemma {:induction false} LowestStop(a: seq<Block>, lo: nat, hi: nat, s: nat, t: nat)
    requires Tiled(a, lo, hi)
    ensures (Lowest(a, s) == s && Lowest(a, t) == t) || lo <= Lowest(a, s) == Lowest(a, t) < hi
  {
    TiledEnds(a, lo, hi);
    if a != [] { LowestStop(a[1..], a[0].next, hi, s, t); }
  }

  lemma {:induction false} LowestAbove(z: seq<Block>, lo: nat, hi: nat)
    requires Tiled(z, lo, hi)
    ensures lo <= Lowest(z, hi) <= hi
  {
    TiledEnds(z, lo, hi);
    if z != [] { LowestAbove(z[1..], z[0].next, hi); }
  }

  /** A used block x gives way to a free block at `at`, within x. */
  lemma LowestFreed(a: seq<Block>, x: Block, z: seq<Block>, end: nat, at: nat)
    requires Tiled(a + [x] + z, 0, end) && x.used && x.off <= at < x.next
    ensures var before := Lowest(a + [x] + z, end);
      Lowest(a, at) == if at < before then at else before
  {
    Around(a, x, z, 0, end);
    LowestStop(a, 0, x.off, Lowest(z, end), at);
    LowestAbove(z, x.next, end);
  }

  lemma ReleaseKeeps(bs: seq<Block>, end: nat, i: nat)
    requires WellFormed(bs, end) && i < |bs| && bs[i].used
    ensures var r := Release(bs, i);
      && WellFormed(r, end)
      && Live(r) == Live(bs) - {bs[i]} && bs[i] in Live(bs)
      && UsedSum(r) == UsedSum(bs) - bs[i].Span()
      && Lowest(r, end) == if bs[i].off < Lowest(bs, end) then bs[i].off else Lowest(bs, end)
  {
    var a, x, z := bs[..i], bs[i], bs[i + 1..];
    assert bs == a + [x] + z;
    Around(a, x, z, 0, end);
    NotAround(a, x, z, end);
    Around(a, x.(used := false), z, 0, end);
    PlugKeeps(a, x.(used := false), z, end);
    LowestFreed(a, x, z, end, x.off);
  }

  lemma ShrinkHalves(a: seq<Block>, x: Block, z: seq<Block>, end: nat, cut: nat)
    requires WellFormed(a + [x] + z, end) && x.used && x.off + 12 <= cut && cut + 12 <= x.next && cut % 4 == 0
    ensures var x0 := x.(next := cut);
      && Tiled(a + [x0] + [Block(cut, x.next, false)] + z, 0, end) && NoTwoFree(a + [x0]) && NoTwoFree(z)
      && Live(a + [x0]) + Live(z) == Live(a) + Live(z) + {x0}
      && Live(a + [x] + z) == Live(a) + Live(z) + {x}
      && UsedSum(a + [x0]) + UsedSum(z) == UsedSum(a + [x] + z) - (x.next - cut)
      && Lowest(a + [x0], cut) == Lowest(a, cut)
  {
    var x0 := x.(next := cut);
    assert a + [x0] + [] == a + [x0];
    Around(a, x, z, 0, end);
    Around(a, x0, [], 0, cut);
    Around(a + [x0], Block(cut, x.next, false), z, 0, end);
  }

  lemma ShrinkKeeps(bs: seq<Block>, end: nat, i: nat, n: nat)
    requires WellFormed(bs, end) && i < |bs| && bs[i].used && n % 4 == 0 && n + 24 < bs[i].Size()
    ensures var r := Shrink(bs, i, n); var cut := bs[i].off + 12 + n;
      && WellFormed(r, end)
      && Live(r) == Live(bs) - {bs[i]} + {bs[i].(next := cut)}
      && UsedSum(r) == UsedSum(bs) - (bs[i].Size() - n)
      && Lowest(r, end) == if cut < Lowest(bs, end) then cut else Lowest(bs, end)
  {
    var a, x, z, cut := bs[..i], bs[i], bs[i + 1..], bs[i].off + 12 + n;
    var x0, x1 := x.(next := cut), Block(cut, x.next, false);
    assert bs == a + [x] + z;
    At(bs, end, i);
    NotAround(a, x, z, end);
    LowestFreed(a, x, z, end, cut);
    ShrinkHalves(a, x, z, end, cut);
    PlugKeeps(a + [x0], x1, z, end);
  }

  lemma {:induction false} LowestIs(bs: seq<Block>, end: nat, k: nat)
    requires k <= |bs| && (forall i :: 0 <= i < k ==> bs[i].used) && (k < |bs| ==> !bs[k].used)
    ensures Lowest(bs, end) == if k < |bs| then bs[k].off else end
  {
    if k > 0 { LowestIs(bs[1..], end, k - 1); }
  }

  lemma UsedBefore(bs: seq<Block>, end: nat, k: nat)
    requires WellFormed(bs, end) && k < |bs| && Lowest(bs, end) == bs[k].off
    ensures forall i :: 0 <= i < k ==> bs[i].used
  {
    forall i | 0 <= i < k ensures bs[i].used {
      BelowLowest(bs, 0, end, i);
      OffsOrdered(bs, 0, end, i, k);
    }
  }

  /** Only handing out the lowest free block itself moves the lowest-free offset. */
  lemma TakeLowest(bs: seq<Block>, end: nat, k: nat, n: nat)
    requires WellFormed(bs, end) && k < |bs| && !bs[k].used && Lowest(bs, end) != bs[k].off
    ensures Lowest(Take(bs, k, n), end) == Lowest(bs, end)
  {
    var a, x, z := bs[..k], bs[k], bs[k + 1..];
    assert bs == a + [x] + z;
    Around(a, x, z, 0, end);
    var y := Given(x, n);
    var rest := if y.next < x.next then [Block(y.next, x.next, false)] + z else z;
    SumsConcat(a, [y] + rest, end);
    assert a + [y] + rest == a + ([y] + rest);
    LowestStop(a, 0, x.off, x.off, Lowest([y] + rest, end));
  }

  lemma {:induction false} LiveAt(bs: seq<Block>, i: nat)
    requires i < |bs| && bs[i].used
    ensures bs[i] in Live(bs)
  {
    if i > 0 { LiveAt(bs[1..], i - 1); }
  }

  lemma NotLive(bs: seq<Block>, end: nat, k: nat, y: Block)
    requires WellFormed(bs, end) && k < |bs| && !bs[k].used && y.off == bs[k].off
    ensures y !in Live(bs)
  {
    if y in Live(bs) {
      LiveWithin(bs, 0, end, y);
      IndexOfLive(bs, 0, end, y);
      var j := IndexOf(bs, y.off);
      if j < k { OffsOrdered(bs, 0, end, j, k); }
    }
  }

  lemma LiveSplit(bs: seq<Block>, k: nat)
    requires k < |bs|
    ensures Live(bs) == Live(bs[..k]) + (if bs[k].used then {bs[k]} else {}) + Live(bs[k + 1..])
  {
    assert bs == bs[..k] + [bs[k]] + bs[k + 1..];
    Around(bs[..k], bs[k], bs[k + 1..], 0, 0);
  }

  lemma ShrinkLive(bs: seq<Block>, end: nat, i: nat, n: nat)
    requires WellFormed(bs, end) && i < |bs| && bs[i].used && n % 4 == 0 && n + 24 < bs[i].Size()
    ensures (bs[i].off + 12 + n) % 4 == 0
    ensures Live(Shrink(bs, i, n)) == Live(bs[..i] + [bs[i].(next := bs[i].off + 12 + n)]) + Live(bs[i + 1..])
  {
    var a, x, z, cut := bs[..i], bs[i], bs[i + 1..], bs[i].off + 12 + n;
    assert bs == a + [x] + z;
    At(bs, end, i);
    ShrinkHalves(a, x, z, end, cut);
    PlugKeeps(a + [x.(next := cut)], Block(cut, x.next, false), z, end);
  }
}
