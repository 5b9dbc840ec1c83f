/** The blocks and the free list of an rt_memheap (rt-thread/src/memheap.c), as values.

    A row of blocks tiles the pool up to the tailer, as in HeapBlocks but with 24-byte headers; the
    free list is a sequence of header offsets in list order, newest first. */
module MemHeapModel {
  import opened HeapBlocks
  import opened WaitList

  /** MEMITEM_SIZE */
  function UserSize(b: Block): int { b.next - b.off - 24 }

  ghost predicate Roomy(bs: seq<Block>) {
    bs == [] || (UserSize(bs[0]) >= 12 && Roomy(bs[1..]))
  }

  /** The bytes a caller could still get, headers not counted. */
  ghost function FreeSum(bs: seq<Block>): int {
    if bs == [] then 0 else (if bs[0].used then 0 else UserSize(bs[0])) + FreeSum(bs[1..])
  }

  ghost function FreeOffs(bs: seq<Block>): set<nat> {
    if bs == [] then {} else (if bs[0].used then {} else {bs[0].off}) + FreeOffs(bs[1..])
  }

  ghost predicate Shaped(bs: seq<Block>, end: nat) {
    WellFormed(bs, end) && Roomy(bs)
  }

  /** A block is in the free list exactly when its used bit is clear, and once. */
  ghost predicate Listed(bs: seq<Block>, fl: seq<nat>) {
    Distinct(fl) && forall x: nat :: x in fl <==> x in FreeOffs(bs)
  }

  datatype Pool = Pool(bs: seq<Block>, fl: seq<nat>)

  ghost predicate Good(p: Pool, end: nat) { Shaped(p.bs, end) && Listed(p.bs, p.fl) }

  // ---------- The operations ----------

  /** The byte count that is searched for. */
  function Wanted(size: nat): nat
    requires size < WORD
  {
    if RoundUp(size) < 12 then 12 else RoundUp(size)
  }

  ghost function SizeAt(bs: seq<Block>, off: nat): int {
    if IndexOf(bs, off) < |bs| then UserSize(bs[IndexOf(bs, off)]) else -1
  }

  /** The position in the free list of the first block that is large enough. */
  ghost function FirstFree(p: Pool, n: nat): (k: nat)
    ensures k <= |p.fl| && (k < |p.fl| ==> SizeAt(p.bs, p.fl[k]) >= n)
    ensures forall j :: 0 <= j < k ==> SizeAt(p.bs, p.fl[j]) < n
    decreases |p.fl|
  {
    if p.fl == [] || SizeAt(p.bs, p.fl[0]) >= n then 0 else 1 + FirstFree(p.(fl := p.fl[1..]), n)
  }

  /** Free block i is handed out for n bytes; a rest that can hold a minimal block stays free and
      becomes the head of the free list. */
  ghost function Taken(p: Pool, i: nat, n: nat): Pool
    requires i < |p.bs|
  {
    var b, fl := p.bs[i], Without(p.fl, p.bs[i].off);
    if UserSize(b) >= n + 36 then
      Pool(p.bs[..i] + [Block(b.off, b.off + 24 + n, true)] + ([Block(b.off + 24 + n, b.next, false)] + p.bs[i + 1..]), [b.off + 24 + n] + fl)
    else
      Pool(p.bs[..i] + [b.(used := true)] + p.bs[i + 1..], fl)
  }

  /** rt_memheap_alloc: the pool afterwards and the header of the block, or None. */
  ghost function Alloc(p: Pool, size: nat): (Pool, Option)
    requires size < WORD
  {
    var n := Wanted(size);
    var k := FirstFree(p, n);
    if n >= FreeSum(p.bs) || k == |p.fl| then (p, None)
    else (Taken(p, IndexOf(p.bs, p.fl[k]), n), Some(p.fl[k]))
  }

  /** The free list without the successor of block i, if that is free. */
  ghost function WithoutNext(p: Pool, i: nat): seq<nat>
    requires i < |p.bs|
  {
    if NextFree(p.bs, i) then Without(p.fl, p.bs[i + 1].off) else p.fl
  }

  /** rt_memheap_free: merge with free neighbours; merged to the left the block keeps that place in
      the free list, else it becomes the head. */
  ghost function Freed(p: Pool, i: nat): Pool
    requires i < |p.bs|
  {
    var fl := WithoutNext(p, i);
    Pool(Release(p.bs, i), if PrevFree(p.bs, i) then fl else [p.bs[i].off] + fl)
  }

  predicate NextFree(bs: seq<Block>, i: nat) { i + 1 < |bs| && !bs[i + 1].used }
  predicate PrevFree(bs: seq<Block>, i: nat) { 0 < i < |bs| && !bs[i - 1].used }

  /** Where the space behind used block i ends: after its free successor if there is one. */
  function SpaceEnd(bs: seq<Block>, i: nat): nat
    requires i < |bs|
  {
    if NextFree(bs, i) then bs[i + 1].next else bs[i].next
  }

  /** The end of used block i moves to cut, taking from or giving to the space behind it. */
  ghost function Moved(p: Pool, i: nat, cut: nat): Pool
    requires i < |p.bs|
  {
    Pool(p.bs[..i] + [p.bs[i].(next := cut)] + ([Block(cut, SpaceEnd(p.bs, i), false)] + p.bs[if NextFree(p.bs, i) then i + 2 else i + 1..]),
         [cut] + WithoutNext(p, i))
  }

  // ---------- Rows in pieces ----------

  lemma {:induction false} FreeConcat(a: seq<Block>, z: seq<Block>)
    ensures Roomy(a + z) <==> Roomy(a) && Roomy(z)
    ensures FreeSum(a + z) == FreeSum(a) + FreeSum(z)
    ensures FreeOffs(a + z) == FreeOffs(a) + FreeOffs(z)
  {
    if a == [] {
      assert a + z == z;
    } else {
      assert (a + z)[1..] == a[1..] + z;
      FreeConcat(a[1..], z);
    }
  }

  lemma FreeAround(a: seq<Block>, x: Block, z: seq<Block>)
    ensures Roomy(a + [x] + z) <==> Roomy(a) && UserSize(x) >= 12 && Roomy(z)
    ensures FreeSum(a + [x] + z) == FreeSum(a) + (if x.used then 0 else UserSize(x)) + FreeSum(z)
    ensures FreeOffs(a + [x] + z) == FreeOffs(a) + (if x.used then {} else {x.off}) + FreeOffs(z)
  {
    assert a + [x] + z == a + ([x] + z);
    assert ([x] + z)[1..] == z;
    FreeConcat(a, [x] + z);
  }

  /** Free offsets lie inside the row. */
  lemma {:induction false} FreeWithin(bs: seq<Block>, lo: nat, hi: nat, x: nat)
    requires Tiled(bs, lo, hi) && x in FreeOffs(bs)
    ensures lo <= x && x + 12 <= hi && IndexOf(bs, x) < |bs| && !bs[IndexOf(bs, x)].used
  {
    TiledEnds(bs[1..], bs[0].next, hi);
    if !(!bs[0].used && x == bs[0].off) { FreeWithin(bs[1..], bs[0].next, hi, x); }
  }

  /** A block's own offset is not among the free offsets on either side. */
  lemma OffApart(a: seq<Block>, x: Block, z: seq<Block>, end: nat)
    requires Tiled(a + [x] + z, 0, end)
    ensures forall y: nat :: y in FreeOffs(a) ==> y < x.off
    ensures forall y: nat :: y in FreeOffs(z) ==> x.next <= y
  {
    TiledAround(a, x, z, 0, end);
    forall y: nat | y in FreeOffs(a) ensures y < x.off { FreeWithin(a, 0, x.off, y); }
    forall y: nat | y in FreeOffs(z) ensures x.next <= y { FreeWithin(z, x.next, end, y); }
  }

  // ---------- What the operations keep ----------

  /** Sizes and the free list follow the row when the middle x of a row becomes ys. */
  lemma ListedTaken(bs: seq<Block>, fl: seq<nat>, off: nat)
    requires Listed(bs, fl) && off in fl
    ensures Distinct(Without(fl, off)) && forall x: nat :: x in Without(fl, off) <==> x in FreeOffs(bs) && x != off
  {
    WithoutMembers(fl, off);
  }

  lemma TakenWhole(p: Pool, end: nat, i: nat)
    requires Good(p, end) && i < |p.bs| && !p.bs[i].used
    ensures var r := Pool(p.bs[..i] + [p.bs[i].(used := true)] + p.bs[i + 1..], Without(p.fl, p.bs[i].off));
      Good(r, end) && FreeSum(r.bs) == FreeSum(p.bs) - UserSize(p.bs[i])
  {
    var a, x, z := p.bs[..i], p.bs[i], p.bs[i + 1..];
    assert p.bs == a + [x] + z;
    TakeWholeKeeps(a, x, z, end);
    FreeAround(a, x, z);
    FreeAround(a, x.(used := true), z);
    OffApart(a, x, z, end);
    assert x.off in FreeOffs(p.bs);
    ListedTaken(p.bs, p.fl, x.off);
  }

  lemma TakenPart(p: Pool, end: nat, i: nat, n: nat)
    requires Good(p, end) && i < |p.bs| && !p.bs[i].used && UserSize(p.bs[i]) >= n + 36 && n >= 12 && n % 4 == 0
    ensures var r := Taken(p, i, n); Good(r, end) && FreeSum(r.bs) == FreeSum(p.bs) - n - 24
  {
    hide Tiled, NoTwoFree, Live, UsedSum, Roomy, FreeSum, FreeOffs;
    var a, x, z := p.bs[..i], p.bs[i], p.bs[i + 1..];
    assert p.bs == a + [x] + z;
    TakePartKeeps(a, x, z, end, n + 12);
    PartSums(a, x, z, x.off + 24 + n);
    OffApart(a, x, z, end);
    ListedTaken(p.bs, p.fl, x.off);
    Pushed(Without(p.fl, x.off), x.off + 24 + n);
  }

  /** Block x split at cut into a used and a free part. */
  lemma PartSums(a: seq<Block>, x: Block, z: seq<Block>, cut: nat)
    ensures var y, rest := Block(x.off, cut, true), Block(cut, x.next, false);
      var r := a + [y] + ([rest] + z);
      && (Roomy(r) <==> Roomy(a) && UserSize(y) >= 12 && UserSize(rest) >= 12 && Roomy(z))
      && FreeSum(r) == FreeSum(a) + UserSize(rest) + FreeSum(z)
      && FreeOffs(r) == FreeOffs(a) + {cut} + FreeOffs(z)
    ensures Roomy(a + [x] + z) <==> Roomy(a) && UserSize(x) >= 12 && Roomy(z)
    ensures FreeSum(a + [x] + z) == FreeSum(a) + (if x.used then 0 else UserSize(x)) + FreeSum(z)
    ensures FreeOffs(a + [x] + z) == FreeOffs(a) + (if x.used then {} else {x.off}) + FreeOffs(z)
  {
    var y, rest := Block(x.off, cut, true), Block(cut, x.next, false);
    FreeAround(a, x, z);
    FreeAround(a, y, [rest] + z);
    FreeConcat([rest], z);
  }

  lemma Pushed(fl: seq<nat>, x: nat)
    requires Distinct(fl) && x !in fl
    ensures Distinct([x] + fl) && forall y: nat :: y in [x] + fl <==> y == x || y in fl
  {
  }

  /** The free list without the free successor. */
  lemma WithoutNextKeeps(p: Pool, end: nat, i: nat)
    requires Good(p, end) && i < |p.bs|
    ensures Distinct(WithoutNext(p, i))
    ensures forall x: nat :: x in WithoutNext(p, i) <==> x in FreeOffs(p.bs) && !(NextFree(p.bs, i) && x == p.bs[i + 1].off)
  {
    if NextFree(p.bs, i) {
      var a, x, z := p.bs[..i + 1], p.bs[i + 1], p.bs[i + 2..];
      assert p.bs == a + [x] + z;
      FreeAround(a, x, z);
      ListedTaken(p.bs, p.fl, x.off);
    }
  }

  /** plug_holes-like merging around a free block x, in free sizes and free offsets. */
  lemma PlugSums(a: seq<Block>, x: Block, z: seq<Block>)
    requires !x.used && Roomy(a) && Roomy(z) && UserSize(x) >= 12
    requires z != [] ==> z[0].off == x.next
    requires a != [] ==> Last(a).next == x.off
    ensures var r := Plug(a, x, z);
      var left, right := a != [] && !Last(a).used, z != [] && !z[0].used;
      && Roomy(r)
      && FreeSum(r) == FreeSum(a) + UserSize(x) + FreeSum(z) + (if left then 24 else 0) + (if right then 24 else 0)
      && FreeOffs(r) == FreeOffs(a) + (if left then {} else {x.off}) + FreeOffs(if right then z[1..] else z)
  {
    var (x1, z1) := Forward(x, z);
    var (a1, x2) := Backward(a, x1);
    FreeAround(a1, x2, z1);
    if a != [] && !Last(a).used {
      assert a == a[..|a| - 1] + [Last(a)] + [];
      FreeAround(a[..|a| - 1], Last(a), []);
    }
  }

  lemma FreedKeeps(p: Pool, end: nat, i: nat)
    requires Good(p, end) && i < |p.bs| && p.bs[i].used
    ensures var r := Freed(p, i);
      && Good(r, end)
      && FreeSum(r.bs) == FreeSum(p.bs) + UserSize(p.bs[i]) + (if PrevFree(p.bs, i) then 24 else 0) + (if NextFree(p.bs, i) then 24 else 0)
  {
    hide Tiled, NoTwoFree, Live, UsedSum, Roomy, FreeSum, FreeOffs, Plug, Distinct;
    var a, x, z := p.bs[..i], p.bs[i], p.bs[i + 1..];
    assert p.bs == a + [x] + z;
    ReleaseKeeps(p.bs, end, i);
    FreeAround(a, x, z);
    At(p.bs, end, i);
    PlugSums(a, x.(used := false), z);
    OffApart(a, x, z, end);
    WithoutNextKeeps(p, end, i);
    TailOffs(p.bs, end, i);
    if !PrevFree(p.bs, i) { Pushed(WithoutNext(p, i), x.off); }
  }

  /** The free offsets behind block i, with and without its successor's. */
  lemma TailOffs(bs: seq<Block>, end: nat, i: nat)
    requires WellFormed(bs, end) && i < |bs|
    ensures FreeOffs(if NextFree(bs, i) then bs[i + 1..][1..] else bs[i + 1..]) ==
            FreeOffs(bs[i + 1..]) - if NextFree(bs, i) then {bs[i + 1].off} else {}
    ensures NextFree(bs, i) ==> bs[i + 1].off !in FreeOffs(bs[..i]) && bs[i + 1].off == bs[i].next
  {
    if NextFree(bs, i) {
      assert bs == bs[..i + 1] + [bs[i + 1]] + bs[i + 2..];
      assert bs[i + 1..] == [bs[i + 1]] + bs[i + 2..];
      OffApart(bs[..i + 1], bs[i + 1], bs[i + 2..], end);
      At(bs, end, i);
      At(bs, end, i + 1);
      assert bs[..i + 1] == bs[..i] + [bs[i]];
      FreeConcat(bs[..i], [bs[i]]);
    }
  }

  lemma MovedKeeps(p: Pool, end: nat, i: nat, cut: nat)
    requires Good(p, end) && i < |p.bs| && p.bs[i].used
    requires cut % 4 == 0 && p.bs[i].off + 36 <= cut && cut + 36 <= SpaceEnd(p.bs, i)
    ensures var r := Moved(p, i, cut);
      && Good(r, end)
      && FreeSum(r.bs) == FreeSum(p.bs) + p.bs[i].next - cut - (if NextFree(p.bs, i) then 0 else 24)
  {
    hide Tiled, NoTwoFree, Live, UsedSum, Roomy, FreeSum, FreeOffs, Distinct;
    var a, x, z := p.bs[..i], p.bs[i], p.bs[i + 1..];
    assert p.bs == a + [x] + z;
    var z' := p.bs[if NextFree(p.bs, i) then i + 2 else i + 1..];
    assert NextFree(p.bs, i) ==> z == [p.bs[i + 1]] + z';
    MovedShape(a, x, z, end, cut);
    OffApart(a, x, z, end);
    PartSums(a, x.(next := SpaceEnd(p.bs, i)), z', cut);
    FreeAround(a, x, z);
    if NextFree(p.bs, i) { FreeConcat([p.bs[i + 1]], z'); HeadSums(p.bs[i + 1]); }
    WithoutNextKeeps(p, end, i);
    TailOffs(p.bs, end, i);
    assert NextFree(p.bs, i) ==> p.bs[i + 1..][1..] == z';
    CutApart(p.bs, end, i, cut);
    Pushed(WithoutNext(p, i), cut);
  }

  lemma MovedShape(a: seq<Block>, x: Block, z: seq<Block>, end: nat, cut: nat)
    requires WellFormed(a + [x] + z, end) && x.used
    requires var free := z != [] && !z[0].used;
      cut % 4 == 0 && x.off + 36 <= cut && cut + 36 <= if free then z[0].next else x.next
    ensures var free := z != [] && !z[0].used;
      WellFormed(a + [x.(next := cut)] + ([Block(cut, if free then z[0].next else x.next, false)] + if free then z[1..] else z), end)
  {
    hide Live, UsedSum, Lowest;
    var free := z != [] && !z[0].used;
    var e, z' := if free then z[0].next else x.next, if free then z[1..] else z;
    TiledAround(a, x, z, 0, end);
    NoTwoFreeAround(a, x, z);
    var rest := Block(cut, e, false);
    assert [] + [rest] + z' == [rest] + z';
    TiledAround([], rest, z', cut, end);
    NoTwoFreeAround([], rest, z');
    TiledAround(a, x.(next := cut), [rest] + z', 0, end);
    NoTwoFreeAround(a, x.(next := cut), [rest] + z');
  }

  lemma CutApart(bs: seq<Block>, end: nat, i: nat, cut: nat)
    requires WellFormed(bs, end) && i < |bs| && bs[i].off < cut < SpaceEnd(bs, i)
    ensures forall y: nat :: y in FreeOffs(bs) && !(NextFree(bs, i) && y == bs[i + 1].off) && (bs[i].used || y != bs[i].off) ==> y != cut
  {
    hide Tiled, NoTwoFree, FreeOffs, Roomy, FreeSum;
    var j := if NextFree(bs, i) then i + 1 else i;
    assert bs == bs[..j] + [bs[j]] + bs[j + 1..];
    OffApart(bs[..j], bs[j], bs[j + 1..], end);
    FreeAround(bs[..j], bs[j], bs[j + 1..]);
    assert bs == bs[..i] + [bs[i]] + bs[i + 1..];
    OffApart(bs[..i], bs[i], bs[i + 1..], end);
    if NextFree(bs, i) {
      assert bs[..i + 1] == bs[..i] + [bs[i]];
      FreeConcat(bs[..i], [bs[i]]);
      OneFree(bs[i]);
    }
  }

  lemma OneFree(b: Block)
    ensures FreeOffs([b]) == if b.used then {} else {b.off}
  {
  }

  lemma HeadSums(b: Block)
    requires !b.used
    ensures FreeSum([b]) == UserSize(b) && FreeOffs([b]) == {b.off} && (Roomy([b]) <==> UserSize(b) >= 12)
  {
  }
}
