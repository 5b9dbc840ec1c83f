/** The rt_memheap of rt-thread/src/memheap.c in place: two doubly linked lists through one set of
    headers.  Offsets count from start_addr; a user pointer is a header offset plus 24.  The header
    fields are kept in one map each, indexed by header. */
module MemHeap {
  import opened HeapBlocks
  import opened WaitList
  import opened RtList
  import opened MemHeapModel
  import opened MemHeapRuns

  const HEAD: Node := -1      // &heap->free_header
  const NULL: int := -2

  function Offs(bs: seq<Block>): (r: seq<nat>)
    ensures |r| == |bs|
  {
    if bs == [] then [] else [bs[0].off] + Offs(bs[1..])
  }

  lemma {:induction false} OffsConcat(a: seq<Block>, z: seq<Block>)
    ensures Offs(a + z) == Offs(a) + Offs(z)
  {
    if a == [] {
      assert a + z == z;
    } else {
      assert (a + z)[1..] == a[1..] + z;
      OffsConcat(a[1..], z);
    }
  }

  lemma {:induction false} OffsAt(bs: seq<Block>, i: nat)
    requires i < |bs|
    ensures Offs(bs)[i] == bs[i].off
  {
    if i > 0 { OffsAt(bs[1..], i - 1); }
  }

  lemma OffsAround(a: seq<Block>, x: Block, z: seq<Block>)
    ensures Offs(a + [x] + z) == Offs(a) + ([x.off] + Offs(z))
  {
    assert Offs([x]) == [x.off];
    OffsConcat(a + [x], z);
    OffsConcat(a, [x]);
  }

  ghost predicate Tagged(used: map<Node, bool>, bs: seq<Block>) {
    bs == [] || (bs[0].off in used && used[bs[0].off] == bs[0].used && Tagged(used, bs[1..]))
  }

  lemma {:induction false} TaggedConcat(used: map<Node, bool>, a: seq<Block>, z: seq<Block>)
    ensures Tagged(used, a + z) <==> Tagged(used, a) && Tagged(used, z)
  {
    if a == [] {
      assert a + z == z;
    } else {
      assert (a + z)[1..] == a[1..] + z;
      TaggedConcat(used, a[1..], z);
    }
  }

  lemma TaggedAround(used: map<Node, bool>, a: seq<Block>, x: Block, z: seq<Block>)
    ensures Tagged(used, a + [x] + z) <==> Tagged(used, a) && x.off in used && used[x.off] == x.used && Tagged(used, z)
  {
    TaggedConcat(used, a + [x], z);
    TaggedConcat(used, a, [x]);
    assert [x][1..] == [];
  }

  lemma {:induction false} TaggedFrame(used: map<Node, bool>, bs: seq<Block>, lo: nat, hi: nat, x: nat, b: bool)
    requires Tagged(used, bs) && Tiled(bs, lo, hi) && (x < lo || x >= hi)
    ensures Tagged(used[x := b], bs)
  {
    if bs != [] {
      TiledEnds(bs[1..], bs[0].next, hi);
      TaggedFrame(used, bs[1..], bs[0].next, hi, x, b);
    }
  }

  lemma {:induction false} TiledAt(bs: seq<Block>, lo: nat, hi: nat, i: nat)
    requires Tiled(bs, lo, hi) && i < |bs|
    ensures bs[i].next == if i + 1 < |bs| then bs[i + 1].off else hi
  {
    if i > 0 {
      TiledAt(bs[1..], bs[0].next, hi, i - 1);
    } else if |bs| > 1 {
      assert bs[1..][0] == bs[1];
    }
  }

  /** What block i's links hold. */
  lemma BlockLinks(next: Links, prev: Links, bs: seq<Block>, end: nat, i: nat)
    requires Ring(next, prev, end, Offs(bs)) && Tiled(bs, 0, end) && i < |bs|
    ensures To(next, bs[i].off) == bs[i].next
    ensures To(prev, bs[i].off) == if i == 0 then end else bs[i - 1].off
    ensures To(prev, bs[i].next) == bs[i].off
  {
    hide Ring, Tiled, Offs;
    TiledAt(bs, 0, end, i);
    NextOf(next, prev, end, Offs(bs), i);
    NextOf(next, prev, end, Offs(bs), i + 1);
    OffsAt(bs, i);
    if i > 0 { OffsAt(bs, i - 1); }
    if i + 1 < |bs| { OffsAt(bs, i + 1); }
  }

  lemma {:induction false} Split(fl: seq<nat>, x: nat) returns (a: seq<nat>, b: seq<nat>)
    requires x in fl
    ensures fl == a + ([x] + b) && Without(fl, x) == a + b
  {
    if fl[0] == x {
      a, b := [], fl[1..];
    } else {
      a, b := Split(fl[1..], x);
      a := [fl[0]] + a;
    }
  }

  class MemHeap {
    const poolSize: nat
    var next: Links
    var prev: Links
    var used: map<Node, bool>
    var nextFree: Links
    var prevFree: Links
    var available: int
    var maxUsed: int
    ghost var p: Pool

    /** The tailer's offset. */
    function End(): nat
      requires poolSize >= 24
    {
      poolSize - 24
    }

    ghost predicate Linked(q: Pool)
      requires poolSize >= 24
      reads this
    {
      && Ring(next, prev, End(), Offs(q.bs))
      && Ring(nextFree, prevFree, HEAD, q.fl)
      && Tagged(used, q.bs) && End() in used && used[End()]
    }

    ghost predicate Valid()
      reads this
    {
      && 60 <= poolSize < WORD
      && Good(p, End())
      && Linked(p)
      && available == FreeSum(p.bs) && poolSize - available <= maxUsed
    }

    /** Link the header x into the address list behind header h. */
    method LinkBlock(h: Node, x: Node, ghost a: seq<Node>, ghost b: seq<Node>, ghost e: Node)
      requires Ring(next, prev, e, a + b) && h == RtList.Last([e] + a) && x != e && x !in a && x !in b
      modifies this`next, this`prev
      ensures Ring(next, prev, e, a + ([x] + b))
    {
      hide Ring;
      RtList.Linked(next, prev, e, a, b, x);
      prev := prev[x := h];
      next := next[x := To(next, h)];
      prev := prev[To(next, h) := x];
      next := next[h := x];
      NeighboursIn(old(next), old(prev), e, a, b);
      assert next == LinkNext(old(next), h, x) && prev == LinkPrev(old(next), old(prev), h, x);
    }

    /** ... or take it out. */
    method UnlinkBlock(x: Node, ghost a: seq<Node>, ghost b: seq<Node>, ghost e: Node)
      requires Ring(next, prev, e, a + ([x] + b))
      modifies this`next, this`prev
      ensures Ring(next, prev, e, a + b)
    {
      hide Ring;
      Unlinked(next, prev, e, a, x, b);
      var n, q := To(next, x), To(prev, x);
      prev := prev[n := q];
      next := next[q := n];
    }

    /** Put header x at the head of the free list. */
    method PushFree(x: nat, ghost fl: seq<nat>)
      requires Ring(nextFree, prevFree, HEAD, fl) && x !in fl
      modifies this`nextFree, this`prevFree
      ensures Ring(nextFree, prevFree, HEAD, [x] + fl)
    {
      hide Ring;
      var none: seq<Node> := [];
      assert none + fl == fl && none + ([x] + fl) == [x] + fl;
      RtList.Linked(nextFree, prevFree, HEAD, none, fl, x);
      NeighboursIn(nextFree, prevFree, HEAD, none, fl);
      ghost var nf, pf := nextFree, prevFree;
      nextFree := nextFree[x := To(nextFree, HEAD)];
      prevFree := prevFree[x := HEAD];
      prevFree := prevFree[To(nextFree, HEAD) := x];
      nextFree := nextFree[HEAD := x];
      assert nextFree == LinkNext(nf, HEAD, x) && prevFree == LinkPrev(nf, pf, HEAD, x);
    }

    /** Take header x out of the free list. */
    method DropFree(x: nat, ghost fl: seq<nat>)
      requires Ring(nextFree, prevFree, HEAD, fl) && x in fl
      modifies this`nextFree, this`prevFree
      ensures Ring(nextFree, prevFree, HEAD, Without(fl, x))
    {
      hide Ring;
      ghost var a, b := Split(fl, x);
      assert a + ([x] + b) == fl;
      Unlinked(nextFree, prevFree, HEAD, a, x, b);
      var n, q := To(nextFree, x), To(prevFree, x);
      prevFree := prevFree[n := q];
      nextFree := nextFree[q := n];
    }

    /** The search loop of rt_memheap_alloc. */
    method Search(n: nat) returns (h: Node, freeSize: int)
      requires Valid() && n >= 12
      ensures var k := FirstFree(p, n);
        if k == |p.fl| then freeSize < n else h == p.fl[k] && freeSize == SizeAt(p.bs, h) >= n
    {
      hide Ring, Good, FreeSum, FreeOffs, Tagged, Offs, SizeAt, FirstFree;
      ghost var c: seq<Node>, k: nat := p.fl + [HEAD], 0;
      freeSize := 0;
      NextOf(nextFree, prevFree, HEAD, p.fl, 0);
      h := To(nextFree, HEAD);
      while h != HEAD && freeSize < n
        invariant k <= |p.fl| && h == c[k]
        invariant forall j :: 0 <= j < k ==> SizeAt(p.bs, p.fl[j]) < n
        invariant freeSize < n || (k < |p.fl| && freeSize == SizeAt(p.bs, p.fl[k]))
        decreases |p.fl| - k, n - freeSize
      {
        FreeSizeAt(next, prev, p, End(), k);
        freeSize := To(next, h) - h - 24;
        if freeSize < n {
          NextOf(nextFree, prevFree, HEAD, p.fl, k + 1);
          h := To(nextFree, h);
          k := k + 1;
        }
      }
    }

    /** A free header at cut inside block i, linked behind it. */
    method CutBlock(h: nat, cut: nat, ghost bs: seq<Block>, ghost i: nat)
      requires poolSize >= 24 && Ring(next, prev, End(), Offs(bs)) && WellFormed(bs, End()) && i < |bs|
      requires bs[i].off == h && h < cut < bs[i].next
      modifies this`next, this`prev, this`used
      ensures Ring(next, prev, End(), Offs(bs[..i] + [bs[i]]) + ([cut] + Offs(bs[i + 1..])))
      ensures used == old(used)[cut := false]
    {
      hide Ring, Offs, Tiled, NoTwoFree;
      ghost var a, x, z := bs[..i], bs[i], bs[i + 1..];
      assert bs == a + [x] + z;
      OffsConcat(a + [x], z);
      OffsLast(a, x);
      CutAway(bs, End(), i, cut);
      used := used[cut := false];
      LinkBlock(h, cut, Offs(a + [x]), Offs(z), End());
    }

    /** rt_memheap_alloc taking the front part of block i. */
    method TakeFront(h: nat, n: nat, ghost i: nat)
      requires Valid() && i < |p.bs| && p.bs[i].off == h && !p.bs[i].used && UserSize(p.bs[i]) >= n + 36 && n >= 12 && n % 4 == 0
      modifies this`next, this`prev, this`used, this`nextFree, this`prevFree
      ensures Linked(Taken(p, i, n))
    {
      hide Ring, Offs, Tiled, NoTwoFree, Roomy, FreeSum, FreeOffs, Tagged;
      ghost var a, x, z := p.bs[..i], p.bs[i], p.bs[i + 1..];
      assert p.bs == a + [x] + z;
      FreeIsListed(p, End(), i);
      At(p.bs, End(), i);
      CutNotListed(p, End(), i, h + 24 + n);
      CutBlock(h, h + 24 + n, p.bs, i);
      OffsCut(a, x, z, h + 24 + n);
      TaggedCut(old(used), a, x, z, End(), h + 24 + n);
      DropFree(h, p.fl);
      PushFree(h + 24 + n, Without(p.fl, h));
      used := used[h := true];
    }

    /** ... or the whole of it. */
    method TakeAll(h: nat, ghost i: nat)
      requires Valid() && i < |p.bs| && p.bs[i].off == h && !p.bs[i].used
      modifies this`used, this`nextFree, this`prevFree
      ensures Linked(Pool(p.bs[..i] + [p.bs[i].(used := true)] + p.bs[i + 1..], Without(p.fl, h)))
    {
      hide Ring, Offs, Tiled, NoTwoFree, Roomy, FreeSum, FreeOffs, Tagged;
      ghost var a, x, z := p.bs[..i], p.bs[i], p.bs[i + 1..];
      assert p.bs == a + [x] + z;
      FreeIsListed(p, End(), i);
      OffsAround(a, x, z);
      OffsAround(a, x.(used := true), z);
      Retag(used, a, x, z, End(), true);
      DropFree(h, p.fl);
      used := used[h := true];
    }

    /** rt_memheap_alloc; NULL or the offset of the user bytes. */
    method AllocMem(size: nat) returns (r: int)
      requires Valid() && size < WORD
      modifies this
      ensures r == NULL || r >= 24
      ensures Valid() && (p, if r == NULL then None else Some(r - 24)) == Alloc(old(p), size)
    {
      var n := RoundUp(size);
      if n < 12 { n := 12; }
      if n >= available { return NULL; }
      var h, freeSize := Search(n);
      if freeSize < n { return NULL; }
      r := HandOut(h, freeSize, n, FirstFree(p, n));
    }

    method HandOut(h: nat, freeSize: nat, n: nat, ghost k: nat) returns (r: int)
      requires Valid() && k < |p.fl| && p.fl[k] == h && SizeAt(p.bs, h) == freeSize >= n >= 12 && n % 4 == 0
      modifies this
      ensures Valid() && p == Taken(old(p), IndexOf(old(p.bs), h), n) && r == h + 24
    {
      hide Ring, Offs, Tiled, NoTwoFree, Roomy, FreeSum, FreeOffs, Tagged;
      ListedIsFree(p, End(), k);
      ghost var i := IndexOf(p.bs, h);
      ghost var _ := TakenKeeps(p, End(), i, n);
      if freeSize >= n + 36 {
        TakeFront(h, n, i);
        available := available - n - 24;
      } else {
        TakeAll(h, i);
        available := available - freeSize;
      }
      if poolSize - available > maxUsed { maxUsed := poolSize - available; }
      p := Taken(p, i, n);
      return h + 24;
    }

    /** The left merge of rt_memheap_free around the free block x. */
    method MergeLeft(h: nat, ghost a: seq<Block>, ghost x: Block, ghost z: seq<Block>) returns (h1: nat, merged: bool)
      requires poolSize >= 24 && Ring(next, prev, End(), Offs(a + [x] + z)) && Tiled(a + [x] + z, 0, End())
      requires Tagged(used, a + [x] + z) && End() in used && used[End()] && h == x.off && !x.used
      modifies this`next, this`prev, this`available
      ensures var (a1, x1) := Backward(a, x);
        && Ring(next, prev, End(), Offs(a1 + [x1] + z)) && Tagged(used, a1 + [x1] + z) && h1 == x1.off
      ensures merged == (a != [] && !HeapBlocks.Last(a).used)
      ensures available == old(available) + if merged then 24 else 0
    {
      hide Ring, Offs, Tiled, Tagged;
      PrevLink(next, prev, used, a, x, z, End());
      h1, merged := h, false;
      if !used[To(prev, h)] {
        available := available + 24;
        h1, merged := To(prev, h), true;
        OffsAround(a, x, z);
        JoinLeft(used, a, x, z);
        UnlinkBlock(h, Offs(a), Offs(z), End());
      }
    }

    /** The right merge. */
    method MergeRight(h: nat, ghost a: seq<Block>, ghost x: Block, ghost z: seq<Block>, ghost fl: seq<nat>)
      requires poolSize >= 24 && Ring(next, prev, End(), Offs(a + [x] + z)) && Tiled(a + [x] + z, 0, End())
      requires Tagged(used, a + [x] + z) && End() in used && used[End()] && h == x.off && !x.used
      requires Ring(nextFree, prevFree, HEAD, fl) && (z != [] && !z[0].used ==> z[0].off in fl)
      modifies this`next, this`prev, this`nextFree, this`prevFree, this`available
      ensures var (x1, z1) := Forward(x, z); var merged := z != [] && !z[0].used;
        && Ring(next, prev, End(), Offs(a + [x1] + z1)) && Tagged(used, a + [x1] + z1)
        && Ring(nextFree, prevFree, HEAD, if merged then Without(fl, z[0].off) else fl)
        && available == old(available) + if merged then 24 else 0
    {
      hide Ring, Offs, Tiled, Tagged;
      NextLink(next, prev, used, a, x, z, End());
      if !used[To(next, h)] {
        available := available + 24;
        var n: nat := To(next, h);
        OffsAround(a + [x], z[0], z[1..]);
        JoinRight(used, a, x, z);
        UnlinkBlock(n, Offs(a + [x]), Offs(z[1..]), End());
        DropFree(n, fl);
      }
    }

    /** rt_memheap_free. */
    method FreeMem(ptr: int)
      requires Valid()
      requires ptr == NULL || (ptr >= 24 && IndexOf(p.bs, ptr - 24) < |p.bs| && p.bs[IndexOf(p.bs, ptr - 24)].used)
      modifies this
      ensures Valid()
      ensures p == if ptr == NULL then old(p) else Freed(old(p), IndexOf(old(p.bs), ptr - 24))
    {
      if ptr == NULL { return; }
      FreeBlock(ptr - 24, IndexOf(p.bs, ptr - 24));
    }

    method FreeBlock(h: nat, ghost i: nat)
      requires Valid() && i < |p.bs| && p.bs[i].off == h && p.bs[i].used
      modifies this
      ensures Valid() && p == Freed(old(p), i)
    {
      hide Ring, Offs, Tiled, NoTwoFree, Roomy, FreeSum, FreeOffs, Tagged;
      ghost var a, x, z := p.bs[..i], p.bs[i].(used := false), p.bs[i + 1..];
      assert p.bs == a + [p.bs[i]] + z;
      FreedKeeps(p, End(), i);
      BlockLinks(next, prev, p.bs, End(), i);
      FreeSetup(used, p, End(), i);
      used := used[h := false];
      available := available + (To(next, h) - h - 24);
      var h1, merged := MergeLeft(h, a, x, z);
      ghost var (a1, x1) := Backward(a, x);
      MergeRight(h1, a1, x1, z, p.fl);
      if !merged { PushFree(h1, WithoutNext(p, i)); }
      p := Freed(p, i);
    }

    /** rt_memheap_realloc growing into the free successor; the new header's address is a 32-bit sum. */
    method GrowBlock(h: nat, n: nat, ghost i: nat)
      requires Valid() && i < |p.bs| && p.bs[i].off == h && p.bs[i].used && NextFree(p.bs, i)
      requires h < GrowCut(h, n) < SpaceEnd(p.bs, i)
      modifies this
      ensures p == Moved(old(p), i, GrowCut(h, n)) && Linked(p)
      ensures n % 4 == 0 && n >= 12 && n + 12 < UserSize(old(p).bs[i]) + UserSize(old(p).bs[i + 1]) ==> Valid()
    {
      hide Ring, Offs, Tiled, NoTwoFree, Roomy, FreeSum, FreeOffs, Tagged, GrowCut;
      ghost var cut, row := GrowCut(h, n), Widened(p.bs, i);
      BlockLinks(next, prev, p.bs, End(), i);
      SpaceBehind(p, End(), i, cut);
      WidenedRow(used, p, End(), i);
      CutUnlisted(p, End(), i, cut);
      GrownKeeps(p, End(), i, n);
      var nx: nat := To(next, h);
      available := available - (n - (nx - h - 24));
      if poolSize - available > maxUsed { maxUsed := poolSize - available; }
      DropFree(nx, p.fl);
      UnlinkBlock(nx, Offs(p.bs[..i] + [p.bs[i]]), Offs(p.bs[i + 2..]), End());
      CutBlock(h, GrowCut(h, n), row, i);
      PushFree(GrowCut(h, n), WithoutNext(p, i));
      MovedLinks(old(used), p, End(), i, cut);
      p := Moved(p, i, cut);
    }

    /** The block behind the new header at cut leaves both lists if it is free. */
    method DropNext(cut: nat, ghost i: nat, ghost tags: map<Node, bool>)
      requires poolSize >= 24 && Good(p, End()) && i < |p.bs| && p.bs[i].off < cut < p.bs[i].next
      requires Ring(next, prev, End(), Offs(p.bs[..i] + [p.bs[i]]) + ([cut] + Offs(p.bs[i + 1..]))) && Ring(nextFree, prevFree, HEAD, p.fl)
      requires Tagged(tags, p.bs) && End() in tags && tags[End()] && used == tags[cut := false]
      requires NextFree(p.bs, i) ==> p.bs[i + 1].off in p.fl
      modifies this`next, this`prev, this`nextFree, this`prevFree, this`available
      ensures Ring(next, prev, End(), Offs(p.bs[..i] + [p.bs[i]]) + ([cut] + Offs(p.bs[if NextFree(p.bs, i) then i + 2 else i + 1..])))
      ensures Ring(nextFree, prevFree, HEAD, WithoutNext(p, i))
      ensures available == old(available) - if NextFree(p.bs, i) then UserSize(p.bs[i + 1]) else 0
    {
      hide Ring, Offs, Tiled, NoTwoFree, Roomy, FreeSum, FreeOffs, Tagged;
      ghost var a, z := Offs(p.bs[..i] + [p.bs[i]]), Offs(p.bs[if NextFree(p.bs, i) then i + 2 else i + 1..]);
      CutNext(next, prev, p, End(), i, cut, used);
      if !used[To(next, cut)] {
        var nx: nat := To(next, cut);
        available := available - (To(next, nx) - nx - 24);
        UnlinkBlock(nx, a + [cut], z, End());
        DropFree(nx, p.fl);
      }
      assert a + [cut] + z == a + ([cut] + z);
    }

    /** rt_memheap_realloc giving the end of a block back. */
    method ShrinkBlock(h: nat, n: nat, ghost i: nat)
      requires Valid() && i < |p.bs| && p.bs[i].off == h && p.bs[i].used && 12 <= n && n % 4 == 0 && n + 36 < UserSize(p.bs[i])
      modifies this
      ensures Valid() && p == Moved(old(p), i, h + 24 + n)
    {
      hide Ring, Offs, Tiled, NoTwoFree, Roomy, FreeSum, FreeOffs, Tagged;
      ghost var cut := h + 24 + n;
      SpaceBehind(p, End(), i, cut);
      WidenedRow(used, p, End(), i);
      CutUnlisted(p, End(), i, cut);
      MovedKeeps(p, End(), i, cut);
      CutBlock(h, h + 24 + n, p.bs, i);
      DropNext(h + 24 + n, i, old(used));
      PushFree(h + 24 + n, WithoutNext(p, i));
      MovedLinks(old(used), p, End(), i, cut);
      CutSize(next, prev, p, End(), i, cut);
      available := available + (To(next, h + 24 + n) - (h + 24 + n) - 24);
      p := Moved(p, i, cut);
    }

    ghost predicate LivePtr(ptr: int)
      reads this
    {
      ptr >= 24 && IndexOf(p.bs, ptr - 24) < |p.bs| && p.bs[IndexOf(p.bs, ptr - 24)].used
    }

    /** rt_memheap_realloc.  It leaves a heap in order unless the growth test wraps around. */
    method ReallocMem(ptr: int, newsize: nat) returns (r: int)
      requires Valid() && newsize < WORD && (ptr == NULL || LivePtr(ptr))
      modifies this
      ensures r == NULL || r >= 24
      ensures Valid() <==> !(old(LivePtr(ptr)) && Overruns(old(p.bs), IndexOf(old(p.bs), ptr - 24), newsize))
      ensures old(LivePtr(ptr)) ==> (p, if r == NULL then None else Some(r - 24)) == Realloc(old(p), ptr - 24, newsize)
      ensures ptr == NULL && newsize == 0 ==> p == old(p) && r == NULL
      ensures ptr == NULL && newsize != 0 ==> (p, if r == NULL then None else Some(r - 24)) == Alloc(old(p), Wanted(newsize))
    {
      hide Ring, Offs, Good, Tagged, Moved, Freed, Alloc, FreeSum;
      if newsize == 0 {
        FreeMem(ptr);
        return NULL;
      }
      var n := RoundUp(newsize);
      if n < 12 { n := 12; }
      if ptr == NULL {
        r := AllocMem(n);
      } else {
        r := ReallocLive(ptr, n, newsize);
      }
    }

    method ReallocLive(ptr: int, n: nat, ghost newsize: nat) returns (r: int)
      requires Valid() && LivePtr(ptr) && 0 < newsize < WORD && n == Wanted(newsize)
      modifies this
      ensures r == NULL || r >= 24
      ensures Valid() <==> !Overruns(old(p.bs), IndexOf(old(p.bs), ptr - 24), newsize)
      ensures (p, if r == NULL then None else Some(r - 24)) == Realloc(old(p), ptr - 24, newsize)
    {
      hide Ring, Offs, Tiled, NoTwoFree, Roomy, FreeSum, FreeOffs, Tagged, Moved, Freed, Alloc, GrowCut;
      var h: nat := ptr - 24;
      ghost var i := IndexOf(p.bs, h);
      WantedFacts(newsize);
      BlockFacts(next, prev, used, p, End(), i);
      GrowFacts(p, End(), h, newsize);
      var oldsize := To(next, h) - h - 24;
      if n > oldsize {
        r := GrowOrMove(ptr, n, newsize);
      } else if n + 36 >= oldsize {
        r := ptr;
      } else {
        ShrinkBlock(h, n, i);
        r := ptr;
      }
    }

    /** The block is too small. */
    method GrowOrMove(ptr: int, n: nat, ghost newsize: nat) returns (r: int)
      requires Valid() && LivePtr(ptr) && 0 < newsize < WORD && n == Wanted(newsize) > UserSize(p.bs[IndexOf(p.bs, ptr - 24)])
      modifies this
      ensures r == NULL || r >= 24
      ensures Valid() <==> !Overruns(old(p.bs), IndexOf(old(p.bs), ptr - 24), newsize)
      ensures (p, if r == NULL then None else Some(r - 24)) == Realloc(old(p), ptr - 24, newsize)
    {
      hide Ring, Offs, Tiled, NoTwoFree, Roomy, FreeSum, FreeOffs, Tagged, Moved, Freed, Alloc, GrowCut;
      var h: nat := ptr - 24;
      ghost var i := IndexOf(p.bs, h);
      WantedFacts(newsize);
      BlockFacts(next, prev, used, p, End(), i);
      SpaceBehind(p, End(), i, h);
      GrowFacts(p, End(), h, newsize);
      var nx, oldsize := To(next, h), To(next, h) - h - 24;
      if !used[nx] {
        var nextsize := To(next, nx) - nx - 24;
        if nextsize + oldsize > (n + 12) % WORD {
          GrowBlock(h, n, i);
          return ptr;
        }
      }
      r := MoveMem(ptr, n);
    }

    /** rt_memheap_realloc through a new block. */
    method MoveMem(ptr: int, n: nat) returns (r: int)
      requires Valid() && LivePtr(ptr) && 12 <= n < WORD && n % 4 == 0
      modifies this
      ensures Valid() && (r == NULL || r >= 24)
      ensures var (q, at) := Alloc(old(p), n);
        && r == (if at == None then NULL else at.value + 24)
        && p == if at == None then old(p) else Freed(q, if IndexOf(q.bs, ptr - 24) < |q.bs| then IndexOf(q.bs, ptr - 24) else IndexOf(old(p.bs), ptr - 24))
    {
      hide Ring, Offs, Tiled, NoTwoFree, Roomy, FreeSum, FreeOffs, Tagged, Freed, Alloc, Becomes;
      ReallocMoves(p, End(), ptr - 24, n);
      r := AllocMem(n);
      if r != NULL { FreeMem(ptr); }
    }

    /** rt_memheap_init. */
    constructor (size: nat)
      requires 60 <= size - size % 4 && size < WORD
      ensures Valid() && poolSize == size - size % 4 && p == Pool([Block(0, End(), false)], [0])
    {
      poolSize := size - size % 4;
      var e := size - size % 4 - 24;
      available := e - 24;
      maxUsed := 48;
      next, prev := map[0 := e, e := 0], map[0 := e, e := 0];
      nextFree, prevFree := map[HEAD := 0, 0 := HEAD], map[HEAD := 0, 0 := HEAD];
      used := map[0 := false, e := true];
      p := Pool([Block(0, e, false)], [0]);
      new;
      InitGood(e);
      TwoRing(next, prev, e, 0);
      TwoRing(nextFree, prevFree, HEAD, 0);
      OffsOne(p.bs[0]);
    }
  }

  lemma FreeSizeAt(next: Links, prev: Links, p: Pool, end: nat, k: nat)
    requires Good(p, end) && Ring(next, prev, end, Offs(p.bs)) && k < |p.fl|
    ensures To(next, p.fl[k]) - p.fl[k] - 24 == SizeAt(p.bs, p.fl[k])
  {
    ListedIsFree(p, end, k);
    BlockLinks(next, prev, p.bs, end, IndexOf(p.bs, p.fl[k]));
  }

  lemma OffsLast(a: seq<Block>, x: Block)
    ensures Offs(a + [x]) == Offs(a) + [x.off]
  {
    OffsConcat(a, [x]);
  }

  lemma {:induction false} OffsWithin(bs: seq<Block>, lo: nat, hi: nat, x: nat)
    requires Tiled(bs, lo, hi) && x in Offs(bs)
    ensures lo <= x < hi && IndexOf(bs, x) < |bs|
  {
    TiledEnds(bs[1..], bs[0].next, hi);
    if x != bs[0].off { OffsWithin(bs[1..], bs[0].next, hi, x); }
  }

  /** An offset inside block i is no block's header. */
  lemma CutAway(bs: seq<Block>, end: nat, i: nat, cut: nat)
    requires WellFormed(bs, end) && i < |bs| && bs[i].off < cut < bs[i].next
    ensures cut != end && cut !in Offs(bs[..i] + [bs[i]]) && cut !in Offs(bs[i + 1..])
  {
    var a, x, z := bs[..i], bs[i], bs[i + 1..];
    assert bs == a + [x] + z;
    At(bs, end, i);
    TiledAround(a, x, z, 0, end);
    OffsLast(a, x);
    if cut in Offs(a) { OffsWithin(a, 0, x.off, cut); }
    if cut in Offs(z) { OffsWithin(z, x.next, end, cut); }
  }

  lemma CutNotListed(p: Pool, end: nat, i: nat, cut: nat)
    requires Good(p, end) && i < |p.bs| && p.bs[i].off < cut < p.bs[i].next
    ensures cut !in p.fl && cut !in Without(p.fl, p.bs[i].off)
  {
    assert p.bs == p.bs[..i] + [p.bs[i]] + p.bs[i + 1..];
    FreeAround(p.bs[..i], p.bs[i], p.bs[i + 1..]);
    OffApart(p.bs[..i], p.bs[i], p.bs[i + 1..], end);
    WithoutMembers(p.fl, p.bs[i].off);
  }

  lemma OffsCut(a: seq<Block>, x: Block, z: seq<Block>, cut: nat)
    ensures Offs(a + [Block(x.off, cut, true)] + ([Block(cut, x.next, false)] + z)) == Offs(a + [x]) + ([cut] + Offs(z))
  {
    var y, rest := Block(x.off, cut, true), Block(cut, x.next, false);
    OffsAround(a, y, [rest] + z);
    OffsConcat([rest], z);
    OffsLast(a, x);
    assert Offs(a) + ([x.off] + ([cut] + Offs(z))) == Offs(a) + [x.off] + ([cut] + Offs(z));
    assert Offs([rest]) == [cut];
  }

  lemma TaggedCut(used: map<Node, bool>, a: seq<Block>, x: Block, z: seq<Block>, end: nat, cut: nat)
    requires Tagged(used, a + [x] + z) && WellFormed(a + [x] + z, end) && x.off < cut < x.next
    ensures Tagged(used[cut := false][x.off := true], a + [Block(x.off, cut, true)] + ([Block(cut, x.next, false)] + z))
    ensures cut < end
  {
    var y, rest := Block(x.off, cut, true), Block(cut, x.next, false);
    TiledAround(a, x, z, 0, end);
    TiledEnds(z, x.next, end);
    TaggedAround(used, a, x, z);
    TaggedFrame(used, a, 0, x.off, cut, false);
    TaggedFrame(used[cut := false], a, 0, x.off, x.off, true);
    TaggedFrame(used, z, x.next, end, cut, false);
    TaggedFrame(used[cut := false], z, x.next, end, x.off, true);
    var used' := used[cut := false][x.off := true];
    TaggedConcat(used', [rest], z);
    assert Tagged(used', [rest]);
    TaggedAround(used', a, y, [rest] + z);
  }

  lemma Retag(used: map<Node, bool>, a: seq<Block>, x: Block, z: seq<Block>, end: nat, b: bool)
    requires Tagged(used, a + [x] + z) && WellFormed(a + [x] + z, end)
    ensures Tagged(used[x.off := b], a + [x.(used := b)] + z) && x.off < end
  {
    TiledAround(a, x, z, 0, end);
    TiledEnds(z, x.next, end);
    TaggedAround(used, a, x, z);
    TaggedFrame(used, a, 0, x.off, x.off, b);
    TaggedFrame(used, z, x.next, end, x.off, b);
    TaggedAround(used[x.off := b], a, x.(used := b), z);
  }

  lemma PrevLink(next: Links, prev: Links, used: map<Node, bool>, a: seq<Block>, x: Block, z: seq<Block>, end: nat)
    requires Ring(next, prev, end, Offs(a + [x] + z)) && Tiled(a + [x] + z, 0, end)
    requires Tagged(used, a + [x] + z) && end in used && used[end]
    ensures To(prev, x.off) == (if a == [] then end else HeapBlocks.Last(a).off) && To(prev, x.off) in used
    ensures used[To(prev, x.off)] == (a == [] || HeapBlocks.Last(a).used)
  {
    BlockLinks(next, prev, a + [x] + z, end, |a|);
    TaggedConcat(used, a, [x] + z);
    assert a + [x] + z == a + ([x] + z);
    if a != [] {
      assert a == a[..|a| - 1] + [HeapBlocks.Last(a)] + [];
      TaggedAround(used, a[..|a| - 1], HeapBlocks.Last(a), []);
    }
  }

  lemma NextLink(next: Links, prev: Links, used: map<Node, bool>, a: seq<Block>, x: Block, z: seq<Block>, end: nat)
    requires Ring(next, prev, end, Offs(a + [x] + z)) && Tiled(a + [x] + z, 0, end)
    requires Tagged(used, a + [x] + z) && end in used && used[end]
    ensures To(next, x.off) == (if z == [] then end else z[0].off) && To(next, x.off) in used
    ensures used[To(next, x.off)] == (z == [] || z[0].used)
  {
    BlockLinks(next, prev, a + [x] + z, end, |a|);
    TiledAt(a + [x] + z, 0, end, |a|);
    TaggedAround(used, a, x, z);
  }

  lemma JoinLeft(used: map<Node, bool>, a: seq<Block>, x: Block, z: seq<Block>)
    requires a != [] && !HeapBlocks.Last(a).used && !x.used && Tagged(used, a + [x] + z)
    ensures var (a1, x1) := Backward(a, x); Offs(a1 + [x1] + z) == Offs(a) + Offs(z) && Tagged(used, a1 + [x1] + z)
  {
    var (a1, x1) := Backward(a, x);
    assert a == a1 + [HeapBlocks.Last(a)];
    TaggedAround(used, a, x, z);
    TaggedAround(used, a1, HeapBlocks.Last(a), []);
    assert a1 + [HeapBlocks.Last(a)] + [] == a;
    TaggedAround(used, a1, x1, z);
    OffsLast(a1, HeapBlocks.Last(a));
    OffsAround(a1, x1, z);
    assert Offs(a1) + ([x1.off] + Offs(z)) == Offs(a1) + [x1.off] + Offs(z);
  }

  lemma JoinRight(used: map<Node, bool>, a: seq<Block>, x: Block, z: seq<Block>)
    requires z != [] && !z[0].used && !x.used && Tagged(used, a + [x] + z)
    ensures var (x1, z1) := Forward(x, z); Offs(a + [x1] + z1) == Offs(a + [x]) + Offs(z1) && Tagged(used, a + [x1] + z1)
    ensures a + [x] + z == a + [x] + [z[0]] + z[1..]
  {
    var (x1, z1) := Forward(x, z);
    TaggedAround(used, a, x, z);
    TaggedAround(used, a, x1, z1);
    OffsLast(a, x);
    OffsAround(a, x1, z1);
    assert Offs(a) + ([x1.off] + Offs(z1)) == Offs(a) + [x1.off] + Offs(z1);
    assert z == [z[0]] + z[1..];
  }

  /** Freeing block i: the row with its bit cleared, and what its neighbours are. */
  lemma FreeSetup(used: map<Node, bool>, p: Pool, end: nat, i: nat)
    requires Good(p, end) && Tagged(used, p.bs) && i < |p.bs| && p.bs[i].used
    ensures var a, x, z := p.bs[..i], p.bs[i].(used := false), p.bs[i + 1..];
      && Tagged(used[x.off := false], a + [x] + z) && Tiled(a + [x] + z, 0, end) && Offs(a + [x] + z) == Offs(p.bs)
      && (NextFree(p.bs, i) ==> p.bs[i + 1].off in p.fl)
      && x.off < end && x.off !in WithoutNext(p, i) && UserSize(x) >= 12
      && (var (a1, x1) := Backward(a, x); Tiled(a1 + [x1] + z, 0, end) && (var (x2, z2) := Forward(x1, z); Release(p.bs, i) == a1 + [x2] + z2))
  {
    hide FreeSum, FreeOffs, NoTwoFree, Tagged, Offs;
    var a, x, z := p.bs[..i], p.bs[i].(used := false), p.bs[i + 1..];
    assert p.bs == a + [p.bs[i]] + z;
    Retag(used, a, p.bs[i], z, end, false);
    TiledAround(a, p.bs[i], z, 0, end);
    TiledAround(a, x, z, 0, end);
    OffsAround(a, x, z);
    OffsAround(a, p.bs[i], z);
    if NextFree(p.bs, i) { FreeIsListed(p, end, i + 1); }
    WithoutNextKeeps(p, end, i);
    FreeAround(a, p.bs[i], z);
    OffApart(a, p.bs[i], z, end);
    BackwardTiled(a, x, z, end);
  }

  lemma BackwardTiled(a: seq<Block>, x: Block, z: seq<Block>, end: nat)
    requires Tiled(a + [x] + z, 0, end)
    ensures var (a1, x1) := Backward(a, x); Tiled(a1 + [x1] + z, 0, end)
  {
    if a != [] && !HeapBlocks.Last(a).used {
      TiledAround(a, x, z, 0, end);
      assert a == a[..|a| - 1] + [HeapBlocks.Last(a)] + [];
      TiledAround(a[..|a| - 1], HeapBlocks.Last(a), [], 0, x.off);
      TiledAround(a[..|a| - 1], x.(off := HeapBlocks.Last(a).off), z, 0, end);
    }
  }

  /** The row with used block i taking in its free successor, if any. */
  function Widened(bs: seq<Block>, i: nat): seq<Block>
    requires i < |bs|
  {
    bs[..i] + [bs[i].(next := SpaceEnd(bs, i))] + bs[if NextFree(bs, i) then i + 2 else i + 1..]
  }

  lemma SpaceBehind(p: Pool, end: nat, i: nat, cut: nat)
    requires Good(p, end) && i < |p.bs|
    ensures NextFree(p.bs, i) ==> SpaceEnd(p.bs, i) == p.bs[i].next + 24 + UserSize(p.bs[i + 1]) && p.bs[i + 1].off == p.bs[i].next
    ensures SpaceEnd(p.bs, i) >= p.bs[i].next && p.bs[i].off % 4 == 0
  {
    At(p.bs, end, i);
    if NextFree(p.bs, i) { At(p.bs, end, i + 1); }
  }

  lemma WidenedRow(used: map<Node, bool>, p: Pool, end: nat, i: nat)
    requires Good(p, end) && Tagged(used, p.bs) && i < |p.bs| && p.bs[i].used
    ensures var r, a, z' := Widened(p.bs, i), p.bs[..i] + [p.bs[i]], p.bs[if NextFree(p.bs, i) then i + 2 else i + 1..];
      && WellFormed(r, end) && Tagged(used, r) && r[i].off == p.bs[i].off && r[..i] == p.bs[..i] && r[i + 1..] == z'
      && Offs(r) == Offs(a) + Offs(z') && Offs(r[..i] + [r[i]]) == Offs(a)
      && (NextFree(p.bs, i) ==>
            && p.bs[i + 1].off in p.fl && Offs(p.bs[i + 1..]) == [p.bs[i + 1].off] + Offs(z')
            && Offs(p.bs) == Offs(a) + ([p.bs[i + 1].off] + Offs(z')))
  {
    hide Roomy, FreeSum, FreeOffs, Distinct;
    var a, x, z := p.bs[..i], p.bs[i], p.bs[i + 1..];
    var r, big := Widened(p.bs, i), x.(next := SpaceEnd(p.bs, i));
    var z' := p.bs[if NextFree(p.bs, i) then i + 2 else i + 1..];
    assert p.bs == a + [x] + z;
    OffsLast(a, x);
    OffsLast(a, big);
    OffsConcat(a + [big], z');
    WidenedShape(a, x, z, end);
    TaggedAround(used, a, x, z);
    if NextFree(p.bs, i) {
      assert z == [p.bs[i + 1]] + z';
      FreeIsListed(p, end, i + 1);
      OffsConcat(a + [x], z);
    }
    TaggedAround(used, a, big, z');
  }

  lemma WidenedShape(a: seq<Block>, x: Block, z: seq<Block>, end: nat)
    requires WellFormed(a + [x] + z, end) && x.used
    ensures var free := z != [] && !z[0].used;
      WellFormed(a + [x.(next := if free then z[0].next else x.next)] + if free then z[1..] else z, end)
  {
    hide Live, UsedSum, Lowest;
    var free := z != [] && !z[0].used;
    TiledAround(a, x, z, 0, end);
    NoTwoFreeAround(a, x, z);
    TiledAround(a, x.(next := if free then z[0].next else x.next), if free then z[1..] else z, 0, end);
    NoTwoFreeAround(a, x.(next := if free then z[0].next else x.next), if free then z[1..] else z);
  }

  lemma CutUnlisted(p: Pool, end: nat, i: nat, cut: nat)
    requires Good(p, end) && i < |p.bs| && p.bs[i].used && p.bs[i].off < cut < SpaceEnd(p.bs, i)
    ensures cut !in WithoutNext(p, i)
  {
    CutApart(p.bs, end, i, cut);
    WithoutNextKeeps(p, end, i);
  }

  /** The links of the row after the cut. */
  lemma MovedLinks(used: map<Node, bool>, p: Pool, end: nat, i: nat, cut: nat)
    requires Good(p, end) && Tagged(used, p.bs) && i < |p.bs| && p.bs[i].used && p.bs[i].off < cut < SpaceEnd(p.bs, i)
    ensures var a, z' := p.bs[..i] + [p.bs[i]], p.bs[if NextFree(p.bs, i) then i + 2 else i + 1..];
      Offs(Moved(p, i, cut).bs) == Offs(a) + ([cut] + Offs(z')) && Tagged(used[cut := false], Moved(p, i, cut).bs) && cut < end
  {
    hide Offs, Tiled, NoTwoFree, Roomy, FreeSum, FreeOffs, Tagged;
    var big := p.bs[i].(next := SpaceEnd(p.bs, i));
    var a, z' := p.bs[..i], p.bs[if NextFree(p.bs, i) then i + 2 else i + 1..];
    WidenedRow(used, p, end, i);
    OffsCut(a, big, z', cut);
    OffsLast(a, big);
    OffsLast(a, p.bs[i]);
    TaggedCut(used, a, big, z', end, cut);
    UsedTag(used, p.bs, i);
    assert used[cut := false][big.off := true] == used[cut := false];
  }

  lemma UsedTag(used: map<Node, bool>, bs: seq<Block>, i: nat)
    requires Tagged(used, bs) && i < |bs|
    ensures bs[i].off in used && used[bs[i].off] == bs[i].used
  {
    assert bs == bs[..i] + [bs[i]] + bs[i + 1..];
    TaggedAround(used, bs[..i], bs[i], bs[i + 1..]);
  }

  /** The successor of the header just made at cut. */
  lemma CutNext(next: Links, prev: Links, p: Pool, end: nat, i: nat, cut: nat, used: map<Node, bool>)
    requires Good(p, end) && i < |p.bs| && p.bs[i].off < cut < p.bs[i].next
    requires Ring(next, prev, end, Offs(p.bs[..i] + [p.bs[i]]) + ([cut] + Offs(p.bs[i + 1..])))
    requires exists tags: map<Node, bool> :: Tagged(tags, p.bs) && end in tags && tags[end] && used == tags[cut := false]
    ensures To(next, cut) == (if i + 1 < |p.bs| then p.bs[i + 1].off else end) && To(next, cut) in used
    ensures !used[To(next, cut)] <==> NextFree(p.bs, i)
    ensures NextFree(p.bs, i) ==>
      && To(next, p.bs[i + 1].off) == p.bs[i + 1].next
      && Offs(p.bs[..i] + [p.bs[i]]) + ([cut] + Offs(p.bs[i + 1..])) == (Offs(p.bs[..i] + [p.bs[i]]) + [cut]) + ([p.bs[i + 1].off] + Offs(p.bs[i + 2..]))
  {
    hide Ring, Offs, Tiled, NoTwoFree, Roomy, FreeSum, FreeOffs, Tagged;
    var tags: map<Node, bool> :| Tagged(tags, p.bs) && end in tags && tags[end] && used == tags[cut := false];
    var a, z := Offs(p.bs[..i] + [p.bs[i]]), Offs(p.bs[i + 1..]);
    assert (a + [cut]) + z == a + ([cut] + z);
    NeighboursIn(next, prev, end, a + [cut], z);
    At(p.bs, end, i);
    if i + 1 < |p.bs| {
      OffsAt(p.bs[i + 1..], 0);
      UsedTag(tags, p.bs, i + 1);
      At(p.bs, end, i + 1);
      assert p.bs[i + 1..] == [p.bs[i + 1]] + p.bs[i + 2..];
      OffsConcat([p.bs[i + 1]], p.bs[i + 2..]);
      OffsOne(p.bs[i + 1]);
      var rest := Offs(p.bs[i + 2..]);
      assert (a + [cut] + [p.bs[i + 1].off]) + rest == a + ([cut] + z);
      NeighboursIn(next, prev, end, a + [cut] + [p.bs[i + 1].off], rest);
      if i + 2 < |p.bs| { OffsAt(p.bs[i + 2..], 0); }
    }
  }

  lemma OffsOne(b: Block)
    ensures Offs([b]) == [b.off]
  {
    assert [b][1..] == [];
  }

  /** The size of the free block behind the cut. */
  lemma CutSize(next: Links, prev: Links, p: Pool, end: nat, i: nat, cut: nat)
    requires i < |p.bs| && Good(Moved(p, i, cut), end) && Ring(next, prev, end, Offs(Moved(p, i, cut).bs))
    ensures To(next, cut) == SpaceEnd(p.bs, i)
  {
    var r := Moved(p, i, cut).bs;
    assert r[i + 1] == Block(cut, SpaceEnd(p.bs, i), false);
    BlockLinks(next, prev, r, end, i + 1);
  }

  lemma WantedFacts(newsize: nat)
    requires newsize < WORD
    ensures var n := Wanted(newsize); 12 <= n < WORD && n % 4 == 0
  {
  }

  /** What the growth test means for the cut, with and without a wrap. */
  lemma GrowFacts(p: Pool, end: nat, off: nat, newsize: nat)
    requires Good(p, end) && end + 24 < WORD && newsize < WORD && IndexOf(p.bs, off) < |p.bs| && p.bs[IndexOf(p.bs, off)].used
    ensures var i, n := IndexOf(p.bs, off), Wanted(newsize);
      && (NextFree(p.bs, i) && n > UserSize(p.bs[i]) && GrowTest(UserSize(p.bs[i + 1]), UserSize(p.bs[i]), n) ==>
          off < GrowCut(off, n) < SpaceEnd(p.bs, i) && (!Overruns(p.bs, i, newsize) ==> n + 12 < UserSize(p.bs[i]) + UserSize(p.bs[i + 1])))
      && (Overruns(p.bs, i, newsize) ==>
          && n > UserSize(p.bs[i]) && GrowTest(UserSize(p.bs[i + 1]), UserSize(p.bs[i]), n)
          && !Good(Moved(p, i, GrowCut(off, n)), end))
  {
    hide Tiled, NoTwoFree, Roomy, FreeSum, FreeOffs, Moved, Wanted, Realloc, Good;
    var i, n := IndexOf(p.bs, off), Wanted(newsize);
    WantedFacts(newsize);
    SizeBounds(p, end, i);
    if NextFree(p.bs, i) { SizeBounds(p, end, i + 1); }
    SpaceBehind(p, end, i, off);
    if Overruns(p.bs, i, newsize) {
      GrowWraps(p, end, off, newsize);
      CutInHeader(p, end, i, GrowCut(off, n));
    } else {
      NoWrap(newsize, off);
    }
  }

  lemma NoWrap(newsize: nat, off: nat)
    requires newsize < WORD
    ensures var n := Wanted(newsize);
      (newsize <= WORD - 16 || newsize > WORD - 4 ==> (n + 12) % WORD == n + 12) && (off + 24 + n < WORD ==> GrowCut(off, n) == off + 24 + n)
  {
  }

  lemma GrownKeeps(p: Pool, end: nat, i: nat, n: nat)
    requires Good(p, end) && end + 24 < WORD && i < |p.bs| && p.bs[i].used && NextFree(p.bs, i)
    ensures n % 4 == 0 && n >= 12 && n + 12 < UserSize(p.bs[i]) + UserSize(p.bs[i + 1]) ==>
      var r := Moved(p, i, GrowCut(p.bs[i].off, n));
      Good(r, end) && FreeSum(r.bs) == FreeSum(p.bs) - (n - UserSize(p.bs[i]))
  {
    hide Tiled, NoTwoFree, Roomy, FreeSum, FreeOffs, Moved;
    SpaceBehind(p, end, i, 0);
    SizeBounds(p, end, i);
    SizeBounds(p, end, i + 1);
    if n % 4 == 0 && n >= 12 && n + 12 < UserSize(p.bs[i]) + UserSize(p.bs[i + 1]) {
      MovedKeeps(p, end, i, p.bs[i].off + 24 + n);
    }
  }

  /** What the links and tags around block i hold. */
  lemma BlockFacts(next: Links, prev: Links, used: map<Node, bool>, p: Pool, end: nat, i: nat)
    requires Good(p, end) && Ring(next, prev, end, Offs(p.bs)) && Tagged(used, p.bs) && end in used && used[end] && i < |p.bs|
    ensures To(next, p.bs[i].off) == p.bs[i].next && To(next, p.bs[i].off) in used
    ensures !used[To(next, p.bs[i].off)] <==> NextFree(p.bs, i)
    ensures NextFree(p.bs, i) ==> To(next, p.bs[i].next) == p.bs[i + 1].next && p.bs[i + 1].off == p.bs[i].next
  {
    var a, x, z := p.bs[..i], p.bs[i], p.bs[i + 1..];
    assert p.bs == a + [x] + z;
    BlockLinks(next, prev, p.bs, end, i);
    NextLink(next, prev, used, a, x, z, end);
    if NextFree(p.bs, i) { BlockLinks(next, prev, p.bs, end, i + 1); }
  }

  lemma InitGood(end: nat)
    requires end % 4 == 0 && end >= 36
    ensures var b := Block(0, end, false); Good(Pool([b], [0]), end) && FreeSum([b]) == end - 24
  {
    var b := Block(0, end, false);
    assert [b][1..] == [];
    OneFree(b);
    HeadSums(b);
    assert Tiled([b][1..], end, end);
  }

  lemma TwoRing(next: Links, prev: Links, h: Node, x: Node)
    requires h != x && To(next, h) == x && To(next, x) == h && To(prev, h) == x && To(prev, x) == h
    ensures Ring(next, prev, h, [x])
  {
    assert [h] + [x] + [h] == [h, x, h] && [h, x, h][1..] == [x, h] && [x, h][1..] == [h];
    assert Steps(next, prev, [x, h]);
  }
}
