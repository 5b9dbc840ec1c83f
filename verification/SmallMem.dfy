/** The system heap of rt-thread/src/mem.c, in place.

    Offsets count from heap_ptr; a user pointer is heapPtr + offset + 12, and 0 is the null
    pointer.  Each public operation is atomic: the program holds heap_sem around it. */
module SmallMem {
  import opened HeapBlocks
  import opened HeapRuns
  import opened HeapImage

  /** Copying into the user bytes of live block y. */
  lemma CopiedInto(m: seq<int>, bs: seq<Block>, y: Block, end: nat, to: nat, from: nat, len: nat)
    requires WellFormed(bs, end) && Image(m, bs, end) && y in Live(bs) && y.off + 12 == to && to + len <= y.next
    requires from + len <= |m| && (from + len <= to || to + len <= from)
    ensures to + len <= |m|
    ensures var m' := Copied(m, to, from, len);
      && Image(m', bs, end) && SameUser(m, m', Live(bs) - {y}) && Kept(m, m', to, from, len)
  {
    var k := IndexOf(bs, y.off);
    IndexOfLive(bs, 0, end, y);
    At(bs, end, k);
    assert bs == bs[..k] + [y] + bs[k + 1..];
    LiveSplit(bs, k);
    hide Tiled, NoTwoFree, Live, Spelled;
    UserWrite(m, Copied(m, to, from, len), bs[..k], y, bs[k + 1..], end);
  }

  class Heap {
    const heapPtr: nat
    const memSize: nat        // mem_size_aligned
    const mem: array<int>
    var lfree: nat
    var usedMem: int
    var maxMem: int
    ghost var blocks: seq<Block>

    function End(): nat { memSize + 12 }

    ghost predicate Valid()
      reads this, mem
    {
      && heapPtr % 4 == 0 && heapPtr + End() + 12 <= WORD
      && WellFormed(blocks, End())
      && Image(mem[..], blocks, End())
      && lfree == Lowest(blocks, End())
      && usedMem == UsedSum(blocks) <= maxMem
      && forall b :: b in Live(blocks) ==> b.Size() >= 4
    }

    /** p is what an allocation returned and has not been freed since. */
    ghost predicate LivePtr(p: nat)
      reads this
    {
      p >= heapPtr + 12 && IndexOf(blocks, p - heapPtr - 12) < |blocks| && blocks[IndexOf(blocks, p - heapPtr - 12)].used
    }

    ghost function IndexAt(p: nat): nat
      requires p >= heapPtr + 12
      reads this
    {
      IndexOf(blocks, p - heapPtr - 12)
    }

    /** The range test rt_free and rt_realloc make before trusting a pointer. */
    predicate Outside(p: nat) { p < heapPtr || p >= heapPtr + End() }

    /** The forward half of plug_holes, on the free block x at offset m. */
    method PlugForward(m: nat, ghost a: seq<Block>, ghost x: Block, ghost z: seq<Block>)
      requires x.off == m && Image(mem[..], a + [x] + z, End())
      modifies this`lfree, mem
      ensures var (x1, z1) := Forward(x, z);
        && Image(mem[..], a + [x1] + z1, End())
        && lfree == if old(lfree) == x.next && x1 != x then m else old(lfree)
      ensures SameUser(old(mem[..]), mem[..], Live(a) + Live(z))
    {
      ReadNext(mem[..], a, x, z, End());
      var nmem := mem[m + 4];
      if m != nmem && mem[nmem + 2] == 0 && nmem != End() {
        if lfree == nmem { lfree := m; }
        ForwardWrite(mem[..], a, x, z, End());
        mem[m + 4] := mem[nmem + 4];
        mem[mem[nmem + 4] + 8] := m;
        assert mem[..] == Merged(old(mem[..]), m, z[0].next);
      }
    }

    /** The backward half. */
    method PlugBackward(m: nat, ghost a: seq<Block>, ghost x: Block, ghost z: seq<Block>)
      requires x.off == m && !x.used && Image(mem[..], a + [x] + z, End())
      modifies this`lfree, mem
      ensures var (a1, x1) := Backward(a, x);
        && Image(mem[..], a1 + [x1] + z, End())
        && lfree == (if old(lfree) == m then x1.off else old(lfree))
        && SameUser(old(mem[..]), mem[..], Live(a1) + Live(z))
    {
      ReadBack(mem[..], a, x, z, End());
      var pmem := mem[m + 8];
      if pmem != m && mem[pmem + 2] == 0 {
        if lfree == m { lfree := pmem; }
        BackwardWrite(mem[..], a, x, z, End());
        mem[pmem + 4] := mem[m + 4];
        mem[mem[m + 4] + 8] := pmem;
        assert mem[..] == Merged(old(mem[..]), pmem, x.next);
      }
    }

    /** plug_holes on the free block x at offset m. */
    method PlugHoles(m: nat, ghost a: seq<Block>, ghost x: Block, ghost z: seq<Block>)
      requires x.off == m && !x.used && Image(mem[..], a + [x] + z, End()) && NoTwoFree(a) && NoTwoFree(z)
      requires lfree == Lowest(a, m)
      modifies this`lfree, mem
      ensures Image(mem[..], Plug(a, x, z), End())
      ensures lfree == Lowest(Plug(a, x, z), End())
      ensures SameUser(old(mem[..]), mem[..], Live(a) + Live(z))
    {
      PlugKeeps(a, x, z, End());
      PlugParts(a, x, z, End());
      PlugForward(m, a, x, z);
      PlugBackward(m, a, Forward(x, z).0, Forward(x, z).1);
    }
  
    method Free(rmem: nat)
      requires Valid() && (rmem == 0 || Outside(rmem) || LivePtr(rmem))
      modifies this, mem
      ensures Valid() && maxMem == old(maxMem)
      ensures old(LivePtr(rmem)) ==>
        && blocks == FreeAt(old(blocks), rmem - heapPtr - 12)
        && SameUser(old(mem[..]), mem[..], Live(blocks))
      ensures !old(LivePtr(rmem)) ==> blocks == old(blocks) && mem[..] == old(mem[..])
    {
      if rmem == 0 { return; }
      LiveInside(rmem);
      if rmem < heapPtr || rmem >= heapPtr + End() { return; }
      FreeBlock(rmem - 12 - heapPtr, IndexAt(rmem));
    }

    /** rt_free, once the pointer has been turned into the header offset m. */
    method FreeBlock(m: nat, ghost i: nat)
      requires Valid() && i < |blocks| && blocks[i].off == m && blocks[i].used
      modifies this, mem
      ensures Valid() && maxMem == old(maxMem)
      ensures blocks == Release(old(blocks), i)
      ensures SameUser(old(mem[..]), mem[..], Live(blocks))
    {
      hide Tiled, NoTwoFree, Live, UsedSum, Lowest, Spelled, Plug;
      ghost var a, x, z := blocks[..i], blocks[i], blocks[i + 1..];
      assert blocks == a + [x] + z;
      FreeWrite(mem[..], a, x, z, End());
      mem[m + 2] := 0;
      mem[m] := HEAP_MAGIC;
      assert mem[..] == old(mem[..])[m + 2 := 0];
      if m < lfree { lfree := m; }
      usedMem := usedMem - (mem[m + 4] - m);
      PlugHoles(m, a, x.(used := false), z);
      ReleaseKeeps(blocks, End(), i);
      PlugKeeps(a, x.(used := false), z, End());
      blocks := Release(blocks, i);
    }

    lemma LiveInside(p: nat)
      requires Valid()
      ensures LivePtr(p) ==> !Outside(p) && p != 0
    {
      if LivePtr(p) {
        var i := IndexAt(p);
        assert blocks == blocks[..i] + [blocks[i]] + blocks[i + 1..];
        Around(blocks[..i], blocks[i], blocks[i + 1..], 0, End());
        At(blocks, End(), i);
      }
    }
  
    /** The search loop of rt_malloc has a bound it can reach; see TinyHeapSearch for the rest. */
    predicate Searchable(size: nat)
      requires size < WORD
    {
      Request(size, memSize) == None || memSize >= 12
    }

    /** The user pointer for block k of a row, null when there is no such block. */
    ghost function PointerTo(bs: seq<Block>, k: nat): nat {
      if k < |bs| then heapPtr + bs[k].off + 12 else 0
    }

    method Malloc(size: nat) returns (p: nat)
      requires Valid() && size < WORD && Searchable(size)
      modifies this, mem
      ensures Valid() && maxMem == (if usedMem > old(maxMem) then usedMem else old(maxMem))
      ensures blocks == AfterMalloc(old(blocks), memSize, size)
      ensures p == PointerTo(old(blocks), Room(old(blocks), memSize, size))
      ensures p != 0 ==>
        var n := if RoundUp(size) < 12 then 12 else RoundUp(size);
        p % 4 == 0 && LivePtr(p) && n <= blocks[IndexAt(p)].Size() < n + 24
      ensures SameUser(old(mem[..]), mem[..], old(Live(blocks)))
    {
      hide Tiled, NoTwoFree, Live, UsedSum, Lowest, Spelled, Take, IndexOf;
      if size == 0 { return 0; }
      var n := RoundUp(size);
      if n > memSize { return 0; }
      if n < MIN_SIZE { n := MIN_SIZE; }
      var ptr := lfree;
      ghost var k: nat := LowestIndex(blocks, End());
      while ptr < memSize - n
        invariant Valid() && blocks == old(blocks) && mem[..] == old(mem[..]) && usedMem == old(usedMem) && maxMem == old(maxMem)
        invariant k <= |blocks| && ptr == if k < |blocks| then blocks[k].off else End()
        invariant forall j :: 0 <= j < k ==> !Fits(blocks[j], n, memSize)
        decreases End() - ptr
      {
        HeaderOf(mem[..], blocks, End(), k);
        At(blocks, End(), k);
        if mem[ptr + 2] == 0 && mem[ptr + 4] - (ptr + 12) >= n {
          assert FirstFit(blocks, n, memSize) == k;
          p := HandOut(ptr, n, k);
          return;
        }
        ptr := mem[ptr + 4];
        k := k + 1;
      }
      forall j | k <= j < |blocks| ensures !Fits(blocks[j], n, memSize) { OffsOrdered(blocks, 0, End(), k, j); }
      assert FirstFit(blocks, n, memSize) == |blocks|;
      return 0;
    }

    /** The body of rt_malloc's search loop once the block at ptr fits. */
    method HandOut(ptr: nat, n: nat, ghost k: nat) returns (p: nat)
      requires Valid() && k < |blocks| && blocks[k].off == ptr && !blocks[k].used && blocks[k].Size() >= n >= 12 && n % 4 == 0
      modifies this, mem
      ensures Valid() && maxMem == (if usedMem > old(maxMem) then usedMem else old(maxMem))
      ensures SameUser(old(mem[..]), mem[..], old(Live(blocks)))
      ensures p == heapPtr + ptr + 12 && blocks == Take(old(blocks), k, n)
      ensures p % 4 == 0 && LivePtr(p) && n <= blocks[IndexAt(p)].Size() < n + 24
      ensures old(blocks)[k].Size() >= n + 24 ==> blocks[IndexAt(p)].Size() == n
    {
      hide Take, Given, UsedSum, Live, NoTwoFree, Tiled, Spelled, IndexOf;
      ghost var bs := blocks;
      if ptr == lfree { UsedBefore(blocks, End(), k); } else { TakeLowest(blocks, End(), k, n); }
      TakeKeeps(blocks, End(), k, n);
      TakenAt(blocks, End(), k, n);
      At(blocks, End(), k);
      MarkTaken(ptr, n, k);
      assert forall i :: 0 <= i < k ==> blocks[i] == blocks[..k][i] == bs[..k][i] == bs[i];
      if ptr == lfree { NextFree(k); }
      return heapPtr + ptr + 12;
    }

    /** Find the next free block after a lowest one that is now in use. */
    method NextFree(ghost k: nat)
      requires Image(mem[..], blocks, End()) && WellFormed(blocks, End())
      requires k < |blocks| && lfree == blocks[k].off && forall i :: 0 <= i < k ==> blocks[i].used
      modifies this`lfree
      ensures lfree == Lowest(blocks, End())
    {
      ghost var j: nat := k;
      HeaderOf(mem[..], blocks, End(), j);
      At(blocks, End(), j);
      while mem[lfree + 2] == 1 && lfree != End()
        invariant j <= |blocks| && lfree == (if j < |blocks| then blocks[j].off else End())
        invariant lfree <= End() && (j < |blocks| ==> lfree < End() && HeaderAt(mem[..], blocks[j], if j == 0 then 0 else blocks[j - 1].off))
        invariant forall i :: 0 <= i < j ==> blocks[i].used
        decreases |blocks| - j
      {
        At(blocks, End(), j);
        lfree := mem[lfree + 4];
        j := j + 1;
        if j < |blocks| {
          HeaderOf(mem[..], blocks, End(), j);
          At(blocks, End(), j);
        }
      }
      LowestIs(blocks, End(), j);
    }

    method MarkTaken(ptr: nat, n: nat, ghost k: nat)
      requires Valid() && k < |blocks| && blocks[k].off == ptr && !blocks[k].used && blocks[k].Size() >= n >= 12 && n % 4 == 0
      modifies this`usedMem, this`maxMem, this`blocks, mem
      ensures blocks == Take(old(blocks), k, n)
      ensures Image(mem[..], blocks, End())
      ensures SameUser(old(mem[..]), mem[..], old(Live(blocks)))
      ensures usedMem == old(usedMem) + Given(old(blocks)[k], n).Span()
      ensures maxMem == (if usedMem > old(maxMem) then usedMem else old(maxMem))
    {
      ghost var a, x, z := blocks[..k], blocks[k], blocks[k + 1..];
      assert blocks == a + [x] + z;
      TakeWrite(mem[..], a, x, z, End(), n);
      assert SameUser(mem[..], Taken(mem[..], x, n, End()), Live(blocks)) by {
        TakeSafe(mem[..], a, x, z, End(), n);
        Around(a, x, z, 0, End());
      }
      WriteTaken(ptr, n, x);
      blocks := Take(blocks, k, n);
    }

    method WriteTaken(ptr: nat, n: nat, ghost x: Block)
      requires x.off == ptr && ptr + 12 <= x.next <= End() && mem.Length == End() + 12 && (x.next < End() ==> x.next + 12 <= End())
      requires mem[ptr] == HEAP_MAGIC && mem[ptr + 4] == x.next && x.Size() >= n
      modifies this`usedMem, this`maxMem, mem
      ensures mem[..] == Taken(old(mem[..]), x, n, End())
      ensures usedMem == old(usedMem) + Given(x, n).Span()
      ensures maxMem == (if usedMem > old(maxMem) then usedMem else old(maxMem))
    {
      if mem[ptr + 4] - (ptr + 12) >= n + HEADER + MIN_SIZE {
        mem[ptr + 2] := 1;
        WriteCut(ptr, ptr + 12 + n, x);
        usedMem := usedMem + (n + 12);
        if maxMem < usedMem { maxMem := usedMem; }
      } else {
        mem[ptr + 2] := 1;
        usedMem := usedMem + (mem[ptr + 4] - ptr);
        if maxMem < usedMem { maxMem := usedMem; }
      }
      mem[ptr] := HEAP_MAGIC;
    }

    /** Create the free header mem2 at ptr2 inside the block at ptr. */
    method WriteCut(ptr: nat, ptr2: nat, ghost x: Block)
      requires x.off == ptr && ptr + 12 <= ptr2 && ptr2 + 12 <= x.next <= End() && mem.Length == End() + 12
      requires mem[ptr + 4] == x.next && (x.next < End() ==> x.next + 12 <= End())
      modifies mem
      ensures mem[..] == Cut(old(mem[..]), x, ptr2, End())
    {
      mem[ptr2] := HEAP_MAGIC;
      mem[ptr2 + 2] := 0;
      mem[ptr2 + 4] := mem[ptr + 4];
      mem[ptr2 + 8] := ptr;
      mem[ptr + 4] := ptr2;
      if mem[ptr2 + 4] != memSize + 12 { mem[mem[ptr2 + 4] + 8] := ptr2; }
    }
  
    /** The part of rt_realloc that cuts a block down in place. */
    method ShrinkBlock(ptr: nat, size: nat, n: nat, ghost i: nat)
      requires Valid() && i < |blocks| && blocks[i].off == ptr && blocks[i].Size() == size && blocks[i].used && 4 <= n && n % 4 == 0 && n + 24 < blocks[i].Size()
      modifies this, mem
      ensures Valid() && maxMem == old(maxMem)
      ensures blocks == Shrink(old(blocks), i, n)
      ensures SameUser(old(mem[..]), mem[..], Live(blocks))
    {
      ghost var a, x, z, cut := blocks[..i], blocks[i], blocks[i + 1..], ptr + 12 + n;
      assert blocks == a + [x] + z;
      ShrinkLive(blocks, End(), i, n);
      usedMem := usedMem - (size - n);
      CutAndPlug(ptr, ptr + 12 + n, a, x, z, a + [x.(next := cut)], Block(cut, x.next, false));
      ShrinkKeeps(blocks, End(), i, n);
      blocks := Shrink(blocks, i, n);
    }

    method CutAndPlug(ptr: nat, ptr2: nat, ghost a: seq<Block>, ghost x: Block, ghost z: seq<Block>, ghost a0: seq<Block>, ghost x1: Block)
      requires x.off == ptr && Image(mem[..], a + [x] + z, End()) && NoTwoFree(a + [x] + z) && x.used
      requires lfree == Lowest(a + [x] + z, End()) && ptr2 % 4 == 0 && ptr + 12 <= ptr2 && ptr2 + 12 <= x.next
      requires a0 == a + [x.(next := ptr2)] && x1 == Block(ptr2, x.next, false)
      modifies this`lfree, mem
      ensures Image(mem[..], Plug(a0, x1, z), End()) && lfree == Lowest(Plug(a0, x1, z), End())
      ensures SameUser(old(mem[..]), mem[..], Live(a0) + Live(z))
    {
      ShrinkWrite(mem[..], a, x, z, End(), ptr2);
      WriteCut(ptr, ptr2, x);
      if ptr2 < lfree { lfree := ptr2; }
      PlugHoles(ptr2, a0, x1, z);
    }

    method CopyBytes(to: nat, from: nat, len: nat)
      requires to + len <= mem.Length && from + len <= mem.Length && (from + len <= to || to + len <= from)
      modifies mem
      ensures mem[..] == Copied(old(mem[..]), to, from, len)
    {
      var j := 0;
      while j < len
        invariant j <= len
        invariant mem[..] == Copied(old(mem[..]), to, from, j)
      {
        mem[to + j] := mem[from + j];
        j := j + 1;
      }
    }
  
    /** rt_memcpy into the user bytes of live block y. */
    method CopyInto(to: nat, from: nat, len: nat, ghost y: Block)
      requires Valid() && y in Live(blocks) && y.off + 12 == to && to + len <= y.next
      requires from + len <= mem.Length && (from + len <= to || to + len <= from)
      modifies mem
      ensures Valid()
      ensures SameUser(old(mem[..]), mem[..], Live(blocks) - {y})
      ensures Kept(old(mem[..]), mem[..], to, from, len)
    {
      CopiedInto(mem[..], blocks, y, End(), to, from, len);
      hide Image, WellFormed, Live, UsedSum, Lowest, SameUser, Kept, Copied;
      CopyBytes(to, from, len);
    }

    /** The copy of rt_realloc, then rt_free of the old block x; y is the new one. */
    method CopyAndFree(from: nat, to: nat, len: nat, ghost x: Block, ghost y: Block)
      requires Valid() && x in Live(blocks) && y in Live(blocks) && from == x.off + 12 && to == y.off + 12
      requires len <= x.Size() && len <= y.Size() && (y.next <= x.off || x.next <= y.off)
      modifies this, mem
      ensures Valid()
      ensures blocks == FreeAt(old(blocks), x.off)
      ensures SameUser(old(mem[..]), mem[..], old(Live(blocks)) - {x, y})
      ensures Kept(old(mem[..]), mem[..], to, from, len)
    {
      LiveWithin(blocks, 0, End(), x);
      LiveWithin(blocks, 0, End(), y);
      IndexOfLive(blocks, 0, End(), x);
      ReleaseKeeps(blocks, End(), IndexOf(blocks, x.off));
      ghost var live := Live(blocks);
      CopyInto(to, from, len, y);
      ghost var m := mem[..];
      Free(heapPtr + from);
      KeptAfter(old(mem[..]), m, mem[..], to, from, len, y, Live(blocks));
      SameUserTrans(old(mem[..]), m, mem[..], live - {y}, Live(blocks), live - {x, y});
    }

    /** rt_realloc's second half: a new block, a copy, and the old block freed. */
    method MoveBlock(rmem: nat, size: nat, n: nat) returns (r: nat)
      requires Valid() && LivePtr(rmem) && blocks[IndexAt(rmem)].Size() == size
      requires 0 < n <= memSize && n % 4 == 0 && memSize >= 12
      modifies this, mem
      ensures Valid()
      ensures r == PointerTo(old(blocks), Room(old(blocks), memSize, n))
      ensures blocks == if r == 0 then old(blocks) else FreeAt(AfterMalloc(old(blocks), memSize, n), rmem - heapPtr - 12)
      ensures KeptOrIntact(old(blocks), old(IndexAt(rmem)), old(mem[..]), mem[..], r, n)
    {
      hide FreeAt, AfterMalloc, Spelled, UsedSum, Lowest, NoTwoFree, Live, IndexOf, HeaderAt, SameUser, SameBytes, Kept;
      ghost var bs, i, k := blocks, IndexAt(rmem), Room(blocks, memSize, n);
      RoundUpMultiple(n);
      MallocRefines(bs, memSize, n);
      r := Malloc(n);
      if r != 0 {
        ghost var x, y := bs[i], Handed(bs, memSize, n);
        LiveAt(bs, i);
        LiveWithin(bs, 0, End(), x);
        ghost var m1 := mem[..];
        CopyAndFree(rmem - heapPtr, r - heapPtr, if size < n then size else n, x, y);
        KeptBefore(old(mem[..]), m1, mem[..], r - heapPtr, x.off + 12, if size < n then size else n, x, Live(bs));
        SameUserTrans(old(mem[..]), m1, mem[..], Live(bs), Live(bs) + {y} - {x, y}, Live(bs) - {x});
      }
    }

    /** Other threads' heap calls while nobody holds heap_sem: every block that none of them touches keeps its
        bytes. */
    method OtherCalls(calls: seq<Call>, ghost mine: set<Block>)
      requires Valid() && memSize >= 12 && mine <= Live(blocks) && LegalApart(blocks, memSize, calls, mine)
      modifies this, mem
      ensures Valid() && mine <= Live(blocks) && SameUser(old(mem[..]), mem[..], mine)
      ensures LegalRun(old(blocks), memSize, calls) && blocks == Run(old(blocks), memSize, calls)
    {
      hide FreeAt, AfterMalloc, AfterRealloc, Live, WellFormed, UsedSum, Lowest, Image, SameBytes, IndexOf, SameUser;
      SameUserSelf(mem[..], mine);
      ghost var bs, m0 := blocks, mem[..];
      ApartLegal(bs, memSize, calls, mine);
      var i := 0;
      assert calls[0..] == calls;
      while i < |calls|
        invariant 0 <= i <= |calls| && Valid() && mine <= Live(blocks) && SameUser(m0, mem[..], mine)
        invariant LegalApart(blocks, memSize, calls[i..], mine) && LegalRun(blocks, memSize, calls[i..])
        invariant Run(bs, memSize, calls) == Run(blocks, memSize, calls[i..])
      {
        assert calls[i..][0] == calls[i] && calls[i..][1..] == calls[i + 1..];
        ghost var m := mem[..];
        OneCall(calls[i], mine);
        SameUserTrans(m0, m, mem[..], mine, mine, mine);
        i := i + 1;
      }
    }

    method OneCall(call: Call, ghost mine: set<Block>)
      requires Valid() && memSize >= 12 && mine <= Live(blocks) && Legal(blocks, call) && Apart(blocks, call, mine)
      modifies this, mem
      ensures Valid() && mine <= Live(blocks) && SameUser(old(mem[..]), mem[..], mine)
      ensures blocks == Do(old(blocks), memSize, call)
    {
      hide FreeAt, AfterMalloc, AfterRealloc, Live, WellFormed, UsedSum, Lowest, Spelled, SameBytes, Kept, Room, IndexOf;
      ApartKeeps(blocks, memSize, call, mine);
      match call {
        case Malloc(size) => var _ := this.Malloc(size);
        case Free(off) =>
          LiveAtOff(off);
          this.Free(heapPtr + off + 12);
        case Realloc(off, newsize) =>
          LiveAtOff(off);
          var _ := this.Realloc(heapPtr + off + 12, newsize);
      }
    }

    /** rt_free of the live block x, seen from the set of live blocks. */
    method FreeLive(from: nat, ghost x: Block)
      requires Valid() && x in Live(blocks) && from == heapPtr + x.off + 12
      modifies this, mem
      ensures Valid() && blocks == FreeAt(old(blocks), x.off) && Live(blocks) == old(Live(blocks)) - {x}
      ensures SameUser(old(mem[..]), mem[..], Live(blocks))
    {
      hide FreeAt, UsedSum, Lowest, NoTwoFree, SameUser, Spelled;
      IndexOfLive(blocks, 0, End(), x);
      LiveWithin(blocks, 0, End(), x);
      FreeRefines(blocks, End(), x.off);
      Free(from);
    }

    /** The copy of rt_realloc and its rt_free of the old block x, with other threads' calls in between. */
    method CopyGapFree(from: nat, to: nat, len: nat, after: seq<Call>, ghost x: Block, ghost y: Block, ghost mine: set<Block>)
      requires Valid() && memSize >= 12 && x in mine && y in mine && mine <= Live(blocks)
      requires from == x.off + 12 && to == y.off + 12 && x.off + 12 + len <= x.next && y.off + 12 + len <= y.next
      requires (y.next <= x.off || x.next <= y.off) && LegalApart(blocks, memSize, after, mine)
      modifies this, mem
      ensures Valid() && LegalRun(old(blocks), memSize, after) && blocks == FreeAt(Run(old(blocks), memSize, after), x.off)
      ensures mine - {x} <= Live(blocks) && SameUser(old(mem[..]), mem[..], mine - {x, y})
      ensures Kept(old(mem[..]), mem[..], to, from, len)
    {
      hide FreeAt, UsedSum, Lowest, NoTwoFree, Live, Kept, SameBytes, Spelled, LegalApart, LegalRun, Run;
      LiveWithin(blocks, 0, End(), x);
      LiveWithin(blocks, 0, End(), y);
      CopyInto(to, from, len, y);
      ghost var m1 := mem[..];
      OtherCalls(after, mine);
      ghost var m2 := mem[..];
      FreeLive(heapPtr + from, x);
      KeptAfter(old(mem[..]), m1, m2, to, from, len, y, mine);
      KeptAfter(old(mem[..]), m2, mem[..], to, from, len, y, Live(blocks));
      SameUserTrans(old(mem[..]), m1, m2, old(Live(blocks)) - {y}, mine, mine - {y});
      SameUserTrans(old(mem[..]), m2, mem[..], mine - {y}, Live(blocks), mine - {x, y});
    }

    /** What follows the rt_malloc of a moving rt_realloc, from the old block x to the new one y, with other
        threads' calls in the two gaps in which it does not hold heap_sem: before its copy, and between the
        copy and its rt_free. */
    method MoveRest(from: nat, to: nat, len: nat, before: seq<Call>, after: seq<Call>,
                    ghost x: Block, ghost y: Block, ghost mine: set<Block>)
      requires Valid() && memSize >= 12 && x in mine && y in mine && mine <= Live(blocks)
      requires from == x.off + 12 && to == y.off + 12 && x.off + 12 + len <= x.next && y.off + 12 + len <= y.next
      requires (y.next <= x.off || x.next <= y.off) && LegalApart(blocks, memSize, before, mine)
      requires LegalRun(blocks, memSize, before) && LegalApart(Run(blocks, memSize, before), memSize, after, mine)
      modifies this, mem
      ensures Valid() && LegalRun(Run(old(blocks), memSize, before), memSize, after)
      ensures blocks == FreeAt(Run(Run(old(blocks), memSize, before), memSize, after), x.off)
      ensures mine - {x} <= Live(blocks) && SameUser(old(mem[..]), mem[..], mine - {x, y})
      ensures Kept(old(mem[..]), mem[..], to, from, len)
    {
      hide FreeAt, UsedSum, Lowest, NoTwoFree, Live, Kept, SameBytes, Spelled, LegalApart, LegalRun, Run;
      LiveWithin(blocks, 0, End(), x);
      OtherCalls(before, mine);
      ghost var m1 := mem[..];
      CopyGapFree(from, to, len, after, x, y, mine);
      KeptBefore(old(mem[..]), m1, mem[..], to, from, len, x, mine);
      SameUserTrans(old(mem[..]), m1, mem[..], mine, mine - {x, y}, mine - {x, y});
    }

    /** rt_realloc through a new block, with other threads' calls in those gaps.  As long as nobody else frees
        or reallocates the old block x, the new block y or another block of `mine`, the bytes arrive at y and
        the rest of `mine` keeps its own. */
    method MoveWithGaps(rmem: nat, n: nat, before: seq<Call>, after: seq<Call>, ghost mine: set<Block>) returns (r: nat)
      requires Valid() && LivePtr(rmem) && 0 < n <= memSize && n % 4 == 0 && memSize >= 12
      requires mine <= Live(blocks) && blocks[IndexAt(rmem)] in mine
      requires Room(blocks, memSize, n) < |blocks| ==>
        var all, bs := mine + {Handed(blocks, memSize, n)}, AfterMalloc(blocks, memSize, n);
        LegalApart(bs, memSize, before, all) && LegalRun(bs, memSize, before) && LegalApart(Run(bs, memSize, before), memSize, after, all)
      modifies this, mem
      ensures Valid() && r == PointerTo(old(blocks), Room(old(blocks), memSize, n))
      ensures r == 0 ==> blocks == old(blocks) && SameUser(old(mem[..]), mem[..], mine)
      ensures r != 0 ==>
        var bs, x, y := AfterMalloc(old(blocks), memSize, n), old(blocks[IndexAt(rmem)]), Handed(old(blocks), memSize, n);
        && LegalRun(bs, memSize, before) && LegalRun(Run(bs, memSize, before), memSize, after)
        && blocks == FreeAt(Run(Run(bs, memSize, before), memSize, after), x.off)
        && mine - {x} + {y} <= Live(blocks) && x.Size() >= 0
        && Kept(old(mem[..]), mem[..], y.off + 12, x.off + 12, if x.Size() < n then x.Size() else n)
        && SameUser(old(mem[..]), mem[..], mine - {x})
    {
      hide FreeAt, AfterMalloc, UsedSum, Lowest, NoTwoFree, Live, SameBytes, Kept, LegalApart, LegalRun, Run, Spelled, HeaderAt, Tiled;
      ghost var bs, x, m0 := blocks, blocks[IndexAt(rmem)], mem[..];
      RoundUpMultiple(n);
      MallocRefines(bs, memSize, n);
      LiveAt(bs, IndexAt(rmem));
      LiveWithin(bs, 0, End(), x);
      var size := OldSize(rmem);
      r := Malloc(n);
      ghost var m1 := mem[..];
      SameUserPart(m0, m1, Live(bs), mine);
      if r != 0 {
        ghost var y := Handed(bs, memSize, n);
        var len := if size < n then size else n;
        MoveRest(rmem - heapPtr, r - heapPtr, len, before, after, x, y, mine + {y});
        KeptBefore(m0, m1, mem[..], r - heapPtr, x.off + 12, len, x, mine);
        SameUserTrans(m0, m1, mem[..], mine, mine + {y} - {x, y}, mine - {x});
      }
    }

    method OldSize(rmem: nat) returns (size: nat)
      requires Valid() && LivePtr(rmem)
      ensures size == blocks[IndexAt(rmem)].Size()
    {
      hide UsedSum, Lowest, NoTwoFree, Live, Spelled;
      HeaderOf(mem[..], blocks, End(), IndexAt(rmem));
      At(blocks, End(), IndexAt(rmem));
      var ptr := rmem - 12 - heapPtr;
      size := mem[ptr + 4] - ptr - 12;
    }

    lemma LiveAtOff(off: nat)
      requires Valid() && IndexOf(blocks, off) < |blocks| && blocks[IndexOf(blocks, off)].used
      ensures LivePtr(heapPtr + off + 12) && IndexAt(heapPtr + off + 12) == IndexOf(blocks, off)
    {
    }

    /** What reallocating block i owes its user and everyone else: on success the first
        min(old size, n) bytes are at r, on failure nothing has changed for anyone. */
    ghost predicate KeptOrIntact(bs: seq<Block>, i: nat, m0: seq<int>, m1: seq<int>, r: nat, n: nat)
      requires i < |bs|
    {
      var x := bs[i];
      if r == 0 then SameUser(m0, m1, Live(bs))
      else
        && r >= heapPtr && x.Size() >= 0
        && Kept(m0, m1, r - heapPtr, x.off + 12, if x.Size() < n then x.Size() else n)
        && SameUser(m0, m1, Live(bs) - {x})
    }

    method Realloc(rmem: nat, newsize: nat) returns (r: nat)
      requires Valid() && newsize < WORD && (RoundUp(newsize) == 0 || Searchable(RoundUp(newsize)))
      requires rmem == 0 || Outside(rmem) || LivePtr(rmem)
      modifies this, mem
      ensures Valid()
      ensures old(LivePtr(rmem)) ==>
        && blocks == AfterRealloc(old(blocks), memSize, rmem - heapPtr - 12, newsize)
        && (RoundUp(newsize) == 0 ==> r == 0 && SameUser(old(mem[..]), mem[..], Live(blocks)))
        && (RoundUp(newsize) > 0 ==> KeptOrIntact(old(blocks), old(IndexAt(rmem)), old(mem[..]), mem[..], r, RoundUp(newsize)))
        && r == (
          var n, size := RoundUp(newsize), old(blocks[IndexAt(rmem)].Size());
          if n > memSize || n == 0 then 0
          else if n == size || n + 24 < size then rmem
          else PointerTo(old(blocks), Room(old(blocks), memSize, n)))
      ensures !old(LivePtr(rmem)) ==>
        && SameUser(old(mem[..]), mem[..], old(Live(blocks)))
        && (rmem == 0 && RoundUp(newsize) > 0 ==>
            && blocks == AfterMalloc(old(blocks), memSize, RoundUp(newsize))
            && r == PointerTo(old(blocks), Room(old(blocks), memSize, RoundUp(newsize))))
        && (rmem != 0 || RoundUp(newsize) == 0 ==>
            && blocks == old(blocks) && mem[..] == old(mem[..])
            && r == if 0 < RoundUp(newsize) <= memSize then rmem else 0)
    {
      hide FreeAt, Take, Shrink, Spelled, UsedSum, Lowest, NoTwoFree, Live;
      var n := RoundUp(newsize);
      RoundUpMultiple(n);
      if n > memSize {
        return 0;
      } else if n == 0 {
        Free(rmem);
        return 0;
      }
      if rmem == 0 { r := Malloc(n); return; }
      LiveInside(rmem);
      if rmem < heapPtr || rmem >= heapPtr + End() { return rmem; }
      r := ReallocLive(rmem, n);
    }

    /** rt_realloc of the live block at rmem, for an aligned size that is not absurd. */
    method ReallocLive(rmem: nat, n: nat) returns (r: nat)
      requires Valid() && LivePtr(rmem) && 0 < n <= memSize && n % 4 == 0 && memSize >= 12
      modifies this, mem
      ensures Valid()
      ensures var bs, i := old(blocks), old(IndexAt(rmem)); var k := Room(bs, memSize, n);
        if n == bs[i].Size() then r == rmem && blocks == bs
        else if n + 24 < bs[i].Size() then r == rmem && blocks == Shrink(bs, i, n)
        else r == PointerTo(bs, k) && blocks == if k == |bs| then bs else FreeAt(AfterMalloc(bs, memSize, n), bs[i].off)
      ensures KeptOrIntact(old(blocks), old(IndexAt(rmem)), old(mem[..]), mem[..], r, n)
    {
      hide FreeAt, AfterMalloc, Room, Shrink, UsedSum, Lowest, NoTwoFree, Live, Spelled;
      ghost var bs, i, m0 := blocks, IndexAt(rmem), mem[..];
      var ptr := rmem - 12 - heapPtr;
      At(bs, End(), i);
      LiveAt(bs, i);
      var size := OldSize(rmem);
      if size == n { return rmem; }
      if n + HEADER + MIN_SIZE < size {
        ShrinkKeeps(bs, End(), i, n);
        ShrinkBlock(ptr, size, n, i);
        ShrunkKeeps(m0, mem[..], bs[i], n, Live(bs), Live(blocks));
        return rmem;
      }
      r := MoveBlock(rmem, size, n);
    }

    lemma ShrunkKeeps(m0: seq<int>, m1: seq<int>, x: Block, n: nat, live: set<Block>, live1: set<Block>)
      requires SameUser(m0, m1, live1) && live1 == live - {x} + {x.(next := x.off + 12 + n)} && x.off + 12 + n <= |m0|
      ensures Kept(m0, m1, x.off + 12, x.off + 12, n) && SameUser(m0, m1, live - {x})
    {
      var y := x.(next := x.off + 12 + n);
      assert y in live1 && SameBytes(m0, m1, y);
    }
  
    /** rt_system_heap_init: null when the region cannot hold two headers. */
    static method SystemHeapInit(begin: nat, end: nat) returns (h: Heap?)
      requires begin < WORD && end < WORD
      ensures h != null <==> end - end % 4 > 24 && end - end % 4 - 24 >= RoundUp(begin)
      ensures h != null ==>
        && fresh(h) && fresh(h.mem) && h.Valid()
        && h.heapPtr == RoundUp(begin) && h.heapPtr + h.End() + 12 == end - end % 4
        && h.blocks == [Block(0, h.End(), false)] && h.usedMem == 0
    {
      var beginAlign, endAlign := RoundUp(begin), end - end % 4;
      if endAlign > 24 && endAlign - 24 >= beginAlign {
        h := new Heap(beginAlign, endAlign);
      } else {
        h := null;
      }
    }

    constructor (beginAlign: nat, endAlign: nat)
      requires beginAlign % 4 == 0 && endAlign % 4 == 0 && beginAlign + 24 <= endAlign < WORD
      ensures Valid() && fresh(mem)
      ensures heapPtr == beginAlign && memSize == endAlign - beginAlign - 24
      ensures blocks == [Block(0, End(), false)] && usedMem == 0
    {
      heapPtr := beginAlign;
      memSize := endAlign - beginAlign - 24;
      mem := new int[endAlign - beginAlign];
      lfree, usedMem, maxMem := 0, 0, 0;
      blocks := [Block(0, endAlign - beginAlign - 12, false)];
      new;
      var e := memSize + 12;
      assert blocks[1..] == [];
      mem[0], mem[4], mem[8], mem[2] := HEAP_MAGIC, e, 0, 0;
      mem[e], mem[e + 2], mem[e + 4], mem[e + 8] := HEAP_MAGIC, 1, e, e;
      assert Tiled(blocks[1..], e, e) && Tiled(blocks, 0, e) && Spelled(mem[..], blocks, 0);
      assert HeaderAt(mem[..], blocks[0], 0);
    }
  }
}
