/** What the calls on an rt_memheap mean for its live ranges, over single calls and over whole runs. */
module MemHeapRuns {
  import opened HeapBlocks
  import opened HeapRuns
  import opened WaitList
  import opened MemHeapModel

  // ---------- What a caller sees ----------

  lemma {:induction false} IndexIs(bs: seq<Block>, lo: nat, hi: nat, i: nat)
    requires Tiled(bs, lo, hi) && i < |bs|
    ensures IndexOf(bs, bs[i].off) == i && lo <= bs[i].off
  {
    if i > 0 { IndexIs(bs[1..], bs[0].next, hi, i - 1); }
  }

  lemma FreeIsListed(p: Pool, end: nat, i: nat)
    requires Good(p, end) && i < |p.bs| && !p.bs[i].used
    ensures p.bs[i].off in p.fl && SizeAt(p.bs, p.bs[i].off) == UserSize(p.bs[i])
  {
    assert p.bs == p.bs[..i] + [p.bs[i]] + p.bs[i + 1..];
    FreeAround(p.bs[..i], p.bs[i], p.bs[i + 1..]);
    IndexIs(p.bs, 0, end, i);
  }

  lemma ListedIsFree(p: Pool, end: nat, k: nat)
    requires Good(p, end) && k < |p.fl|
    ensures var i := IndexOf(p.bs, p.fl[k]); i < |p.bs| && !p.bs[i].used && p.bs[i].off == p.fl[k]
  {
    FreeWithin(p.bs, 0, end, p.fl[k]);
  }

  /** One free block takes at most the whole free total, and just that only when it is alone. */
  lemma {:induction false} ShareOfFree(bs: seq<Block>, i: nat)
    requires Roomy(bs) && i < |bs| && !bs[i].used
    ensures FreeSum(bs) >= UserSize(bs[i])
    ensures FreeSum(bs) == UserSize(bs[i]) <==> forall j :: 0 <= j < |bs| && j != i ==> bs[j].used
  {
    FreePositive(bs[1..]);
    if i > 0 {
      ShareOfFree(bs[1..], i - 1);
      assert forall j :: 0 < j < |bs| ==> bs[j] == bs[1..][j - 1];
      if forall j :: 0 <= j < |bs| && j != i ==> bs[j].used {
        assert forall j :: 0 <= j < |bs[1..]| && j != i - 1 ==> bs[1..][j] == bs[j + 1];
      }
    } else {
      assert forall j :: 0 < j < |bs| ==> bs[j] == bs[1..][j - 1];
      assert forall j :: 0 <= j < |bs[1..]| ==> bs[1..][j] == bs[j + 1];
    }
  }

  lemma {:induction false} FreePositive(bs: seq<Block>)
    requires Roomy(bs)
    ensures FreeSum(bs) >= 0 && (FreeSum(bs) == 0 <==> forall j :: 0 <= j < |bs| ==> bs[j].used)
  {
    if bs != [] {
      FreePositive(bs[1..]);
      assert forall j :: 0 < j < |bs| ==> bs[j] == bs[1..][j - 1];
      assert forall j :: 0 <= j < |bs[1..]| ==> bs[1..][j] == bs[j + 1];
    }
  }

  ghost predicate OnlyFree(bs: seq<Block>, i: nat) {
    i < |bs| && !bs[i].used && forall j :: 0 <= j < |bs| && j != i ==> bs[j].used
  }

  /** rt_memheap_alloc returns null exactly when no free block is large enough, or the one free block
      there is has just the requested size: the test against available_size is strict. */
  lemma AllocFailsIff(p: Pool, end: nat, size: nat)
    requires Good(p, end) && size < WORD
    ensures Alloc(p, size).1 == None <==>
      || (forall i :: 0 <= i < |p.bs| && !p.bs[i].used ==> UserSize(p.bs[i]) < Wanted(size))
      || (exists i: nat :: OnlyFree(p.bs, i) && UserSize(p.bs[i]) == Wanted(size))
  {
    hide Tiled, NoTwoFree, Roomy, FreeSum, FreeOffs;
    var n := Wanted(size);
    var k := FirstFree(p, n);
    if k == |p.fl| {
      forall i | 0 <= i < |p.bs| && !p.bs[i].used ensures UserSize(p.bs[i]) < n { FreeIsListed(p, end, i); }
    } else {
      ListedIsFree(p, end, k);
      var i := IndexOf(p.bs, p.fl[k]);
      ShareOfFree(p.bs, i);
      if n >= FreeSum(p.bs) {
        assert OnlyFree(p.bs, i);
      } else if j: nat :| OnlyFree(p.bs, j) && UserSize(p.bs[j]) == n {
        ShareOfFree(p.bs, j);
        assert false;
      }
    }
  }

  /** Block y is what a request of n bytes gets: the first block in the free list that is large enough, cut to
      just n bytes unless what would be left could not hold a block of its own. */
  ghost predicate ServedBy(p: Pool, k: nat, y: Block, n: nat) {
    && k < |p.fl| && IndexOf(p.bs, p.fl[k]) < |p.bs|
    && (forall j :: 0 <= j < k ==> SizeAt(p.bs, p.fl[j]) < n)
    && var b := p.bs[IndexOf(p.bs, p.fl[k])];
      && !b.used && y.used && y.off == b.off && n <= UserSize(y) < n + 36
      && if UserSize(b) >= n + 36 then UserSize(y) == n else y.next == b.next
  }

  /** A successful rt_memheap_alloc adds one aligned live range of just the rounded size, at least 12 bytes, apart
      from every other; a failed one changes nothing. */
  lemma AllocKeeps(p: Pool, end: nat, size: nat)
    requires Good(p, end) && size < WORD
    ensures var (r, at) := Alloc(p, size);
      var n := if RoundUp(size) < 12 then 12 else RoundUp(size);
      && Good(r, end)
      && (at == None ==> r == p)
      && (at != None ==> exists y: Block, k: nat ::
            && ServedBy(p, k, y, n)
            && y.off == at.value && y.off % 4 == 0 && y.next <= end
            && Live(r.bs) == Live(p.bs) + {y} && y !in Live(p.bs)
            && (forall b :: b in Live(p.bs) ==> b.next <= y.off || y.next <= b.off))
  {
    hide Tiled, NoTwoFree, Roomy, FreeSum, FreeOffs, Live, UsedSum;
    var n := Wanted(size);
    var k := FirstFree(p, n);
    if n < FreeSum(p.bs) && k < |p.fl| {
      ListedIsFree(p, end, k);
      var i := IndexOf(p.bs, p.fl[k]);
      var y := TakenKeeps(p, end, i, n);
      forall b | b in Live(p.bs) ensures b.next <= y.off || y.next <= b.off { ApartFrom(p.bs, end, i, b); }
      assert ServedBy(p, k, y, n);
    }
  }

  /** What a block leaves when it is split is the first to be tried: requests that fit are served side by side. */
  lemma SplitServedNext(p: Pool, end: nat, size: nat, more: nat)
    requires Good(p, end) && size < WORD && more < WORD && Alloc(p, size).1 != None
    requires SizeAt(p.bs, Alloc(p, size).1.value) >= Wanted(size) + 36
    requires Wanted(more) <= SizeAt(p.bs, Alloc(p, size).1.value) - Wanted(size) - 24
    requires Wanted(more) < FreeSum(Alloc(p, size).0.bs)
    ensures Alloc(Alloc(p, size).0, more).1 == Some(Alloc(p, size).1.value + 24 + Wanted(size))
  {
    hide Tiled, NoTwoFree, Roomy, FreeSum, FreeOffs, Live, UsedSum;
    var n, k := Wanted(size), FirstFree(p, Wanted(size));
    ListedIsFree(p, end, k);
    var i := IndexOf(p.bs, p.fl[k]);
    var _ := TakenKeeps(p, end, i, n);
    var r := Taken(p, i, n);
    assert r.bs[i + 1] == Block(p.fl[k] + 24 + n, p.bs[i].next, false);
    IndexIs(r.bs, 0, end, i + 1);
    FirstServed(r, more);
  }

  /** So is a block that has been freed and not merged to the left. */
  lemma FreedServedNext(p: Pool, end: nat, i: nat, size: nat)
    requires Good(p, end) && i < |p.bs| && p.bs[i].used && !PrevFree(p.bs, i) && size < WORD
    requires Wanted(size) <= SpaceEnd(p.bs, i) - p.bs[i].off - 24 && Wanted(size) < FreeSum(Freed(p, i).bs)
    ensures Alloc(Freed(p, i), size).1 == Some(p.bs[i].off)
  {
    hide Tiled, NoTwoFree, Roomy, FreeSum, FreeOffs, Live, UsedSum;
    var r := Freed(p, i);
    FreedLive(p, end, i);
    assert r.bs[i] == Block(p.bs[i].off, SpaceEnd(p.bs, i), false);
    IndexIs(r.bs, 0, end, i);
    FirstServed(r, size);
  }

  lemma FirstServed(r: Pool, size: nat)
    requires size < WORD && r.fl != [] && SizeAt(r.bs, r.fl[0]) >= Wanted(size) && Wanted(size) < FreeSum(r.bs)
    ensures Alloc(r, size).1 == Some(r.fl[0])
  {
  }

  lemma TakenKeeps(p: Pool, end: nat, i: nat, n: nat) returns (y: Block)
    requires Good(p, end) && i < |p.bs| && !p.bs[i].used && UserSize(p.bs[i]) >= n >= 12 && n % 4 == 0
    ensures var r := Taken(p, i, n);
      && Good(r, end) && FreeSum(r.bs) == FreeSum(p.bs) - (if UserSize(p.bs[i]) >= n + 36 then n + 24 else UserSize(p.bs[i]))
      && Live(r.bs) == Live(p.bs) + {y} && y !in Live(p.bs)
    ensures y.off == p.bs[i].off && y.used && y.off % 4 == 0 && n <= UserSize(y) < n + 36 && y.next <= p.bs[i].next <= end
    ensures if UserSize(p.bs[i]) >= n + 36 then UserSize(y) == n else y.next == p.bs[i].next
  {
    hide Tiled, NoTwoFree, Roomy, FreeSum, FreeOffs, Live, UsedSum;
    var b := p.bs[i];
    At(p.bs, end, i);
    if UserSize(b) >= n + 36 {
      y := Block(b.off, b.off + 24 + n, true);
      TakenPart(p, end, i, n);
      TakeKeeps(p.bs, end, i, n + 12);
      assert Taken(p, i, n).bs == Take(p.bs, i, n + 12);
    } else {
      y := b.(used := true);
      TakenWhole(p, end, i);
      assert p.bs == p.bs[..i] + [b] + p.bs[i + 1..];
      TakeWholeKeeps(p.bs[..i], b, p.bs[i + 1..], end);
    }
    NotLive(p.bs, end, i, y);
  }

  // ---------- rt_memheap_realloc and whole runs ----------

  /** The 32-bit test for growing into a free successor. */
  predicate GrowTest(nextSize: int, oldSize: int, n: nat) { nextSize + oldSize > (n + 12) % WORD }

  /** Where the 32-bit address of the new free header falls, as an offset in the pool. */
  function GrowCut(off: nat, n: nat): nat { (off + 24 + n) % WORD }

  ghost function Realloc(p: Pool, off: nat, newsize: nat): (Pool, Option)
    requires newsize < WORD && IndexOf(p.bs, off) < |p.bs|
  {
    var i, n := IndexOf(p.bs, off), Wanted(newsize);
    var size := UserSize(p.bs[i]);
    if newsize == 0 then (Freed(p, i), None)
    else if n > size then
      if NextFree(p.bs, i) && GrowTest(UserSize(p.bs[i + 1]), size, n) then (Moved(p, i, GrowCut(off, n)), Some(off))
      else
        var (r, at) := Alloc(p, n);
        if at == None then (p, None) else (Freed(r, if IndexOf(r.bs, off) < |r.bs| then IndexOf(r.bs, off) else i), at)
    else if n + 36 >= size then (p, Some(off))
    else (Moved(p, i, off + 24 + n), Some(off))
  }

  /** The rounded size plus 12 wraps around, and there is a free successor to grow into. */
  predicate Overruns(bs: seq<Block>, i: nat, newsize: nat) { WORD - 16 < newsize <= WORD - 4 && NextFree(bs, i) }

  /** When the growth test wraps, the new free header falls into the block's own header. */
  lemma GrowWraps(p: Pool, end: nat, off: nat, newsize: nat)
    requires Good(p, end) && end < WORD && newsize < WORD && IndexOf(p.bs, off) < |p.bs| && Overruns(p.bs, IndexOf(p.bs, off), newsize)
    ensures var i, cut := IndexOf(p.bs, off), GrowCut(off, Wanted(newsize));
      Realloc(p, off, newsize) == (Moved(p, i, cut), Some(off)) && off + 12 <= cut < off + 24
      && Wanted(newsize) > UserSize(p.bs[i]) && GrowTest(UserSize(p.bs[i + 1]), UserSize(p.bs[i]), Wanted(newsize))
  {
    hide Tiled, NoTwoFree, Roomy, FreeSum, FreeOffs, Moved, Wanted, GrowCut, Alloc, Freed;
    var i := IndexOf(p.bs, off);
    SizeBounds(p, end, i);
    SizeBounds(p, end, i + 1);
    NearlyWord(off, newsize);
  }

  lemma SizeBounds(p: Pool, end: nat, i: nat)
    requires Good(p, end) && i < |p.bs|
    ensures 12 <= UserSize(p.bs[i]) && p.bs[i].off % 4 == 0 && p.bs[i].off + 36 <= p.bs[i].next <= end
  {
    hide Tiled, NoTwoFree, FreeSum, FreeOffs;
    At(p.bs, end, i);
    assert p.bs == p.bs[..i] + [p.bs[i]] + p.bs[i + 1..];
    FreeAround(p.bs[..i], p.bs[i], p.bs[i + 1..]);
  }

  lemma NearlyWord(off: nat, newsize: nat)
    requires WORD - 16 < newsize <= WORD - 4 && off < WORD - 36
    ensures var n := Wanted(newsize); WORD - 12 <= n < WORD && (n + 12) % WORD <= 8 && off + 12 <= GrowCut(off, n) < off + 24
  {
    var n := Wanted(newsize);
    assert n % 4 == 0 && WORD - 12 <= n <= WORD - 4;
    assert (n + 12) % WORD == n + 12 - WORD && (off + 24 + n) % WORD == off + 24 + n - WORD;
  }

  /** rt_memheap_realloc keeps the pool in order if and only if it does not grow into a free successor by a
      size within 16 bytes of 2^32. */
  lemma ReallocGoodIff(p: Pool, end: nat, off: nat, newsize: nat)
    requires Good(p, end) && end < WORD && newsize < WORD && IndexOf(p.bs, off) < |p.bs| && p.bs[IndexOf(p.bs, off)].used
    ensures Good(Realloc(p, off, newsize).0, end) <==> !Overruns(p.bs, IndexOf(p.bs, off), newsize)
  {
    hide Good;
    if Overruns(p.bs, IndexOf(p.bs, off), newsize) {
      GrowWraps(p, end, off, newsize);
      hide Realloc;
      CutInHeader(p, end, IndexOf(p.bs, off), GrowCut(off, Wanted(newsize)));
    } else {
      ReallocKeeps(p, end, off, newsize);
    }
  }

  lemma CutInHeader(p: Pool, end: nat, i: nat, cut: nat)
    requires i < |p.bs| && cut < p.bs[i].off + 24
    ensures !Good(Moved(p, i, cut), end)
  {
    hide Tiled, NoTwoFree, FreeSum, FreeOffs;
    var r := Moved(p, i, cut).bs;
    var z := [Block(cut, SpaceEnd(p.bs, i), false)] + p.bs[if NextFree(p.bs, i) then i + 2 else i + 1..];
    FreeAround(p.bs[..i], p.bs[i].(next := cut), z);
  }

  /** A pool of one used and one free block that a realloc of 2^32 - 12 bytes puts out of order. */
  lemma GrowOverruns()
    ensures var p := Pool([Block(0, 60, true), Block(60, 200, false)], [60]);
      Good(p, 200) && p.bs[IndexOf(p.bs, 0)].used && !Good(Realloc(p, 0, WORD - 12).0, 200)
  {
    var p := Pool([Block(0, 60, true), Block(60, 200, false)], [60]);
    assert p.bs[1..] == [Block(60, 200, false)] && p.bs[1..][1..] == [];
    assert FreeOffs(p.bs) == FreeOffs(p.bs[1..]) == {60};
    assert Good(p, 200);
    ReallocGoodIff(p, 200, 0, WORD - 12);
  }

  /** A size above 2^32 - 4 rounds to 0: the block is cut to the minimum, or kept. */
  lemma HugeSizeShrinks(p: Pool, end: nat, off: nat, newsize: nat)
    requires Good(p, end) && WORD - 4 < newsize < WORD && IndexOf(p.bs, off) < |p.bs| && p.bs[IndexOf(p.bs, off)].used
    ensures var (r, at) := Realloc(p, off, newsize);
      var x := p.bs[IndexOf(p.bs, off)];
      at == Some(off) && Live(r.bs) == if UserSize(x) > 48 then Live(p.bs) - {x} + {x.(next := off + 36)} else Live(p.bs)
  {
    hide Tiled, NoTwoFree, FreeSum, FreeOffs, Live, Moved;
    var i := IndexOf(p.bs, off);
    SizeBounds(p, end, i);
    SpaceGrows(p, end, i);
    if UserSize(p.bs[i]) > 48 { MovedLive(p, end, i, off + 36); }
  }

  lemma FreedLive(p: Pool, end: nat, i: nat)
    requires Good(p, end) && i < |p.bs| && p.bs[i].used
    ensures Good(Freed(p, i), end) && Live(Freed(p, i).bs) == Live(p.bs) - {p.bs[i]} && p.bs[i] in Live(p.bs)
  {
    hide Tiled, NoTwoFree, Roomy, FreeSum, FreeOffs, Live, UsedSum, Plug;
    FreedKeeps(p, end, i);
    ReleaseKeeps(p.bs, end, i);
  }

  lemma MovedLive(p: Pool, end: nat, i: nat, cut: nat)
    requires Good(p, end) && i < |p.bs| && p.bs[i].used
    requires cut % 4 == 0 && p.bs[i].off + 36 <= cut && cut + 36 <= SpaceEnd(p.bs, i)
    ensures Good(Moved(p, i, cut), end) && Live(Moved(p, i, cut).bs) == Live(p.bs) - {p.bs[i]} + {p.bs[i].(next := cut)}
  {
    hide Tiled, NoTwoFree, Roomy, FreeSum, FreeOffs, UsedSum, Lowest;
    MovedKeeps(p, end, i, cut);
    var a, x, z := p.bs[..i], p.bs[i], p.bs[i + 1..];
    var z' := p.bs[if NextFree(p.bs, i) then i + 2 else i + 1..];
    assert p.bs == a + [x] + z;
    assert NextFree(p.bs, i) ==> z == [p.bs[i + 1]] + z';
    var rest := Block(cut, SpaceEnd(p.bs, i), false);
    hide Live;
    NotAround(a, x, z, end);
    Around(a, x, z, 0, end);
    SumsConcat([rest], z', end);
    if NextFree(p.bs, i) { SumsConcat([p.bs[i + 1]], z', end); NotLiveAlone(p.bs[i + 1]); }
    NotLiveAlone(rest);
    Around(a, x.(next := cut), [rest] + z', 0, end);
  }

  lemma NotLiveAlone(b: Block)
    requires !b.used
    ensures Live([b]) == {}
  {
  }

  /** What a successful rt_memheap_realloc makes of range x: a range y of at least n bytes, at the
      same place or apart from every old one. */
  ghost predicate Becomes(before: seq<Block>, after: seq<Block>, x: Block, at: nat, n: nat) {
    exists y: Block ::
      && y.off == at && y.used && n <= UserSize(y) <= n + 36
      && Live(after) == Live(before) - {x} + {y}
      && (y.off == x.off || y !in Live(before))
  }

  lemma ResizedKeeps(p: Pool, end: nat, i: nat, n: nat)
    requires Good(p, end) && i < |p.bs| && p.bs[i].used && n >= 12 && n % 4 == 0
    requires p.bs[i].off + 60 + n <= SpaceEnd(p.bs, i)
    ensures var r := Moved(p, i, p.bs[i].off + 24 + n); Good(r, end) && Becomes(p.bs, r.bs, p.bs[i], p.bs[i].off, n)
  {
    hide Tiled, NoTwoFree, Roomy, FreeSum, FreeOffs, Live, UsedSum, Moved;
    At(p.bs, end, i);
    MovedLive(p, end, i, p.bs[i].off + 24 + n);
    var y := p.bs[i].(next := p.bs[i].off + 24 + n);
    assert UserSize(y) >= n;
  }

  /** It stays where it is if it is large enough, or can grow into a free successor that leaves more than 12
      bytes; else it goes where rt_memheap_alloc puts it. */
  lemma ReallocPlace(p: Pool, end: nat, off: nat, newsize: nat)
    requires Good(p, end) && end < WORD && 0 < newsize < WORD && IndexOf(p.bs, off) < |p.bs| && !Overruns(p.bs, IndexOf(p.bs, off), newsize)
    ensures var i, n := IndexOf(p.bs, off), if RoundUp(newsize) < 12 then 12 else RoundUp(newsize);
      var grows := NextFree(p.bs, i) && UserSize(p.bs[i]) + UserSize(p.bs[i + 1]) > n + 12;
      Realloc(p, off, newsize).1 == if n <= UserSize(p.bs[i]) || grows then Some(off) else Alloc(p, newsize).1
  {
    hide Alloc, Moved, Freed, IndexOf;
    var i := IndexOf(p.bs, off);
    SizeBounds(p, end, i);
    RoundUpMultiple(RoundUp(newsize));
    AllocWanted(p, newsize);
  }

  lemma AllocWanted(p: Pool, size: nat)
    requires size < WORD
    ensures Wanted(size) < WORD && Wanted(Wanted(size)) == Wanted(size) && Alloc(p, Wanted(size)) == Alloc(p, size)
  {
    RoundUpMultiple(Wanted(size));
  }

  /** rt_memheap_realloc grows or cuts the range in place, moves it, frees it, or leaves everything; on success it
      has at least the bytes wanted and at most 36 more. */
  lemma ReallocKeeps(p: Pool, end: nat, off: nat, newsize: nat)
    requires Good(p, end) && end < WORD && newsize < WORD
    requires IndexOf(p.bs, off) < |p.bs| && p.bs[IndexOf(p.bs, off)].used && !Overruns(p.bs, IndexOf(p.bs, off), newsize)
    ensures var (r, at) := Realloc(p, off, newsize);
      var x, n := p.bs[IndexOf(p.bs, off)], Wanted(newsize);
      && Good(r, end) && x in Live(p.bs) && (newsize <= WORD - 4 ==> n >= newsize)
      && (newsize == 0 ==> at == None && Live(r.bs) == Live(p.bs) - {x})
      && (newsize != 0 && at == None ==> r == p)
      && (at != None ==> Becomes(p.bs, r.bs, x, at.value, n))
  {
    hide Tiled, NoTwoFree, Roomy, FreeSum, FreeOffs, Live, UsedSum, Plug, Moved, Freed, Alloc, Becomes;
    var i, n := IndexOf(p.bs, off), Wanted(newsize);
    var x := p.bs[i];
    LiveAt(p.bs, i);
    FreedLive(p, end, i);
    SpaceGrows(p, end, i);
    if newsize == 0 {
    } else if n > UserSize(x) {
      if NextFree(p.bs, i) && GrowTest(UserSize(p.bs[i + 1]), UserSize(x), n) {
        At(p.bs, end, i);
        At(p.bs, end, i + 1);
        ResizedKeeps(p, end, i, n);
      } else {
        ReallocMoves(p, end, off, n);
      }
    } else if n + 36 < UserSize(x) {
      ResizedKeeps(p, end, i, n);
    } else {
      BecomesItself(p, i, n);
    }
  }

  lemma BecomesItself(p: Pool, i: nat, n: nat)
    requires i < |p.bs| && p.bs[i] in Live(p.bs) && p.bs[i].used && n <= UserSize(p.bs[i]) <= n + 36
    ensures Becomes(p.bs, p.bs, p.bs[i], p.bs[i].off, n)
  {
    assert Live(p.bs) - {p.bs[i]} + {p.bs[i]} == Live(p.bs);
  }

  lemma SpaceGrows(p: Pool, end: nat, i: nat)
    requires Good(p, end) && i < |p.bs|
    ensures SpaceEnd(p.bs, i) >= p.bs[i].next
    ensures NextFree(p.bs, i) ==> SpaceEnd(p.bs, i) == p.bs[i].next + 24 + UserSize(p.bs[i + 1])
  {
    if NextFree(p.bs, i) {
      At(p.bs, end, i);
      At(p.bs, end, i + 1);
    }
  }

  lemma ReallocMoves(p: Pool, end: nat, off: nat, n: nat)
    requires Good(p, end) && 12 <= n < WORD && n % 4 == 0
    requires IndexOf(p.bs, off) < |p.bs| && p.bs[IndexOf(p.bs, off)].used
    ensures var (r, at) := Alloc(p, n);
      var x := p.bs[IndexOf(p.bs, off)];
      && (at == None ==> r == p)
      && (at != None ==>
            && IndexOf(r.bs, off) < |r.bs| && r.bs[IndexOf(r.bs, off)] == x
            && Good(Freed(r, IndexOf(r.bs, off)), end)
            && Becomes(p.bs, Freed(r, IndexOf(r.bs, off)).bs, x, at.value, n))
  {
    hide Tiled, NoTwoFree, Roomy, FreeSum, FreeOffs, Live, UsedSum, Plug, Freed, Alloc;
    var (r, at) := Alloc(p, n);
    var x := p.bs[IndexOf(p.bs, off)];
    LiveAt(p.bs, IndexOf(p.bs, off));
    AllocKeeps(p, end, n);
    RoundUpMultiple(n);
    if at != None {
      IndexOfLive(r.bs, 0, end, x);
      FreedLive(r, end, IndexOf(r.bs, off));
    }
  }

  datatype Call = AllocCall(size: nat) | FreeCall(off: nat) | ReallocCall(off: nat, newsize: nat)

  ghost predicate Legal(p: Pool, c: Call) {
    match c
    case AllocCall(size) => size < WORD
    case FreeCall(off) => IndexOf(p.bs, off) < |p.bs| && p.bs[IndexOf(p.bs, off)].used
    case ReallocCall(off, newsize) =>
      newsize < WORD && IndexOf(p.bs, off) < |p.bs| && p.bs[IndexOf(p.bs, off)].used && !Overruns(p.bs, IndexOf(p.bs, off), newsize)
  }

  ghost function Do(p: Pool, c: Call): Pool
    requires Legal(p, c)
  {
    match c
    case AllocCall(size) => Alloc(p, size).0
    case FreeCall(off) => Freed(p, IndexOf(p.bs, off))
    case ReallocCall(off, newsize) => Realloc(p, off, newsize).0
  }

  ghost predicate LegalRun(p: Pool, cs: seq<Call>)
    decreases |cs|
  {
    cs == [] || (Legal(p, cs[0]) && LegalRun(Do(p, cs[0]), cs[1..]))
  }

  ghost function Run(p: Pool, cs: seq<Call>): Pool
    requires LegalRun(p, cs)
    decreases |cs|
  {
    if cs == [] then p else Run(Do(p, cs[0]), cs[1..])
  }

  /** After any legal run the row and the free list still describe the same blocks, free neighbours
      are merged, every block holds at least RT_MEMHEAP_MINIALLOC bytes, and live ranges are apart. */
  lemma {:induction false} RunKeeps(p: Pool, end: nat, cs: seq<Call>)
    requires Good(p, end) && end < WORD && LegalRun(p, cs)
    ensures var r := Run(p, cs);
      && Good(r, end)
      && (forall b, c :: b in Live(r.bs) && c in Live(r.bs) && b != c ==> b.next <= c.off || c.next <= b.off)
      && (Live(r.bs) == {} ==> r == Pool([Block(0, end, false)], [0]))
    decreases |cs|
  {
    hide Live, Shaped, Listed, Alloc, Realloc, Freed;
    if cs == [] {
      forall b, c | b in Live(p.bs) && c in Live(p.bs) && b != c ensures b.next <= c.off || c.next <= b.off { GoodApart(p, end, b, c); }
      if Live(p.bs) == {} { AllFree(p, end); }
    } else {
      match cs[0] {
        case AllocCall(size) => AllocKeeps(p, end, size);
        case FreeCall(off) => FreedLive(p, end, IndexOf(p.bs, off));
        case ReallocCall(off, newsize) => ReallocKeeps(p, end, off, newsize);
      }
      RunKeeps(Do(p, cs[0]), end, cs[1..]);
    }
  }

  lemma GoodApart(p: Pool, end: nat, b: Block, c: Block)
    requires Good(p, end) && b in Live(p.bs) && c in Live(p.bs) && b != c
    ensures b.next <= c.off || c.next <= b.off
  {
    LiveApart(p.bs, 0, end, b, c);
  }

  /** With nothing handed out the pool is as rt_memheap_init left it. */
  lemma AllFree(p: Pool, end: nat)
    requires Good(p, end) && Live(p.bs) == {}
    ensures p == Pool([Block(0, end, false)], [0])
  {
    NothingLive(p.bs, end);
    OneFree(p.bs[0]);
    assert forall x: nat :: x in p.fl <==> x == 0;
    DistinctBound(p.fl, 1);
    assert p.fl[0] in p.fl;
  }
}
