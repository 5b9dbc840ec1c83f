/** What rt_malloc, rt_free and rt_realloc of rt-thread/src/mem.c mean for the set of live ranges,
    over single calls and over whole runs, and where the code falls short of its promise. */
module HeapRuns {
  import opened HeapBlocks

  /** The loop bound only excludes a last block of exactly the requested size. */
  lemma FitsIff(bs: seq<Block>, memSize: nat, i: nat, n: nat)
    requires WellFormed(bs, memSize + 12) && i < |bs| && n <= memSize
    ensures Fits(bs[i], n, memSize) <==> !bs[i].used && bs[i].Size() >= n && !(i == |bs| - 1 && bs[i].Size() == n)
  {
    At(bs, memSize + 12, i);
  }

  /** Because free blocks are merged, a stretch of the heap that no live range touches lies inside
      one free block. */
  lemma {:induction false} HoleIsOneBlock(bs: seq<Block>, lo: nat, hi: nat, from: nat, to: nat) returns (i: nat)
    requires Tiled(bs, lo, hi) && NoTwoFree(bs) && lo <= from < to <= hi
    requires forall b :: b in Live(bs) ==> b.next <= from || to <= b.off
    ensures i < |bs| && !bs[i].used && bs[i].off <= from && to <= bs[i].next
  {
    if from >= bs[0].next {
      i := HoleIsOneBlock(bs[1..], bs[0].next, hi, from, to);
      i := i + 1;
    } else {
      i := 0;
      assert bs[0].used ==> bs[0] in Live(bs);
      assert |bs| > 1 ==> bs[1..][0] == bs[1];
      assert |bs| > 1 && bs[1].used ==> bs[1] in Live(bs);
    }
  }

  /** With nothing handed out the heap is again the single free block it started as. */
  lemma NothingLive(bs: seq<Block>, end: nat)
    requires WellFormed(bs, end) && Live(bs) == {}
    ensures bs == [Block(0, end, false)]
  {
    TiledEnds(bs, 0, end);
    var i := HoleIsOneBlock(bs, 0, end, 0, end);
    At(bs, end, i);
    assert bs[..i] != [] ==> i > 0;
    At(bs, end, 0);
    FirstAtZero(bs, 0, end, i);
  }

  lemma {:induction false} FirstAtZero(bs: seq<Block>, lo: nat, end: nat, i: nat)
    requires Tiled(bs, lo, end) && i < |bs| && bs[i].off <= lo
    ensures i == 0
  {
    if i > 0 { BelowLowest(bs[1..], bs[0].next, end, i - 1); }
  }

  // ---------- The calls, seen as operations on the set of live ranges ----------

  /** The range a successful rt_malloc hands out. */
  ghost function Handed(bs: seq<Block>, memSize: nat, size: nat): Block
    requires size < WORD && Room(bs, memSize, size) < |bs|
  {
    Given(bs[Room(bs, memSize, size)], Request(size, memSize).value)
  }

  /** rt_malloc takes the lowest free block that is large enough, and hands out just the request, counted in words
      and at least 12 bytes, unless what would be left could not hold a block of its own: one new range, apart
      from every live one.  Or it changes nothing. */
  lemma MallocRefines(bs: seq<Block>, memSize: nat, size: nat)
    requires WellFormed(bs, memSize + 12) && size < WORD
    ensures WellFormed(AfterMalloc(bs, memSize, size), memSize + 12)
    ensures Room(bs, memSize, size) == |bs| ==> AfterMalloc(bs, memSize, size) == bs
    ensures Room(bs, memSize, size) < |bs| ==>
      var k, n := Room(bs, memSize, size), if RoundUp(size) < 12 then 12 else RoundUp(size);
      var y, r := Handed(bs, memSize, size), AfterMalloc(bs, memSize, size);
      && !bs[k].used && bs[k].Size() >= n && (forall j :: 0 <= j < k ==> bs[j].used || bs[j].Size() < n)
      && y.used && y.off == bs[k].off && (if bs[k].Size() >= n + 24 then y.Size() == n else y.next == bs[k].next)
      && n <= y.Size() < n + 24 && y.off % 4 == 0 && y.next <= memSize + 12
      && y !in Live(bs) && Live(r) == Live(bs) + {y}
      && (forall b :: b in Live(bs) ==> b.next <= y.off || y.next <= b.off)
      && UsedSum(r) == UsedSum(bs) + y.Span()
  {
    hide Tiled, NoTwoFree, Live, UsedSum, Take;
    var k := Room(bs, memSize, size);
    if k < |bs| {
      var n, y := Request(size, memSize).value, Handed(bs, memSize, size);
      TakeKeeps(bs, memSize + 12, k, n);
      NotLive(bs, memSize + 12, k, y);
      At(bs, memSize + 12, k);
      forall b | b in Live(bs) ensures b.next <= y.off || y.next <= b.off { ApartFrom(bs, memSize + 12, k, b); }
      forall j | 0 <= j < k ensures bs[j].used || bs[j].Size() < n { FitsIff(bs, memSize, j, n); }
    }
  }

  /** A free block is apart from every live one. */
  lemma ApartFrom(bs: seq<Block>, end: nat, k: nat, b: Block)
    requires WellFormed(bs, end) && k < |bs| && !bs[k].used && b in Live(bs)
    ensures b.next <= bs[k].off || bs[k].next <= b.off
  {
    LiveWithin(bs, 0, end, b);
    IndexOfLive(bs, 0, end, b);
    var j := IndexOf(bs, b.off);
    if j < k { OffsOrdered(bs, 0, end, j, k); } else { OffsOrdered(bs, 0, end, k, j); }
  }

  lemma FreeRefines(bs: seq<Block>, end: nat, off: nat)
    requires WellFormed(bs, end) && IndexOf(bs, off) < |bs| && bs[IndexOf(bs, off)].used
    ensures var x, r := bs[IndexOf(bs, off)], FreeAt(bs, off);
      WellFormed(r, end) && x in Live(bs) && Live(r) == Live(bs) - {x} && UsedSum(r) == UsedSum(bs) - x.Span()
  {
    ReleaseKeeps(bs, end, IndexOf(bs, off));
  }

  /** rt_realloc either trims the range in place, or replaces it by one apart from all others, or
      drops it, or leaves the set alone. */
  lemma ReallocRefines(bs: seq<Block>, memSize: nat, off: nat, newsize: nat)
    requires WellFormed(bs, memSize + 12) && newsize < WORD
    requires IndexOf(bs, off) < |bs| && bs[IndexOf(bs, off)].used
    ensures var n, x, r := RoundUp(newsize), bs[IndexOf(bs, off)], AfterRealloc(bs, memSize, off, newsize);
      && WellFormed(r, memSize + 12)
      && Live(r) ==
         if n > memSize || n == x.Size() then (if n == 0 then Live(bs) - {x} else Live(bs))
         else if n == 0 then Live(bs) - {x}
         else if n + 24 < x.Size() then Live(bs) - {x} + {x.(next := x.off + 12 + n)}
         else if Room(bs, memSize, n) == |bs| then Live(bs)
         else Live(bs) - {x} + {Handed(bs, memSize, n)}
    ensures var n, k := RoundUp(newsize), Room(bs, memSize, RoundUp(newsize));
      n > 0 && k < |bs| ==>
        var y, m := Handed(bs, memSize, n), if n < 12 then 12 else n;
        && !bs[k].used && y.used && y.off == bs[k].off && m <= y.Size() < m + 24
        && (if bs[k].Size() >= m + 24 then y.Size() == m else y.next == bs[k].next)
  {
    hide Tiled, NoTwoFree, Live, UsedSum, Take, Release, Shrink, Lowest;
    var n, i := RoundUp(newsize), IndexOf(bs, off);
    var x := bs[i];
    RoundUpMultiple(n);
    FreeRefines(bs, memSize + 12, off);
    if Room(bs, memSize, n) < |bs| { MallocRefines(bs, memSize, n); }
    if n > 0 && n + 24 < x.Size() {
      ShrinkKeeps(bs, memSize + 12, i, n);
    } else if Room(bs, memSize, n) < |bs| {
      var r := AfterMalloc(bs, memSize, n);
      IndexOfLive(r, 0, memSize + 12, x);
      FreeRefines(r, memSize + 12, off);
    }
  }

  /** Freeing what rt_malloc just handed out restores the very same row. */
  lemma FreeUndoesMalloc(bs: seq<Block>, memSize: nat, size: nat)
    requires WellFormed(bs, memSize + 12) && size < WORD && Room(bs, memSize, size) < |bs|
    ensures FreeAt(AfterMalloc(bs, memSize, size), bs[Room(bs, memSize, size)].off) == bs
  {
    hide Tiled, NoTwoFree, Live, UsedSum, Lowest;
    var k, n := Room(bs, memSize, size), Request(size, memSize).value;
    var y, r := Given(bs[k], n), Take(bs, k, n);
    At(bs, memSize + 12, k);
    if k > 0 { At(bs, memSize + 12, k - 1); }
    TakenAt(bs, memSize + 12, k, n);
    assert r[..k] == bs[..k];
    assert bs == bs[..k] + [bs[k]] + bs[k + 1..];
    if y.next < bs[k].next {
      assert r[k + 1..] == [Block(y.next, bs[k].next, false)] + bs[k + 1..];
      assert r[k + 1..][1..] == bs[k + 1..];
    } else {
      assert r[k + 1..] == bs[k + 1..];
    }
  }

  /** The block just handed out is found at its old offset. */
  lemma TakenAt(bs: seq<Block>, end: nat, k: nat, n: nat)
    requires WellFormed(bs, end) && k < |bs| && !bs[k].used && bs[k].Size() >= n && n % 4 == 0
    ensures var r := Take(bs, k, n);
      && k < |r| && r[..k] == bs[..k] && IndexOf(r, bs[k].off) == k
      && r[k] == Given(bs[k], n) && r[k].used && n <= r[k].Size() < n + 24 && (bs[k].Size() >= n + 24 ==> r[k].Size() == n)
  {
    hide Tiled, NoTwoFree, Live, UsedSum, Lowest;
    var y, r := Given(bs[k], n), Take(bs, k, n);
    TakeKeeps(bs, end, k, n);
    LiveAt(r, k);
    IndexOfLive(r, 0, end, y);
    forall j | 0 <= j < k ensures r[j].off != y.off { OffsOrdered(bs, 0, end, j, k); }
  }

  // ---------- Whole runs ----------

  datatype Call = Malloc(size: nat) | Free(off: nat) | Realloc(off: nat, newsize: nat)

  /** A call a correct client may make: sizes fit 32 bits, pointers are live. */
  ghost predicate Legal(bs: seq<Block>, c: Call) {
    match c
    case Malloc(size) => size < WORD
    case Free(off) => IndexOf(bs, off) < |bs| && bs[IndexOf(bs, off)].used
    case Realloc(off, newsize) => newsize < WORD && IndexOf(bs, off) < |bs| && bs[IndexOf(bs, off)].used
  }

  ghost function Do(bs: seq<Block>, memSize: nat, c: Call): seq<Block>
    requires Legal(bs, c)
  {
    match c
    case Malloc(size) => AfterMalloc(bs, memSize, size)
    case Free(off) => FreeAt(bs, off)
    case Realloc(off, newsize) => AfterRealloc(bs, memSize, off, newsize)
  }

  ghost predicate LegalRun(bs: seq<Block>, memSize: nat, cs: seq<Call>)
    decreases |cs|
  {
    cs == [] || (Legal(bs, cs[0]) && LegalRun(Do(bs, memSize, cs[0]), memSize, cs[1..]))
  }

  ghost function Run(bs: seq<Block>, memSize: nat, cs: seq<Call>): seq<Block>
    requires LegalRun(bs, memSize, cs)
    decreases |cs|
  {
    if cs == [] then bs else Run(Do(bs, memSize, cs[0]), memSize, cs[1..])
  }

  /** The call neither frees nor reallocates a block of mine. */
  ghost predicate Apart(bs: seq<Block>, c: Call, mine: set<Block>)
    requires Legal(bs, c)
  {
    match c
    case Malloc(size) => true
    case Free(off) => bs[IndexOf(bs, off)] !in mine
    case Realloc(off, newsize) => bs[IndexOf(bs, off)] !in mine
  }

  ghost predicate LegalApart(bs: seq<Block>, memSize: nat, cs: seq<Call>, mine: set<Block>)
    decreases |cs|
  {
    cs == [] || (Legal(bs, cs[0]) && Apart(bs, cs[0], mine) && LegalApart(Do(bs, memSize, cs[0]), memSize, cs[1..], mine))
  }

  lemma {:induction false} ApartLegal(bs: seq<Block>, memSize: nat, cs: seq<Call>, mine: set<Block>)
    requires LegalApart(bs, memSize, cs, mine)
    ensures LegalRun(bs, memSize, cs)
    decreases |cs|
  {
    hide Do, Apart, Legal;
    if cs != [] { ApartLegal(Do(bs, memSize, cs[0]), memSize, cs[1..], mine); }
  }

  /** Such a call leaves my blocks live. */
  lemma ApartKeeps(bs: seq<Block>, memSize: nat, c: Call, mine: set<Block>)
    requires WellFormed(bs, memSize + 12) && Legal(bs, c) && Apart(bs, c, mine) && mine <= Live(bs)
    ensures WellFormed(Do(bs, memSize, c), memSize + 12) && mine <= Live(Do(bs, memSize, c))
  {
    hide Tiled, NoTwoFree, Live, UsedSum, AfterMalloc, AfterRealloc, FreeAt;
    match c {
      case Malloc(size) => MallocRefines(bs, memSize, size);
      case Free(off) => FreeRefines(bs, memSize + 12, off);
      case Realloc(off, newsize) => ReallocRefines(bs, memSize, off, newsize);
    }
  }

  /** After any legal run the blocks tile the heap, free neighbours are merged, live ranges are
      pairwise apart, and a run that frees everything ends where it began. */
  lemma {:induction false} RunKeeps(bs: seq<Block>, memSize: nat, cs: seq<Call>)
    requires WellFormed(bs, memSize + 12) && LegalRun(bs, memSize, cs)
    ensures var r := Run(bs, memSize, cs);
      && WellFormed(r, memSize + 12)
      && (forall b, c :: b in Live(r) && c in Live(r) && b != c ==> b.next <= c.off || c.next <= b.off)
      && (Live(r) == {} ==> r == [Block(0, memSize + 12, false)])
    decreases |cs|
  {
    if cs == [] {
      forall b, c | b in Live(bs) && c in Live(bs) && b != c ensures b.next <= c.off || c.next <= b.off {
        LiveApart(bs, 0, memSize + 12, b, c);
      }
      if Live(bs) == {} { NothingLive(bs, memSize + 12); }
    } else {
      match cs[0] {
        case Malloc(size) => MallocRefines(bs, memSize, size);
        case Free(off) => FreeRefines(bs, memSize + 12, off);
        case Realloc(off, newsize) => ReallocRefines(bs, memSize, off, newsize);
      }
      RunKeeps(Do(bs, memSize, cs[0]), memSize, cs[1..]);
    }
  }

  /** rt_malloc returns null exactly when every stretch of the heap outside the live ranges is too
      short for a header and the rounded size, or is the very end of the heap and has just that
      length: the loop bound skips such a last block. */
  lemma MallocFailsIff(bs: seq<Block>, memSize: nat, size: nat)
    requires WellFormed(bs, memSize + 12) && size < WORD && memSize >= 12
    ensures Room(bs, memSize, size) == |bs| <==>
            size == 0 || forall from: nat, to: nat :: Hole(bs, memSize, from, to) ==>
              TooShort(to - from, to == memSize + 12, if RoundUp(size) < 12 then 12 else RoundUp(size))
  {
    var n, k := if RoundUp(size) < 12 then 12 else RoundUp(size), Room(bs, memSize, size);
    if k == |bs| {
      forall from: nat, to: nat | size > 0 && Hole(bs, memSize, from, to) ensures TooShort(to - from, to == memSize + 12, n) {
        var i := HoleIsOneBlock(bs, 0, memSize + 12, from, to);
        if n <= memSize { FitsIff(bs, memSize, i, n); }
        At(bs, memSize + 12, i);
      }
    } else {
      At(bs, memSize + 12, k);
      FitsIff(bs, memSize, k, n);
      forall b | b in Live(bs) ensures b.next <= bs[k].off || bs[k].next <= b.off { ApartFrom(bs, memSize + 12, k, b); }
      assert Hole(bs, memSize, bs[k].off, bs[k].next);
    }
  }

  ghost predicate Hole(bs: seq<Block>, memSize: nat, from: nat, to: nat) {
    from < to <= memSize + 12 && forall b :: b in Live(bs) ==> b.next <= from || to <= b.off
  }

  ghost predicate TooShort(length: int, atEnd: bool, n: nat) {
    length < n + 12 || (atEnd && length == n + 12)
  }

  /** The request covers what the caller asked for unless rounding up wrapped around. */
  lemma RequestCoversIff(size: nat, memSize: nat)
    requires size < WORD && Request(size, memSize) != None
    ensures Request(size, memSize).value >= size <==> size <= WORD - 4
  {
  }

  /** The offset rt_malloc's loop variable holds after t steps without a hit. */
  ghost function SearchAt(bs: seq<Block>, end: nat, t: nat): nat {
    if t == 0 then Lowest(bs, end)
    else
      var i := IndexOf(bs, SearchAt(bs, end, t - 1));
      if i < |bs| then bs[i].next else end
  }

  /** On a heap with fewer than 12 user bytes the loop bound memSize - 12 wraps around: the guard
      holds and nothing fits at every step, so the search never ends. */
  lemma {:induction false} TinyHeapSearch(bs: seq<Block>, memSize: nat, t: nat)
    requires WellFormed(bs, memSize + 12) && memSize < 12
    ensures var p := SearchAt(bs, memSize + 12, t);
      && p < memSize - 12 + WORD
      && (IndexOf(bs, p) < |bs| ==> bs[IndexOf(bs, p)].Size() < 12)
  {
    LowestAbove(bs, 0, memSize + 12);
    if t > 0 { TinyHeapSearch(bs, memSize, t - 1); }
    var i := IndexOf(bs, SearchAt(bs, memSize + 12, t));
    if i < |bs| { At(bs, memSize + 12, i); }
    if t > 0 {
      var j := IndexOf(bs, SearchAt(bs, memSize + 12, t - 1));
      if j < |bs| { At(bs, memSize + 12, j); }
    }
  }
}
