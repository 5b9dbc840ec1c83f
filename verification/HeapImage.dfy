/** How a row of heap blocks is laid out in memory, and what the header writes of
    rt-thread/src/mem.c do to that layout.

    Memory is one slot per byte address.  A header field of several bytes is kept in the slot of
    its lowest address: magic at +0, used at +2, next at +4, prev at +8. */
module HeapImage {
  import opened HeapBlocks

  const HEAP_MAGIC: int := 0x1ea0

  ghost predicate HeaderAt(m: seq<int>, b: Block, prev: nat) {
    && b.off + 12 <= |m|
    && m[b.off] == HEAP_MAGIC
    && m[b.off + 2] == (if b.used then 1 else 0)
    && m[b.off + 4] == b.next
    && m[b.off + 8] == prev
  }

  /** The headers of a row, each linked back to the one before it; prev is the first one's link. */
  ghost predicate Spelled(m: seq<int>, bs: seq<Block>, prev: nat) {
    bs != [] ==> HeaderAt(m, bs[0], prev) && Spelled(m, bs[1..], bs[0].off)
  }

  /** The whole heap.  The prev field of the end marker is not kept up to date by the program, so
      nothing is said of it. */
  ghost predicate Image(m: seq<int>, bs: seq<Block>, end: nat) {
    && Tiled(bs, 0, end)
    && |m| == end + 12 && m[end] == HEAP_MAGIC && m[end + 2] == 1 && m[end + 4] == end
    && Spelled(m, bs, 0)
  }

  ghost function PrevAfter(a: seq<Block>, prev: nat): nat {
    if a == [] then prev else Last(a).off
  }

  lemma {:induction false} SpelledConcat(m: seq<int>, a: seq<Block>, z: seq<Block>, prev: nat)
    ensures Spelled(m, a + z, prev) <==> Spelled(m, a, prev) && Spelled(m, z, PrevAfter(a, prev))
  {
    if a == [] {
      assert a + z == z;
    } else {
      assert (a + z)[1..] == a[1..] + z;
      SpelledConcat(m, a[1..], z, a[0].off);
    }
  }

  lemma SpelledAround(m: seq<int>, a: seq<Block>, x: Block, z: seq<Block>, prev: nat)
    ensures Spelled(m, a + [x] + z, prev) <==> Spelled(m, a, prev) && HeaderAt(m, x, PrevAfter(a, prev)) && Spelled(m, z, x.off)
  {
    assert a + [x] + z == a + ([x] + z);
    assert ([x] + z)[1..] == z;
    SpelledConcat(m, a, [x] + z, prev);
  }

  /** Memory that only changed outside lo..hi, or in the first back link, still spells the row. */
  lemma {:induction false} SpelledFrame(m: seq<int>, m': seq<int>, bs: seq<Block>, prev: nat, prev': nat, lo: nat, hi: nat)
    requires Tiled(bs, lo, hi) && Spelled(m, bs, prev) && |m'| == |m| && hi <= |m|
    requires forall k :: lo <= k < hi && k != lo + 8 ==> m'[k] == m[k]
    requires bs != [] ==> lo + 8 < |m| && m'[lo + 8] == prev'
    ensures Spelled(m', bs, prev')
  {
    if bs != [] {
      TiledEnds(bs[1..], bs[0].next, hi);
      SpelledFrame(m, m', bs[1..], bs[0].off, bs[0].off, bs[0].next, hi);
    }
  }

  /** Writing the used flag of block x. */
  lemma FlagWrite(m: seq<int>, a: seq<Block>, x: Block, z: seq<Block>, end: nat, used: bool)
    requires Image(m, a + [x] + z, end)
    ensures x.off + 12 <= |m|
    ensures Image(m[x.off + 2 := if used then 1 else 0], a + [x.(used := used)] + z, end)
  {
    SpelledAround(m, a, x, z, 0);
    var m' := m[x.off + 2 := if used then 1 else 0];
    TiledAround(a, x, z, 0, end);
    TiledAround(a, x.(used := used), z, 0, end);
    TiledEnds(z, x.next, end);
    SpelledFrame(m, m', a, 0, 0, 0, x.off);
    SpelledFrame(m, m', z, x.off, x.off, x.next, end);
    SpelledAround(m', a, x.(used := used), z, 0);
  }

  /** The writes that unlink the header after the one at `at`, whose successor is `next`. */
  ghost function Merged(m: seq<int>, at: nat, next: nat): seq<int>
    requires at + 4 < |m| && next + 8 < |m|
  {
    m[at + 4 := next][next + 8 := at]
  }

  /** Unlinking the header of y: block x takes over its range. */
  lemma MergeWrite(m: seq<int>, a: seq<Block>, x: Block, y: Block, z: seq<Block>, end: nat)
    requires Image(m, a + [x] + ([y] + z), end)
    ensures x.off + 24 <= y.next <= end
    ensures Image(Merged(m, x.off, y.next), a + [x.(next := y.next)] + z, end)
  {
    SpelledAround(m, a, x, [y] + z, 0);
    assert ([y] + z)[1..] == z;
    TiledAround(a, x, [y] + z, 0, end);
    TiledAround(a, x.(next := y.next), z, 0, end);
    TiledEnds(z, y.next, end);
    var m' := Merged(m, x.off, y.next);
    SpelledFrame(m, m', a, 0, 0, 0, x.off);
    SpelledFrame(m, m', z, y.off, x.off, y.next, end);
    SpelledAround(m', a, x.(next := y.next), z, 0);
  }

  /** The writes that cut block b at offset cut: a free header there, and the links around it. */
  ghost function Cut(m: seq<int>, b: Block, cut: nat, end: nat): (r: seq<int>)
    requires b.off + 12 <= cut && cut + 12 <= b.next <= end && |m| == end + 12
    ensures |r| == |m|
  {
    var h := m[cut := HEAP_MAGIC][cut + 2 := 0][cut + 4 := b.next][cut + 8 := b.off][b.off + 4 := cut];
    if b.next == end then h else h[b.next + 8 := cut]
  }

  lemma CutSlots(m: seq<int>, x: Block, prev: nat, end: nat, cut: nat)
    requires x.off + 12 <= cut && cut + 12 <= x.next <= end && |m| == end + 12 && HeaderAt(m, x, prev)
    requires x.next < end ==> x.next + 12 <= end
    ensures var m' := Cut(m, x, cut, end);
      && HeaderAt(m', x.(next := cut), prev) && HeaderAt(m', Block(cut, x.next, false), x.off)
      && (forall k :: 0 <= k < x.off ==> m'[k] == m[k])
      && (forall k :: x.next <= k < end && k != x.next + 8 ==> m'[k] == m[k])
      && (x.next < end ==> m'[x.next + 8] == cut)
      && m'[end] == m[end] && m'[end + 2] == m[end + 2] && m'[end + 4] == m[end + 4]
  {
  }

  lemma CutWrite(m: seq<int>, a: seq<Block>, x: Block, z: seq<Block>, end: nat, cut: nat)
    requires Image(m, a + [x] + z, end) && x.off + 12 <= cut && cut + 12 <= x.next && cut % 4 == 0
    ensures x.next <= end
    ensures Image(Cut(m, x, cut, end), a + [x.(next := cut)] + ([Block(cut, x.next, false)] + z), end)
  {
    SpelledAround(m, a, x, z, 0);
    TiledAround(a, x, z, 0, end);
    TiledEnds(z, x.next, end);
    CutSlots(m, x, PrevAfter(a, 0), end, cut);
    var m', y, rest := Cut(m, x, cut, end), x.(next := cut), Block(cut, x.next, false);
    SpelledFrame(m, m', a, 0, 0, 0, x.off);
    SpelledFrame(m, m', z, x.off, cut, x.next, end);
    assert ([rest] + z)[1..] == z;
    SpelledAround(m', a, y, [rest] + z, 0);
    TiledAround(a, y, [rest] + z, 0, end);
  }

  ghost predicate SameBytes(m: seq<int>, m': seq<int>, b: Block)
    requires |m| == |m'|
  {
    forall o {:trigger m'[o]} :: b.off + 12 <= o < b.next && o < |m| ==> m'[o] == m[o]
  }

  /** The user bytes of every block in `live` are the same in both memories. */
  ghost predicate SameUser(m: seq<int>, m': seq<int>, live: set<Block>) {
    |m| == |m'| && forall b :: b in live ==> SameBytes(m, m', b)
  }

  /** Writes within block x and the header after it leave all other users alone. */
  lemma OthersSafe(m: seq<int>, m': seq<int>, a: seq<Block>, x: Block, z: seq<Block>, end: nat)
    requires Tiled(a + [x] + z, 0, end) && |m| == |m'|
    requires forall k :: 0 <= k < x.off && k < |m| ==> m'[k] == m[k]
    requires forall k :: x.next + 12 <= k < |m| ==> m'[k] == m[k]
    ensures SameUser(m, m', Live(a) + Live(z))
  {
    TiledAround(a, x, z, 0, end);
    forall b | b in Live(a) + Live(z) ensures SameBytes(m, m', b) {
      if b in Live(a) { LiveWithin(a, 0, x.off, b); } else { LiveWithin(z, x.next, end, b); }
    }
  }

  lemma HeaderOf(m: seq<int>, bs: seq<Block>, end: nat, k: nat)
    requires Image(m, bs, end) && k < |bs|
    ensures HeaderAt(m, bs[k], if k == 0 then 0 else bs[k - 1].off)
  {
    assert bs == bs[..k] + [bs[k]] + bs[k + 1..];
    SpelledAround(m, bs[..k], bs[k], bs[k + 1..], 0);
  }

  /** What the program reads when it looks at block x and the header after it. */
  lemma ReadNext(m: seq<int>, a: seq<Block>, x: Block, z: seq<Block>, end: nat)
    requires Image(m, a + [x] + z, end)
    ensures x.off + 12 <= x.next <= end && HeaderAt(m, x, PrevAfter(a, 0))
    ensures if z == [] then x.next == end && m[end + 2] == 1
            else x.next == z[0].off && x.next + 12 <= z[0].next <= end && HeaderAt(m, z[0], x.off)
  {
    SpelledAround(m, a, x, z, 0);
    TiledAround(a, x, z, 0, end);
    if z != [] { TiledEnds(z[1..], z[0].next, end); }
  }

  /** ... and at the header before it. */
  lemma ReadBack(m: seq<int>, a: seq<Block>, x: Block, z: seq<Block>, end: nat)
    requires Image(m, a + [x] + z, end)
    ensures |m| == end + 12 && x.off + 12 <= x.next <= end && m[x.off + 4] == x.next
    ensures a == [] ==> m[x.off + 8] == x.off
    ensures a != [] ==> Last(a).off + 12 <= x.off && m[x.off + 8] == Last(a).off && m[Last(a).off + 2] == if Last(a).used then 1 else 0
  {
    ReadNext(m, a, x, z, end);
    SpelledAround(m, a, x, z, 0);
    TiledAround(a, x, z, 0, end);
    if a != [] {
      assert a == a[..|a| - 1] + [Last(a)] + [];
      SpelledAround(m, a[..|a| - 1], Last(a), [], 0);
      TiledAround(a[..|a| - 1], Last(a), [], 0, x.off);
    }
  }

  lemma ForwardWrite(m: seq<int>, a: seq<Block>, x: Block, z: seq<Block>, end: nat)
    requires Image(m, a + [x] + z, end) && z != [] && !z[0].used
    ensures x.off + 24 <= z[0].next <= end
    ensures var (x1, z1) := Forward(x, z); var m' := Merged(m, x.off, z[0].next);
      Image(m', a + [x1] + z1, end) && SameUser(m, m', Live(a) + Live(z))
  {
    var (x1, z1) := Forward(x, z);
    assert z == [z[0]] + z1;
    MergeWrite(m, a, x, z[0], z1, end);
    OthersSafe(m, Merged(m, x.off, z[0].next), a, x1, z1, end);
  }

  lemma BackwardWrite(m: seq<int>, a: seq<Block>, x: Block, z: seq<Block>, end: nat)
    requires Image(m, a + [x] + z, end) && !x.used && a != [] && !Last(a).used
    ensures Last(a).off + 24 <= x.next <= end
    ensures var (a1, x1) := Backward(a, x); var m' := Merged(m, x1.off, x.next);
      Image(m', a1 + [x1] + z, end) && SameUser(m, m', Live(a1) + Live(z))
  {
    var (a1, x1) := Backward(a, x);
    assert a + [x] + z == a1 + [Last(a)] + ([x] + z);
    MergeWrite(m, a1, Last(a), x, z, end);
    assert Last(a).(next := x.next) == x1;
    OthersSafe(m, Merged(m, x1.off, x.next), a1, x1, z, end);
  }

  /** Everything rt_free relies on before it calls plug_holes. */
  lemma FreeWrite(m: seq<int>, a: seq<Block>, x: Block, z: seq<Block>, end: nat)
    requires Image(m, a + [x] + z, end) && NoTwoFree(a + [x] + z) && x.used
    ensures |m| == end + 12 && x.off + 12 <= x.next <= end && m[x.off] == HEAP_MAGIC && m[x.off + 4] == x.next
    ensures NoTwoFree(a) && NoTwoFree(z)
    ensures var m' := m[x.off + 2 := 0];
      Image(m', a + [x.(used := false)] + z, end) && SameUser(m, m', Live(a) + Live(z))
    ensures var low := Lowest(a + [x] + z, end);
      Lowest(a, x.off) == if x.off < low then x.off else low
  {
    ReadNext(m, a, x, z, end);
    NoTwoFreeAround(a, x, z);
    FlagWrite(m, a, x, z, end, false);
    OthersSafe(m, m[x.off + 2 := 0], a, x, z, end);
    LowestFreed(a, x, z, end, x.off);
  }

  /** What rt_malloc leaves in memory after handing out the free block x for n bytes. */
  ghost function Taken(m: seq<int>, x: Block, n: nat, end: nat): seq<int>
    requires x.off + 12 <= x.next <= end && |m| == end + 12
  {
    var f := m[x.off + 2 := 1];
    if x.Size() >= n + 24 then Cut(f, x, x.off + 12 + n, end) else f
  }

  lemma TakeWrite(m: seq<int>, a: seq<Block>, x: Block, z: seq<Block>, end: nat, n: nat)
    requires Image(m, a + [x] + z, end) && !x.used && n % 4 == 0
    ensures |m| == end + 12 && x.off + 12 <= x.next <= end && m[x.off] == HEAP_MAGIC && m[x.off + 4] == x.next
    ensures x.next < end ==> x.next + 12 <= end
    ensures var y := Given(x, n);
      Image(Taken(m, x, n, end), a + [y] + (if y.next < x.next then [Block(y.next, x.next, false)] + z else z), end)
  {
    ReadNext(m, a, x, z, end);
    FlagWrite(m, a, x, z, end, true);
    var f, cut := m[x.off + 2 := 1], x.off + 12 + n;
    if x.Size() >= n + 24 {
      assert x.off % 4 == 0 by { TiledAround(a, x, z, 0, end); }
      CutWrite(f, a, x.(used := true), z, end, cut);
      assert Cut(f, x.(used := true), cut, end) == Cut(f, x, cut, end);
    }
  }

  lemma TakeSafe(m: seq<int>, a: seq<Block>, x: Block, z: seq<Block>, end: nat, n: nat)
    requires Tiled(a + [x] + z, 0, end) && x.off + 12 <= x.next <= end && |m| == end + 12
    ensures SameUser(m, Taken(m, x, n, end), Live(a) + Live(z))
  {
    OthersSafe(m, Taken(m, x, n, end), a, x, z, end);
  }

  /** Everything rt_realloc relies on before it calls plug_holes on the tail it cut off. */
  lemma ShrinkWrite(m: seq<int>, a: seq<Block>, x: Block, z: seq<Block>, end: nat, cut: nat)
    requires Image(m, a + [x] + z, end) && NoTwoFree(a + [x] + z) && x.used && x.off + 12 <= cut && cut + 12 <= x.next && cut % 4 == 0
    ensures |m| == end + 12 && x.next <= end && m[x.off + 4] == x.next && (x.next < end ==> x.next + 12 <= end)
    ensures var x0, x1, m' := x.(next := cut), Block(cut, x.next, false), Cut(m, x, cut, end);
      && Image(m', a + [x0] + [x1] + z, end) && SameUser(m, m', Live(a + [x0]) + Live(z))
      && NoTwoFree(a + [x0]) && NoTwoFree(z)
    ensures var low := Lowest(a + [x] + z, end);
      Lowest(a + [x.(next := cut)], cut) == if cut < low then cut else low
  {
    var x0, x1 := x.(next := cut), Block(cut, x.next, false);
    ReadNext(m, a, x, z, end);
    CutWrite(m, a, x, z, end, cut);
    assert a + [x0] + ([x1] + z) == a + [x0] + [x1] + z;
    NoTwoFreeAround(a, x, z);
    NoTwoFreeAround(a, x0, []);
    assert a + [x0] + [] == a + [x0];
    LowestFreed(a, x, z, end, cut);
    SumsConcat(a, [x0], cut);
    ShrinkSafe(m, a, x, z, end, cut);
  }

  lemma ShrinkSafe(m: seq<int>, a: seq<Block>, x: Block, z: seq<Block>, end: nat, cut: nat)
    requires Image(m, a + [x] + z, end) && x.used && x.off + 12 <= cut && cut + 12 <= x.next <= end
    ensures SameUser(m, Cut(m, x, cut, end), Live(a + [x.(next := cut)]) + Live(z))
  {
    OthersSafe(m, Cut(m, x, cut, end), a, x, z, end);
    SumsConcat(a, [x.(next := cut)], cut);
  }

  /** rt_memcpy between two ranges that do not overlap. */
  ghost function Copied(m: seq<int>, to: nat, from: nat, len: nat): seq<int>
    requires to + len <= |m| && from + len <= |m|
  {
    m[..to] + m[from..from + len] + m[to + len..]
  }

  /** The first len bytes at `from` are now the bytes at `to`. */
  ghost predicate Kept(m: seq<int>, m': seq<int>, to: nat, from: nat, len: nat) {
    to + len <= |m'| && from + len <= |m| && forall o {:trigger m'[o]} :: to <= o < to + len ==> m'[o] == m[o - to + from]
  }

  /** Writing into the user bytes of block y leaves the headers, and all other users, alone. */
  lemma UserWrite(m: seq<int>, m': seq<int>, a: seq<Block>, y: Block, z: seq<Block>, end: nat)
    requires Image(m, a + [y] + z, end) && |m'| == |m|
    requires forall k :: 0 <= k < |m| && !(y.off + 12 <= k < y.next) ==> m'[k] == m[k]
    ensures Image(m', a + [y] + z, end) && SameUser(m, m', Live(a) + Live(z))
  {
    ReadNext(m, a, y, z, end);
    SpelledAround(m, a, y, z, 0);
    TiledAround(a, y, z, 0, end);
    SpelledFrame(m, m', a, 0, 0, 0, y.off);
    SpelledFrame(m, m', z, y.off, y.off, y.next, end);
    SpelledAround(m', a, y, z, 0);
    OthersSafe(m, m', a, y, z, end);
  }

  lemma SameUserSelf(m: seq<int>, live: set<Block>)
    ensures SameUser(m, m, live)
  {
  }

  lemma SameUserPart(m0: seq<int>, m1: seq<int>, live: set<Block>, part: set<Block>)
    requires SameUser(m0, m1, live) && part <= live
    ensures SameUser(m0, m1, part)
  {
  }

  lemma SameUserTrans(m0: seq<int>, m1: seq<int>, m2: seq<int>, live1: set<Block>, live2: set<Block>, both: set<Block>)
    requires SameUser(m0, m1, live1) && SameUser(m1, m2, live2) && both <= live1 && both <= live2
    ensures SameUser(m0, m2, both)
  {
    forall b | b in both ensures SameBytes(m0, m2, b) {
      assert SameBytes(m0, m1, b) && SameBytes(m1, m2, b);
    }
  }

  lemma KeptAfter(m0: seq<int>, m1: seq<int>, m2: seq<int>, to: nat, from: nat, len: nat, y: Block, live: set<Block>)
    requires Kept(m0, m1, to, from, len) && SameUser(m1, m2, live) && y in live && y.off + 12 == to && to + len <= y.next <= |m1|
    ensures Kept(m0, m2, to, from, len)
  {
    assert SameBytes(m1, m2, y);
  }

  lemma KeptBefore(m0: seq<int>, m1: seq<int>, m2: seq<int>, to: nat, from: nat, len: nat, x: Block, live: set<Block>)
    requires SameUser(m0, m1, live) && x in live && x.off + 12 == from && from + len <= x.next <= |m0| && Kept(m1, m2, to, from, len)
    ensures Kept(m0, m2, to, from, len)
  {
    assert SameBytes(m0, m1, x);
  }
}
