/** The page allocator and the size classes of rt-thread/src/slab.c. */
module Slab {
  import Bits

  // ---------- zoneindex ----------

  datatype Class = Class(size: nat, index: nat)

  /** n rounded up to a multiple of step, a power of two: (n + step - 1) & ~(step - 1). */
  function Up(n: nat, step: nat): nat
    requires step > 0
  {
    (n + step - 1) / step * step
  }

  /** zoneindex: the rounded request and its zone. */
  function ZoneIndex(n: nat): Class
    requires 0 < n < 16384
  {
    if n < 128 then Class(Up(n, 8), Up(n, 8) / 8 - 1)
    else if n < 256 then Class(Up(n, 16), Up(n, 16) / 16 + 7)
    else if n < 512 then Class(Up(n, 32), Up(n, 32) / 32 + 15)
    else if n < 1024 then Class(Up(n, 64), Up(n, 64) / 64 + 23)
    else if n < 2048 then Class(Up(n, 128), Up(n, 128) / 128 + 31)
    else if n < 4096 then Class(Up(n, 256), Up(n, 256) / 256 + 39)
    else if n < 8192 then Class(Up(n, 512), Up(n, 512) / 512 + 47)
    else Class(Up(n, 1024), Up(n, 1024) / 1024 + 55)
  }

  /** The chunk size of a zone. */
  function SizeOfZone(z: nat): nat {
    if z < 16 then 8 * (z + 1)
    else if z < 24 then 16 * (z - 7)
    else if z < 32 then 32 * (z - 15)
    else if z < 40 then 64 * (z - 23)
    else if z < 48 then 128 * (z - 31)
    else if z < 56 then 256 * (z - 39)
    else if z < 64 then 512 * (z - 47)
    else 1024 * (z - 55)
  }

  /** Every request below the zone limit fits its zone, wastes less than 8 bytes below 128 and less than an
      eighth of itself above, and the zone number, below 72, and the rounded size determine each other. */
  lemma ZoneIndexFits(n: nat)
    requires 0 < n < 16384
    ensures var c := ZoneIndex(n);
      && n <= c.size && c.index < 72 && c.size == SizeOfZone(c.index)
      && (n < 128 ==> c.size - n < 8) && (n >= 128 ==> 8 * (c.size - n) < n)
  {
    hide Up;
    var step := if n < 128 then 8 else if n < 256 then 16 else if n < 512 then 32 else if n < 1024 then 64
      else if n < 2048 then 128 else if n < 4096 then 256 else if n < 8192 then 512 else 1024;
    UpIs(n, step);
  }

  lemma UpIs(n: nat, step: nat)
    requires step > 0
    ensures var r := Up(n, step); n <= r < n + step && r == step * (r / step) && r / step == (n + step - 1) / step
  {
    var q := (n + step - 1) / step;
    Bits.DivUnique(q * step, step, q, 0);
  }

  lemma ZonesDistinct(n: nat, m: nat)
    requires 0 < n < 16384 && 0 < m < 16384
    ensures ZoneIndex(n).index == ZoneIndex(m).index <==> ZoneIndex(n).size == ZoneIndex(m).size
    ensures n <= m ==> ZoneIndex(n).size <= ZoneIndex(m).size
  {
    ZoneIndexFits(n);
    ZoneIndexFits(m);
    SizesRise(ZoneIndex(n).index, ZoneIndex(m).index);
    SizesRise(ZoneIndex(m).index, ZoneIndex(n).index);
  }

  lemma SizesRise(y: nat, z: nat)
    ensures y < z ==> SizeOfZone(y) < SizeOfZone(z)
  {
  }

  // ---------- rt_page_alloc and rt_page_free ----------

  /** A run of free pages, as its first page and their number. */
  datatype Run = Run(start: nat, pages: nat) {
    function End(): nat { start + pages }
  }

  /** In address order, none empty, and no two touching: fully merged. */
  ghost predicate Merged(list: seq<Run>) {
    list == [] || (list[0].pages > 0 && (|list| > 1 ==> list[0].End() < list[1].start) && Merged(list[1..]))
  }

  /** The simple view: which pages are free. */
  ghost predicate Free(list: seq<Run>, page: nat) {
    list != [] && (list[0].start <= page < list[0].End() || Free(list[1..], page))
  }

  lemma {:induction false} MergedConcat(a: seq<Run>, b: seq<Run>)
    ensures Merged(a + b) <==> Merged(a) && Merged(b) && (a != [] && b != [] ==> a[|a| - 1].End() < b[0].start)
  {
    if a == [] {
      assert a + b == b;
    } else {
      assert (a + b)[1..] == a[1..] + b;
      MergedConcat(a[1..], b);
    }
  }

  lemma {:induction false} FreeConcat(a: seq<Run>, b: seq<Run>, page: nat)
    ensures Free(a + b, page) <==> Free(a, page) || Free(b, page)
  {
    if a == [] {
      assert a + b == b;
    } else {
      assert (a + b)[1..] == a[1..] + b;
      FreeConcat(a[1..], b, page);
    }
  }

  lemma Around(a: seq<Run>, x: Run, z: seq<Run>)
    ensures Merged(a + [x] + z) <==>
      && Merged(a) && Merged(z) && x.pages > 0
      && (a != [] ==> a[|a| - 1].End() < x.start) && (z != [] ==> x.End() < z[0].start)
  {
    assert [x][1..] == [];
    MergedConcat(a + [x], z);
    MergedConcat(a, [x]);
  }

  lemma FreeAround(a: seq<Run>, x: Run, z: seq<Run>, page: nat)
    ensures Free(a + [x] + z, page) <==> Free(a, page) || x.start <= page < x.End() || Free(z, page)
  {
    assert [x][1..] == [];
    FreeConcat(a + [x], z, page);
    FreeConcat(a, [x], page);
  }

  /** Free pages lie between the first start and the last end. */
  lemma {:induction false} FreeWithin(list: seq<Run>, page: nat)
    requires Merged(list) && Free(list, page)
    ensures list[0].start <= page < list[|list| - 1].End()
  {
    if !(list[0].start <= page < list[0].End()) {
      FreeWithin(list[1..], page);
    } else {
      Ordered(list);
    }
  }

  lemma {:induction false} Ordered(list: seq<Run>)
    requires Merged(list) && list != []
    ensures list[0].End() <= list[|list| - 1].End()
  {
    if |list| > 1 { Ordered(list[1..]); }
  }

  ghost predicate Unused(list: seq<Run>, x: Run) {
    forall page: nat :: x.start <= page < x.End() ==> !Free(list, page)
  }

  /** After has the free pages of before and those of x, no more and no less. */
  ghost predicate Gains(before: seq<Run>, after: seq<Run>, x: Run) {
    forall page: nat :: Free(after, page) <==> Free(before, page) || x.start <= page < x.End()
  }

  /** The first n pages of run b are taken. */
  lemma TakenPages(a: seq<Run>, b: Run, z: seq<Run>, n: nat)
    requires Merged(a + [b] + z) && 0 < n <= b.pages
    ensures var r := if b.pages > n then a + [Run(b.start + n, b.pages - n)] + z else a + z;
      Merged(r) && Unused(r, Run(b.start, n)) && Gains(r, a + [b] + z, Run(b.start, n))
  {
    var rest := Run(b.start + n, b.pages - n);
    Around(a, b, z);
    Around(a, rest, z);
    MergedConcat(a, z);
    forall page: nat | true
      ensures Free(a + [b] + z, page) <==> Free(a, page) || b.start <= page < b.End() || Free(z, page)
      ensures Free(a + [rest] + z, page) <==> Free(a, page) || rest.start <= page < rest.End() || Free(z, page)
      ensures Free(a + z, page) <==> Free(a, page) || Free(z, page)
      ensures b.start <= page < b.End() ==> !Free(a, page) && !Free(z, page)
    {
      FreeAround(a, b, z, page);
      FreeAround(a, rest, z, page);
      FreeConcat(a, z, page);
      if Free(a, page) { FreeWithin(a, page); }
      if Free(z, page) { FreeWithin(z, page); }
    }
  }

  /** Pages in use do not overlap a free run. */
  lemma Apart(a: seq<Run>, b: Run, z: seq<Run>, x: Run)
    requires Merged(a + [b] + z) && x.pages > 0 && Unused(a + [b] + z, x)
    ensures b.End() <= x.start || x.End() <= b.start
    ensures z != [] ==> (z[0].End() <= x.start || x.End() <= z[0].start) && b.End() < z[0].start < z[0].End()
  {
    Around(a, b, z);
    var page := if b.start > x.start then b.start else x.start;
    FreeAround(a, b, z, page);
    if z != [] {
      var p := if z[0].start > x.start then z[0].start else x.start;
      FreeAround(a, b, z, p);
    }
  }

  /** x joins the runs on both sides, one side, or neither. */
  lemma JoinBoth(a: seq<Run>, b: Run, x: Run, c: Run, rest: seq<Run>)
    requires Merged(a + [b] + ([c] + rest)) && b.End() == x.start && x.End() == c.start
    ensures var r := a + [Run(b.start, b.pages + x.pages + c.pages)] + rest; Merged(r) && Gains(a + [b] + ([c] + rest), r, x)
  {
    var all := Run(b.start, b.pages + x.pages + c.pages);
    Around(a, b, [c] + rest);
    assert [] + [c] + rest == [c] + rest;
    Around([], c, rest);
    Around(a, all, rest);
    forall page: nat | true
      ensures Free(a + [b] + ([c] + rest), page) <==> Free(a, page) || b.start <= page < b.End() || c.start <= page < c.End() || Free(rest, page)
      ensures Free(a + [all] + rest, page) <==> Free(a, page) || all.start <= page < all.End() || Free(rest, page)
    {
      FreeAround(a, b, [c] + rest, page);
      FreeAround([], c, rest, page);
      FreeAround(a, all, rest, page);
    }
  }

  lemma Grown(a: seq<Run>, b: Run, y: Run, x: Run, z: seq<Run>)
    requires Merged(a + [b] + z) && Merged(a + [y] + z)
    requires (y.start == b.start && b.End() == x.start && y.End() == x.End()) || (y.start == x.start && x.End() == b.start && y.End() == b.End())
    ensures Gains(a + [b] + z, a + [y] + z, x)
  {
    forall page: nat | true
      ensures Free(a + [b] + z, page) <==> Free(a, page) || b.start <= page < b.End() || Free(z, page)
      ensures Free(a + [y] + z, page) <==> Free(a, page) || y.start <= page < y.End() || Free(z, page)
    {
      FreeAround(a, b, z, page);
      FreeAround(a, y, z, page);
    }
  }

  lemma JoinLeft(a: seq<Run>, b: Run, x: Run, z: seq<Run>)
    requires Merged(a + [b] + z) && b.End() == x.start && (z != [] ==> x.End() < z[0].start)
    ensures var r := a + [Run(b.start, b.pages + x.pages)] + z; Merged(r) && Gains(a + [b] + z, r, x)
  {
    Around(a, b, z);
    Around(a, Run(b.start, b.pages + x.pages), z);
    Grown(a, b, Run(b.start, b.pages + x.pages), x, z);
  }

  lemma JoinRight(a: seq<Run>, b: Run, x: Run, z: seq<Run>)
    requires Merged(a + [b] + z) && b.start == x.End() && (a != [] ==> a[|a| - 1].End() < x.start)
    ensures var r := a + [Run(x.start, b.pages + x.pages)] + z; Merged(r) && Gains(a + [b] + z, r, x)
  {
    Around(a, b, z);
    Around(a, Run(x.start, b.pages + x.pages), z);
    Grown(a, b, Run(x.start, b.pages + x.pages), x, z);
  }

  lemma Between(a: seq<Run>, x: Run, z: seq<Run>)
    requires Merged(a + z) && x.pages > 0 && (a != [] ==> a[|a| - 1].End() < x.start) && (z != [] ==> x.End() < z[0].start)
    ensures Merged(a + [x] + z) && Gains(a + z, a + [x] + z, x)
  {
    MergedConcat(a, z);
    Around(a, x, z);
    forall page: nat | true
      ensures Free(a + [x] + z, page) <==> Free(a, page) || x.start <= page < x.End() || Free(z, page)
      ensures Free(a + z, page) <==> Free(a, page) || Free(z, page)
    {
      FreeAround(a, x, z, page);
      FreeConcat(a, z, page);
    }
  }

  /** Because runs are merged, consecutive free pages lie in one run: so rt_page_alloc fails exactly when no
      n consecutive pages are free. */
  lemma {:induction false} StretchIsOneRun(list: seq<Run>, p: nat, n: nat) returns (k: nat)
    requires Merged(list) && n > 0 && forall page: nat :: p <= page < p + n ==> Free(list, page)
    ensures k < |list| && list[k].start <= p && p + n <= list[k].End()
  {
    assert Free(list, p);
    var b := list[0];
    if b.start <= p < b.End() {
      k := 0;
      if p + n > b.End() {
        assert Free(list, b.End()) && Free(list[1..], b.End());
        FreeWithin(list[1..], b.End());
      }
    } else {
      FreeWithin(list, p);
      assert forall page: nat :: p <= page < p + n ==> Free(list, page) && Free(list[1..], page);
      k := StretchIsOneRun(list[1..], p, n);
      k := k + 1;
    }
  }

  /** rt_page_alloc: the first run that is long enough gives its first n pages. */
  function AllocPages(list: seq<Run>, n: nat): (seq<Run>, Option) {
    if n == 0 || list == [] then (list, None)
    else if list[0].pages > n then ([Run(list[0].start + n, list[0].pages - n)] + list[1..], Some(list[0].start))
    else if list[0].pages == n then (list[1..], Some(list[0].start))
    else
      var (rest, r) := AllocPages(list[1..], n);
      ([list[0]] + rest, r)
  }

  /** rt_page_free: x joins the runs it touches, or stands between two. */
  function FreePages(list: seq<Run>, x: Run): seq<Run> {
    if list == [] then [x]
    else
      var b := list[0];
      if b.End() == x.start then
        if |list| > 1 && x.End() == list[1].start then [Run(b.start, b.pages + x.pages + list[1].pages)] + list[2..]
        else [Run(b.start, b.pages + x.pages)] + list[1..]
      else if b.start == x.End() then [Run(x.start, b.pages + x.pages)] + list[1..]
      else if b.start > x.End() then [x] + list
      else [b] + FreePages(list[1..], x)
  }

  /** One look at the first run. */
  lemma FreeUnfold(list: seq<Run>, x: Run)
    requires list != []
    ensures FreePages(list, x) == (
      var b := list[0];
      if b.End() == x.start then
        if |list| > 1 && x.End() == list[1].start then [Run(b.start, b.pages + x.pages + list[1].pages)] + list[2..]
        else [Run(b.start, b.pages + x.pages)] + list[1..]
      else if b.start == x.End() then [Run(x.start, b.pages + x.pages)] + list[1..]
      else if b.start > x.End() then [x] + list
      else [b] + FreePages(list[1..], x))
  {
  }

  /** Exactly n consecutive pages stop being free; None if and only if n is 0 or every run is shorter. */
  lemma {:induction false} AllocKeeps(list: seq<Run>, n: nat)
    requires Merged(list)
    ensures var (r, p) := AllocPages(list, n);
      && Merged(r) && (p == None ==> r == list)
      && (p == None <==> n == 0 || forall j :: 0 <= j < |list| ==> list[j].pages < n)
      && (p != None ==> Unused(r, Run(p.page, n)) && Gains(r, list, Run(p.page, n)))
      && (r != [] && list != [] ==> r[0].start >= list[0].start)
  {
    if n == 0 || list == [] {
    } else if list[0].pages >= n {
      var b, z := list[0], list[1..];
      assert list == [] + [b] + z;
      TakenPages([], b, z, n);
      var rest := Run(b.start + n, b.pages - n);
      assert [] + [rest] + z == [rest] + z && [] + z == z;
    } else {
      AllocKeeps(list[1..], n);
      var (rest, p) := AllocPages(list[1..], n);
      assert list == [list[0]] + list[1..];
      assert forall j :: 0 < j < |list| ==> list[j] == list[1..][j - 1];
      assert list[1..] == [] ==> rest == [];
      if p != None { AllocBehind(list, rest, Run(p.page, n)); }
    }
  }

  ghost predicate AllFree(list: seq<Run>, from: nat, n: nat) { forall page: nat :: from <= page < from + n ==> Free(list, page) }

  /** rt_page_alloc fails if and only if no n consecutive pages are free. */
  lemma AllocFailsIff(list: seq<Run>, n: nat)
    requires Merged(list) && n > 0
    ensures AllocPages(list, n).1 == None <==> forall from: nat :: !AllFree(list, from, n)
  {
    AllocKeeps(list, n);
    if j :| 0 <= j < |list| && list[j].pages >= n {
      assert list == list[..j] + [list[j]] + list[j + 1..];
      forall page: nat | list[j].start <= page < list[j].start + n ensures Free(list, page) {
        FreeAround(list[..j], list[j], list[j + 1..], page);
      }
      assert AllFree(list, list[j].start, n);
    }
    if from: nat :| AllFree(list, from, n) {
      var k := StretchIsOneRun(list, from, n);
    }
  }

  /** The run rt_page_alloc takes from is the first one long enough. */
  lemma {:induction false} AllocAt(list: seq<Run>, n: nat) returns (j: nat)
    requires Merged(list) && AllocPages(list, n).1 != None
    ensures j < |list| && list[j].pages >= n > 0 && AllocPages(list, n).1.page == list[j].start
    ensures forall i :: 0 <= i < j ==> list[i].pages < n
  {
    if list[0].pages >= n {
      j := 0;
    } else {
      j := AllocAt(list[1..], n);
      j := j + 1;
    }
  }

  lemma {:induction false} StartsRise(list: seq<Run>, i: nat, j: nat)
    requires Merged(list) && i <= j < |list|
    ensures list[i].start <= list[j].start
  {
    if i > 0 {
      StartsRise(list[1..], i - 1, j - 1);
    } else if j > 0 {
      StartsRise(list[1..], 0, j - 1);
    }
  }

  /** So it takes the lowest n consecutive free pages. */
  lemma AllocLowest(list: seq<Run>, n: nat)
    requires Merged(list) && AllocPages(list, n).1 != None
    ensures AllFree(list, AllocPages(list, n).1.page, n)
    ensures forall from: nat :: from < AllocPages(list, n).1.page ==> !AllFree(list, from, n)
  {
    var j := AllocAt(list, n);
    assert list == list[..j] + [list[j]] + list[j + 1..];
    forall page: nat | list[j].start <= page < list[j].start + n ensures Free(list, page) {
      FreeAround(list[..j], list[j], list[j + 1..], page);
    }
    if from: nat :| from < list[j].start && AllFree(list, from, n) {
      var k := StretchIsOneRun(list, from, n);
      if k >= j { StartsRise(list, j, k); }
      assert false;
    }
  }

  lemma AllocBehind(list: seq<Run>, rest: seq<Run>, x: Run)
    requires Merged(list) && list != [] && Merged(rest) && Unused(rest, x) && Gains(rest, list[1..], x) && x.pages > 0
    requires rest != [] && |list| > 1 ==> rest[0].start >= list[1].start
    requires |list| == 1 ==> rest == []
    ensures var r := [list[0]] + rest; Merged(r) && Unused(r, x) && Gains(r, list, x)
  {
    var b, r := list[0], [list[0]] + rest;
    assert r[1..] == rest;
    forall page: nat ensures Free(r, page) <==> b.start <= page < b.End() || Free(rest, page) { }
    forall page: nat | x.start <= page < x.End() ensures !Free(r, page) {
      assert Free(list[1..], page);
      FreeWithin(list[1..], page);
    }
  }

  /** Exactly the pages of x become free, and the list stays in address order, disjoint and fully merged. */
  lemma {:induction false} FreeKeeps(list: seq<Run>, x: Run)
    requires Merged(list) && x.pages > 0 && Unused(list, x)
    ensures var r := FreePages(list, x);
      && Merged(r) && Gains(list, r, x)
      && r != [] && (r[0].start == x.start || (list != [] && r[0].start == list[0].start))
  {
    if list == [] {
      Between([], x, []);
      assert [] + [x] + [] == [x] && [] + [] == list;
    } else {
      TailOf(list, x);
      FreeUnfold(list, x);
      hide Merged, Gains, Unused, Free, FreePages;
      HeadApart(list, x);
      if list[0].End() < x.start {
        FreeKeeps(list[1..], x);
        FreeBehind(list, FreePages(list[1..], x), x);
      } else {
        FreeAtHead(list, x);
      }
    }
  }

  lemma HeadApart(list: seq<Run>, x: Run)
    requires Merged(list) && x.pages > 0 && Unused(list, x) && list != []
    ensures list[0].End() <= x.start || x.End() <= list[0].start
    ensures |list| > 1 ==> (list[1].End() <= x.start || x.End() <= list[1].start) && list[0].End() < list[1].start < list[1].End()
  {
    assert list == [] + [list[0]] + list[1..];
    Apart([], list[0], list[1..], x);
  }

  lemma FreeAtHead(list: seq<Run>, x: Run)
    requires Merged(list) && x.pages > 0 && Unused(list, x) && list != [] && !(list[0].End() < x.start)
    ensures var r := FreePages(list, x);
      Merged(r) && Gains(list, r, x) && r != [] && (r[0].start == x.start || r[0].start == list[0].start)
  {
    HeadApart(list, x);
    FreeUnfold(list, x);
    hide Merged, Gains, Unused, Free, FreePages;
    if list[0].End() == x.start { JoinHead(list, x); } else { JoinBefore(list, x); }
  }

  lemma JoinHead(list: seq<Run>, x: Run)
    requires Merged(list) && list != [] && list[0].End() == x.start && (|list| > 1 ==> x.End() <= list[1].start)
    ensures var b := list[0];
      var r := if |list| > 1 && x.End() == list[1].start then [Run(b.start, b.pages + x.pages + list[1].pages)] + list[2..]
        else [Run(b.start, b.pages + x.pages)] + list[1..];
      Merged(r) && Gains(list, r, x)
  {
    hide Merged, Gains, Unused, Free;
    var b, z := list[0], list[1..];
    assert list == [] + [b] + z;
    if |list| > 1 && x.End() == list[1].start {
      var y := Run(b.start, b.pages + x.pages + list[1].pages);
      assert z == [list[1]] + list[2..] && [] + [y] + list[2..] == [y] + list[2..];
      JoinBoth([], b, x, list[1], list[2..]);
    } else {
      var y := Run(b.start, b.pages + x.pages);
      assert [] + [y] + z == [y] + z;
      JoinLeft([], b, x, z);
    }
  }

  lemma JoinBefore(list: seq<Run>, x: Run)
    requires Merged(list) && x.pages > 0 && list != [] && x.End() <= list[0].start
    ensures var b := list[0];
      var r := if b.start == x.End() then [Run(x.start, b.pages + x.pages)] + list[1..] else [x] + list;
      Merged(r) && Gains(list, r, x)
  {
    hide Merged, Gains, Unused, Free;
    var b, z := list[0], list[1..];
    assert list == [] + [b] + z;
    if b.start == x.End() {
      var y := Run(x.start, b.pages + x.pages);
      assert [] + [y] + z == [y] + z;
      JoinRight([], b, x, z);
    } else {
      assert [] + [x] + list == [x] + list && [] + list == list;
      Between([], x, list);
    }
  }

  lemma TailOf(list: seq<Run>, x: Run)
    requires Merged(list) && Unused(list, x) && list != []
    ensures Merged(list[1..]) && Unused(list[1..], x)
  {
    assert forall page: nat :: Free(list[1..], page) ==> Free(list, page);
  }

  lemma FreeBehind(list: seq<Run>, rest: seq<Run>, x: Run)
    requires Merged(list) && list != [] && list[0].End() < x.start && Merged(rest) && Gains(list[1..], rest, x)
    requires rest != [] && (rest[0].start == x.start || (|list| > 1 && rest[0].start == list[1].start))
    ensures var r := [list[0]] + rest; Merged(r) && Gains(list, r, x)
  {
    var r := [list[0]] + rest;
    assert r[1..] == rest;
  }

  /** The two loops after k runs. */
  function AllocFrom(list: seq<Run>, k: nat, n: nat): (seq<Run>, Option)
    requires k <= |list|
  {
    (list[..k] + AllocPages(list[k..], n).0, AllocPages(list[k..], n).1)
  }

  function FreeFrom(list: seq<Run>, k: nat, x: Run): seq<Run>
    requires k <= |list|
  {
    list[..k] + FreePages(list[k..], x)
  }

  function AllocHere(list: seq<Run>, k: nat, n: nat): (seq<Run>, Option)
    requires k < |list|
  {
    if list[k].pages > n then (list[..k] + ([Run(list[k].start + n, list[k].pages - n)] + list[k + 1..]), Some(list[k].start))
    else if list[k].pages == n then (list[..k] + list[k + 1..], Some(list[k].start))
    else AllocFrom(list, k + 1, n)
  }

  function FreeHere(list: seq<Run>, k: nat, x: Run): seq<Run>
    requires k < |list|
  {
    var b := list[k];
    if b.End() == x.start then
      if k + 1 < |list| && x.End() == list[k + 1].start then list[..k] + ([Run(b.start, b.pages + x.pages + list[k + 1].pages)] + list[k + 2..])
      else list[..k] + ([Run(b.start, b.pages + x.pages)] + list[k + 1..])
    else if b.start == x.End() then list[..k] + ([Run(x.start, b.pages + x.pages)] + list[k + 1..])
    else if b.start > x.End() then list[..k] + ([x] + list[k..])
    else FreeFrom(list, k + 1, x)
  }

  lemma AllocStart(list: seq<Run>, n: nat)
    ensures AllocFrom(list, 0, n) == AllocPages(list, n)
    ensures AllocFrom(list, |list|, n) == (list, None)
  {
    assert list[0..] == list && list[..0] + AllocPages(list, n).0 == AllocPages(list, n).0;
    assert list[..|list|] + [] == list;
  }

  lemma AllocTurn(list: seq<Run>, k: nat, n: nat)
    requires k < |list| && n > 0
    ensures AllocFrom(list, k, n) == AllocHere(list, k, n)
  {
    AllocUnfold(list[k..], n);
    hide AllocPages;
    var here := list[k..];
    assert here[0] == list[k] && here[1..] == list[k + 1..];
    if list[k].pages < n {
      assert list[..k] + ([list[k]] + AllocPages(list[k + 1..], n).0) == list[..k + 1] + AllocPages(list[k + 1..], n).0;
    }
  }

  lemma AllocUnfold(list: seq<Run>, n: nat)
    requires list != [] && n > 0
    ensures AllocPages(list, n) ==
            if list[0].pages > n then ([Run(list[0].start + n, list[0].pages - n)] + list[1..], Some(list[0].start))
            else if list[0].pages == n then (list[1..], Some(list[0].start))
            else ([list[0]] + AllocPages(list[1..], n).0, AllocPages(list[1..], n).1)
  {
  }

  lemma FreeStart(list: seq<Run>, x: Run)
    ensures FreeFrom(list, 0, x) == FreePages(list, x)
    ensures FreeFrom(list, |list|, x) == list[..|list|] + ([x] + list[|list|..])
  {
    assert list[0..] == list && list[..0] + FreePages(list, x) == FreePages(list, x);
    assert list[|list|..] == [] && [x] + list[|list|..] == [x];
  }

  lemma FreeTurn(list: seq<Run>, k: nat, x: Run)
    requires k < |list|
    ensures FreeFrom(list, k, x) == FreeHere(list, k, x)
  {
    hide FreePages;
    var b, here := list[k], list[k..];
    FreeUnfold(here, x);
    assert here[0] == b && here[1..] == list[k + 1..];
    if |here| > 1 { assert here[1] == list[k + 1] && here[2..] == list[k + 2..]; }
    if b.End() != x.start && b.start != x.End() && b.start <= x.End() {
      assert list[..k] + ([b] + FreePages(list[k + 1..], x)) == list[..k + 1] + FreePages(list[k + 1..], x);
    }
  }

  /** The loop of rt_page_alloc. */
  method FindPages(list: seq<Run>, n: nat) returns (rest: seq<Run>, r: Option)
    requires n > 0
    ensures (rest, r) == AllocPages(list, n)
  {
    hide AllocPages, AllocFrom;
    var k := 0;
    AllocStart(list, n);
    while k < |list|
      invariant 0 <= k <= |list|
      invariant AllocPages(list, n) == AllocFrom(list, k, n)
    {
      AllocTurn(list, k, n);
      if list[k].pages > n { return list[..k] + ([Run(list[k].start + n, list[k].pages - n)] + list[k + 1..]), Some(list[k].start); }
      if list[k].pages == n { return list[..k] + list[k + 1..], Some(list[k].start); }
      k := k + 1;
    }
    AllocStart(list, n);
    return list, None;
  }

  /** The loop of rt_page_free. */
  method JoinPages(list: seq<Run>, start: nat, n: nat) returns (r: seq<Run>)
    ensures r == FreePages(list, Run(start, n))
  {
    hide FreePages, FreeFrom;
    var k := 0;
    ghost var x := Run(start, n);
    FreeStart(list, x);
    while k < |list|
      invariant 0 <= k <= |list|
      invariant FreePages(list, x) == FreeFrom(list, k, x)
    {
      FreeTurn(list, k, x);
      if list[k].End() == start {
        var grown := Run(list[k].start, list[k].pages + n);
        if k + 1 < |list| && grown.End() == list[k + 1].start {
          return list[..k] + ([Run(list[k].start, list[k].pages + n + list[k + 1].pages)] + list[k + 2..]);
        }
        return list[..k] + ([grown] + list[k + 1..]);
      }
      if list[k].start == start + n { return list[..k] + ([Run(start, list[k].pages + n)] + list[k + 1..]); }
      if list[k].start > start + n { break; }
      k := k + 1;
    }
    r := list[..k] + ([Run(start, n)] + list[k..]);
  }

  class PageList {
    var list: seq<Run>

    ghost predicate Valid()
      reads this
    {
      Merged(list)
    }

    /** rt_page_init: the list is empty, then all pages are freed. */
    constructor (start: nat, n: nat)
      requires n > 0
      ensures Valid() && list == [Run(start, n)]
    {
      list := [];
      new;
      assert FreePages([], Run(start, n)) == [Run(start, n)];
      PageFree(start, n);
    }

    /** rt_page_alloc; None for a null pointer. */
    method PageAlloc(n: nat) returns (r: Option)
      requires Valid()
      modifies this
      ensures Valid() && (list, r) == AllocPages(old(list), n)
    {
      AllocKeeps(list, n);
      if n == 0 { return None; }
      list, r := FindPages(list, n);
    }

    /** rt_page_free of pages that are all in use. */
    method PageFree(start: nat, n: nat)
      requires Valid() && n > 0 && Unused(list, Run(start, n))
      modifies this
      ensures Valid() && list == FreePages(old(list), Run(start, n))
    {
      FreeKeeps(list, Run(start, n));
      list := JoinPages(list, start, n);
    }
  }

  datatype Option = None | Some(page: nat)
}
