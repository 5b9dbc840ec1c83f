/** The allocator of rt-thread/src/slab.c in place: the page list, the zone lists, the cache of empty zones, and what
    memusage and the zone headers say of the pages in use. */
module SlabZones {
  import opened WaitList
  import opened Slab
  import opened SlabModel

  class Zones {
    const zp: nat                     // zone_page_cnt
    const pages: PageList             // rt_page_list
    const lists: array<seq<nat>>      // zone_array
    var use: map<nat, Use>            // memusage and the zone headers
    var cache: seq<nat>               // zone_free

    ghost function Value(): State
      reads this, pages, lists
    {
      State(zp, pages.list, use, lists[..], cache)
    }

    ghost predicate Valid()
      reads this, pages, lists
    {
      Inv(Value())
    }

    /** rt_system_heap_init for n pages from page start on, with zones of zones pages. */
    constructor (zones: nat, start: nat, n: nat)
      requires (zones == 8 || zones == 16 || zones == 32) && n > 0
      ensures Valid() && fresh(pages) && fresh(lists) && Value() == Init(zones, start, n)
    {
      zp := zones;
      pages := new PageList(start, n);
      lists := new seq<nat>[72](_ => []);
      use, cache := map[], [];
      new;
      InitOk(zones, start, n);
      assert lists[..] == seq(72, _ => []);
    }

    /** rt_malloc up to the point where it has a block, gives up, or has let go of heap_sem to get pages for a zone. */
    method Malloc(c: nat, size: nat) returns (out: Outcome)
      requires Valid() && size < WORD
      modifies this, pages, lists
      ensures Valid() && (Value(), out) == SlabModel.Malloc(old(Value()), c, size)
    {
      MallocKeeps(Value(), c, size);
      if size == 0 { return Null; }
      if size >= Limit(zp) { out := MallocLarge(c, size); return; }
      ClassFits(size, zp);
      var i := ZoneIndex(size).index;
      if lists[i] != [] {
        out := FromZone(i);
      } else if cache != [] {
        out := FromCache(size);
      } else {
        out := MallocPages(c, size);
      }
    }

    /** A request of whole pages. */
    method MallocLarge(c: nat, size: nat) returns (out: Outcome)
      requires Valid() && Limit(zp) <= size < WORD
      modifies this`use, pages
      ensures (Value(), out) == SlabModel.Malloc(old(Value()), c, size)
    {
      PagesMerged(Value());
      hide Inv, PagesFor, AllocPages, Limit;
      var n := (size + (PAGE - 1)) % WORD / PAGE;
      assert n == PagesFor(size);
      var at := pages.PageAlloc(n);
      if at == None {
        NoPages(old(pages.list), n);
        return Null;
      }
      use := use[at.page := Large(n)];
      return Got(Whole(at.page));
    }

    /** A chunk of the first zone in the list; the zone leaves the list with its last chunk. */
    method FromZone(i: nat) returns (out: Outcome)
      requires Valid() && i < 72 && lists[i] != []
      modifies this`use, lists
      ensures old(lists[i][0]) in old(use) && old(use)[old(lists[i][0])].Small? && CanPick(old(use)[old(lists[i][0])].zone)
      ensures var z := old(lists[i][0]); (Value(), out) == (var (r, k) := Picked(old(Value()), i, z); (r, Got(Chunk(z, k))))
    {
      ListedCan(Value(), i);
      hide Inv;
      var z := lists[i][0];
      var (y, k) := Pick(use[z].zone);
      if y.nfree == 0 { lists[i] := lists[i][1..]; }
      use := use[z := Small(y)];
      assert lists[..] == if y.nfree == 0 then old(lists[..])[i := old(lists[i])[1..]] else old(lists[..]);
      return Got(Chunk(z, k));
    }

    /** A zone from the cache is built anew. */
    method FromCache(size: nat) returns (out: Outcome)
      requires Valid() && 0 < size < Limit(zp) && cache != []
      modifies this`use, this`cache, lists
      ensures size < 16384 && ClassOk(ZoneIndex(size), zp)
      ensures (Value(), out) == (Built(old(Value()).(cache := old(cache)[1..]), old(cache)[0], size), Got(Chunk(old(cache)[0], 0)))
    {
      ClassFits(size, zp);
      hide Inv;
      var z := cache[0];
      cache := cache[1..];
      BuildZone(z, size);
      return Got(Chunk(z, 0));
    }

    method MallocPages(c: nat, size: nat) returns (out: Outcome)
      requires Valid() && 0 < size < Limit(zp)
      modifies this`use, pages
      ensures cache == old(cache) && lists[..] == old(lists[..])
      ensures var (r, at) := AllocPages(old(pages.list), zp);
        (Value(), out) == if at == None then (old(Value()), Null)
          else (old(Value()).(pages := r, use := old(use)[at.page := Fresh(c, size)]), Waits(at.page))
    {
      PagesMerged(Value());
      hide Inv, AllocPages;
      var at := pages.PageAlloc(zp);
      if at == None {
        NoPages(old(pages.list), zp);
        return Null;
      }
      use := use[at.page := Fresh(c, size)];
      return Waits(at.page);
    }

    /** The end of rt_malloc, holding heap_sem again. */
    method Grow(c: nat, p: nat) returns (out: Outcome)
      requires Valid() && p in use && use[p].Fresh? && use[p].c == c
      modifies this`use, lists
      ensures Valid() && (Value(), out) == SlabModel.Grow(old(Value()), c, p)
    {
      GrowKeeps(Value(), c, p);
      ClassFits(use[p].size, zp);
      hide Inv;
      BuildZone(p, use[p].size);
      return Got(Chunk(p, 0));
    }

    /** Write the header of zone z and put it in front of its list. */
    method BuildZone(z: nat, size: nat)
      requires 0 < size < 16384 && lists.Length == 72 && ClassOk(ZoneIndex(size), zp)
      modifies this`use, lists
      ensures Value() == Built(old(Value()), z, size)
    {
      var cls := ZoneIndex(size);
      hide ZoneIndex, BaseOf;
      lists[cls.index] := [z] + lists[cls.index];
      use := use[z := Small(NewZone(cls, zp))];
      assert lists[..] == old(lists[..])[cls.index := [z] + old(lists[cls.index])];
    }

    /** rt_free, up to rt_page_free if there are pages to give back. */
    method Free(c: nat, h: Handle)
      requires Valid() && Live(use, h)
      modifies this, lists
      ensures Valid() && Value() == Next(old(Value()), FreeCall(c, h))
    {
      StepKeeps(Value(), FreeCall(c, h));
      if h.Whole? {
        use := use[h.p := Gone(c, use[h.p].n)];
      } else {
        FreeInZone(c, h.z, h.k);
      }
    }

    method FreeInZone(c: nat, z: nat, k: nat)
      requires Valid() && Live(use, Chunk(z, k))
      modifies this`use, this`cache, lists
      ensures Value() == FreeChunk(old(Value()), c, z, k)
    {
      var was := use[z].zone;
      assert ZoneOk(was, zp);
      var i, back := was.index, Returned(was, k);
      OthersLeft(use, lists[..], z);
      hide Inv, ZoneOk, ListsOk;
      ghost var rows := lists[..];
      use := use[z := Small(back)];
      if was.nfree == 0 { lists[i] := [z] + lists[i]; }
      assert lists[..] == if was.nfree == 0 then rows[i := [z] + rows[i]] else rows;
      if back.nfree == back.nmax && |lists[i]| > 1 {
        lists[i] := Without(lists[i], z);
        assert lists[..] == rows[i := Without(rows[i], z)];
        cache := [z] + cache;
        use := use[z := Cached];
        if |cache| > 2 {
          cache := cache[1..];
          use := use[z := Gone(c, zp)];
        }
        assert |old(cache)| == 2 ==> ([z] + old(cache))[1..] == old(cache);
        assert |old(cache)| <= 2 by { CacheSmall(old(Value())); }
      }
    }

    /** The call of rt_page_free. */
    method Release(c: nat, p: nat)
      requires Valid() && p in use && use[p].Gone? && use[p].c == c
      modifies this`use, pages
      ensures Valid() && Value() == SlabModel.Release(old(Value()), p)
    {
      StepKeeps(Value(), ReleaseCall(c, p));
      GoneUnused(Value(), p);
      hide Inv, FreePages, Unused;
      pages.PageFree(p, use[p].n);
      use := use - {p};
    }
  }

  lemma PagesMerged(s: State)
    requires Inv(s)
    ensures Merged(s.pages)
  {
  }

  lemma NoPages(list: seq<Run>, n: nat)
    ensures AllocPages(list, n).1 == None ==> AllocPages(list, n).0 == list
  {
    if n > 0 && list != [] { NoPages(list[1..], n); }
  }

  lemma CacheSmall(s: State)
    requires Inv(s)
    ensures |s.cache| <= 2
  {
  }

  lemma GoneUnused(s: State, p: nat)
    requires Inv(s) && p in s.use && s.use[p].Gone?
    ensures Merged(s.pages) && s.use[p].n > 0 && Unused(s.pages, Run(p, s.use[p].n))
  {
    assert CountOf(s.use[p], s.zp) == s.use[p].n;
  }

  /** Zone z is not the only one in its list, once it is there, exactly when the list holds another. */
  lemma OthersLeft(use: map<nat, Use>, lists: seq<seq<nat>>, z: nat)
    requires ListsOk(use, lists) && z in use && use[z].Small? && use[z].zone.index < 72
    ensures var list := lists[use[z].zone.index];
      var row := if use[z].zone.nfree == 0 then [z] + list else list;
      (|row| > 1 <==> Without(list, z) != []) && Without(row, z) == Without(list, z)
  {
    var list := lists[use[z].zone.index];
    WithoutMembers(list, z);
    if use[z].zone.nfree == 0 { assert z !in list; AbsentWithout(list, z); }
  }
}
