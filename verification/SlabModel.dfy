/** The allocator of rt-thread/src/slab.c as a whole: the page list, zones of equal chunks carved out of its pages,
    a cache of empty zones, and requests of whole pages.

    rt_malloc and rt_free let go of heap_sem around rt_page_alloc and rt_page_free, so making a new zone and
    giving one up are two steps each, and other threads' calls come in between. */
module SlabModel {
  import Bits
  import opened Masks
  import opened WaitList
  import opened Slab

  const WORD := 0x1_0000_0000
  const PAGE := 4096

  /** A zone's chunks: size bytes each, the first one base bytes into the zone.  uindex is the last chunk taken
      from the never-used tail; free holds freed chunks, newest first. */
  datatype Zone = Zone(size: nat, base: nat, nmax: nat, nfree: nat, uindex: nat, free: seq<nat>, index: nat)

  /** What the pages that start somewhere are used for.  Fresh pages are to become a zone for caller c's request,
      Gone ones are on caller c's way back to the page list. */
  datatype Use = Small(zone: Zone) | Cached | Large(n: nat) | Fresh(c: nat, size: nat) | Gone(c: nat, n: nat)

  /** zp is zone_page_cnt; pages the list of free pages; use knows all others by their first page. */
  datatype State = State(zp: nat, pages: seq<Run>, use: map<nat, Use>, lists: seq<seq<nat>>, cache: seq<nat>)

  function CountOf(u: Use, zp: nat): nat {
    match u
    case Large(n) => n
    case Gone(c, n) => n
    case _ => zp
  }

  // ---------- Addresses ----------

  /** What rt_malloc hands out: chunk k of zone z, or whole pages. */
  datatype Handle = Chunk(z: nat, k: nat) | Whole(p: nat)

  predicate Live(use: map<nat, Use>, h: Handle) {
    match h
    case Chunk(z, k) => z in use && use[z].Small? && k <= use[z].zone.uindex && k !in use[z].zone.free
    case Whole(p) => p in use && use[p].Large?
  }

  /** The first byte of a live block, and the first one behind it, as addresses. */
  function Lo(use: map<nat, Use>, h: Handle): nat
    requires Live(use, h)
  {
    match h
    case Chunk(z, k) => z * PAGE + use[z].zone.base + k * use[z].zone.size
    case Whole(p) => p * PAGE
  }

  function Hi(use: map<nat, Use>, h: Handle): nat
    requires Live(use, h)
  {
    match h
    case Chunk(z, k) => Lo(use, h) + use[z].zone.size
    case Whole(p) => (p + use[p].n) * PAGE
  }

  // ---------- The steps ----------

  /** Where the chunks begin, behind the 36 bytes of struct slab_zone. */
  function BaseOf(size: nat): nat
    requires size > 0
  {
    if Or(size, size - 1) + 1 == 2 * size then Masked(36 + size - 1, size - 1) else Masked(36 + 7, 7)
  }

  /** The class has room for two chunks in a zone. */
  predicate ClassOk(cls: Class, zp: nat) { cls.size > 0 && cls.index < 72 && BaseOf(cls.size) + 2 * cls.size <= zp * PAGE }

  function NewZone(cls: Class, zp: nat): Zone
    requires ClassOk(cls, zp)
  {
    RoomFor(zp * PAGE - BaseOf(cls.size), cls.size);
    var nmax := (zp * PAGE - BaseOf(cls.size)) / cls.size;
    Zone(cls.size, BaseOf(cls.size), nmax, nmax - 1, 0, [], cls.index)
  }

  /** zone_limit */
  function Limit(zp: nat): nat { if zp * PAGE / 4 > 16384 then 16384 else zp * PAGE / 4 }

  /** The page count of a large request; the rounding may wrap around to 0. */
  function PagesFor(size: nat): nat { (size + (PAGE - 1)) % WORD / PAGE }

  predicate CanPick(z: Zone) { z.nfree > 0 && (z.uindex + 1 < z.nmax || z.free != []) }

  /** Taking a chunk: from the tail while it lasts, then from the list. */
  function Pick(z: Zone): (Zone, nat)
    requires CanPick(z)
  {
    if z.uindex + 1 < z.nmax then (z.(nfree := z.nfree - 1, uindex := z.uindex + 1), z.uindex + 1)
    else (z.(nfree := z.nfree - 1, free := z.free[1..]), z.free[0])
  }

  function Returned(z: Zone, k: nat): Zone { z.(nfree := z.nfree + 1, free := [k] + z.free) }

  datatype Outcome = Null | Got(h: Handle) | Waits(p: nat)

  /** A zone that has just been built gives its first chunk. */
  function Built(s: State, z: nat, size: nat): State
    requires 0 < size < 16384 && |s.lists| == 72 && ClassOk(ZoneIndex(size), s.zp)
  {
    var cls := ZoneIndex(size);
    s.(use := s.use[z := Small(NewZone(cls, s.zp))], lists := s.lists[cls.index := [z] + s.lists[cls.index]])
  }

  /** The chunk a listed zone gives; with its last one it leaves the list. */
  function Picked(s: State, i: nat, z: nat): (State, nat)
    requires i < |s.lists| && s.lists[i] != [] && z in s.use && s.use[z].Small? && CanPick(s.use[z].zone)
  {
    var (y, k) := Pick(s.use[z].zone);
    (s.(use := s.use[z := Small(y)], lists := if y.nfree == 0 then s.lists[i := s.lists[i][1..]] else s.lists), k)
  }

  /** rt_malloc, up to the point where it has a block, gives up, or has pages for a new zone. */
  ghost function Malloc(s: State, c: nat, size: nat): (State, Outcome)
    requires Inv(s)
  {
    if size == 0 then (s, Null)
    else if size >= Limit(s.zp) then
      var (pages, r) := AllocPages(s.pages, PagesFor(size));
      if r == None then (s, Null) else (s.(pages := pages, use := s.use[r.page := Large(PagesFor(size))]), Got(Whole(r.page)))
    else
      ClassFits(size, s.zp);
      var i := ZoneIndex(size).index;
      if s.lists[i] != [] then
        ListedCan(s, i);
        var (r, k) := Picked(s, i, s.lists[i][0]);
        (r, Got(Chunk(s.lists[i][0], k)))
      else if s.cache != [] then (Built(s.(cache := s.cache[1..]), s.cache[0], size), Got(Chunk(s.cache[0], 0)))
      else
        var (pages, r) := AllocPages(s.pages, s.zp);
        if r == None then (s, Null) else (s.(pages := pages, use := s.use[r.page := Fresh(c, size)]), Waits(r.page))
  }

  /** The end of rt_malloc once heap_sem is held again: other zones of the class may have come meanwhile. */
  ghost function Grow(s: State, c: nat, p: nat): (State, Outcome)
    requires Inv(s) && p in s.use && s.use[p].Fresh?
  {
    ClassFits(s.use[p].size, s.zp);
    (Built(s, p, s.use[p].size), Got(Chunk(p, 0)))
  }

  /** rt_free of a chunk.  A zone that is entirely free, and not the only one in its list, goes to the cache; of
      three cached zones the newest goes back to the page list. */
  ghost function FreeChunk(s: State, c: nat, z: nat, k: nat): State
    requires Inv(s) && Live(s.use, Chunk(z, k))
  {
    var was := s.use[z].zone;
    var r, i := Returned(was, k), was.index;
    var others := Without(s.lists[i], z);
    if r.nfree == r.nmax && others != [] then
      if |s.cache| == 2 then s.(use := s.use[z := Gone(c, s.zp)], lists := s.lists[i := others])
      else s.(use := s.use[z := Cached], lists := s.lists[i := others], cache := [z] + s.cache)
    else s.(use := s.use[z := Small(r)], lists := if was.nfree == 0 then s.lists[i := [z] + s.lists[i]] else s.lists)
  }

  /** rt_free of whole pages, before rt_page_free. */
  function FreeLarge(s: State, c: nat, p: nat): State
    requires Live(s.use, Whole(p))
  {
    s.(use := s.use[p := Gone(c, s.use[p].n)])
  }

  /** rt_page_free. */
  function Release(s: State, p: nat): State
    requires p in s.use && s.use[p].Gone?
  {
    s.(pages := FreePages(s.pages, Run(p, s.use[p].n)), use := s.use - {p})
  }

  // ---------- What every step keeps ----------

  /** The chunks begin where the header and their alignment let them, and there is no room for one more. */
  ghost predicate Filled(z: Zone, zp: nat) {
    z.size > 0 && z.base == BaseOf(z.size) && zp * PAGE < z.base + z.nmax * z.size + z.size
  }

  /** z_nfree counts the never-used chunks and the freed ones, and the chunks lie inside the zone. */
  ghost predicate ZoneOk(z: Zone, zp: nat) {
    && 2 <= z.nmax && z.uindex < z.nmax && z.index < 72 && Filled(z, zp)
    && z.size == SizeOfZone(z.index) > 0 && z.base + z.nmax * z.size <= zp * PAGE
    && z.nfree == z.nmax - 1 - z.uindex + |z.free|
    && Distinct(z.free) && forall k :: k in z.free ==> k <= z.uindex
  }

  ghost predicate ZonesOk(use: map<nat, Use>, zp: nat) {
    forall z :: z in use ==>
      && (use[z].Small? ==> ZoneOk(use[z].zone, zp))
      && (use[z].Fresh? ==> 0 < use[z].size < Limit(zp))
  }

  /** Pages in use are not in the page list, and no page is used twice. */
  ghost predicate PagesOk(pages: seq<Run>, use: map<nat, Use>, zp: nat) {
    && Merged(pages)
    && (forall p :: p in use ==> CountOf(use[p], zp) > 0 && Unused(pages, Run(p, CountOf(use[p], zp))))
    && (forall p, q :: p in use && q in use && p < q ==> p + CountOf(use[p], zp) <= q)
  }

  /** A zone is in the list of its class, once, exactly when it has a chunk to give. */
  ghost predicate ListsOk(use: map<nat, Use>, lists: seq<seq<nat>>) {
    && |lists| == 72
    && (forall i :: 0 <= i < 72 ==> Distinct(lists[i]))
    && (forall i, z: nat {:trigger z in lists[i]} :: 0 <= i < 72 ==>
          (z in lists[i] <==> z in use && use[z].Small? && use[z].zone.index == i && use[z].zone.nfree > 0))
  }

  /** At most ZONE_RELEASE_THRESH empty zones are kept. */
  ghost predicate CacheOk(use: map<nat, Use>, cache: seq<nat>) {
    Distinct(cache) && |cache| <= 2 && forall z: nat {:trigger z in cache} :: z in cache <==> z in use && use[z].Cached?
  }

  ghost predicate Inv(s: State) {
    && (s.zp == 8 || s.zp == 16 || s.zp == 32)
    && PagesOk(s.pages, s.use, s.zp) && ZonesOk(s.use, s.zp) && ListsOk(s.use, s.lists) && CacheOk(s.use, s.cache)
  }

  // ---------- Size classes and new zones ----------

  lemma ClassFits(size: nat, zp: nat)
    requires 0 < size < Limit(zp) && (zp == 8 || zp == 16 || zp == 32)
    ensures size < 16384
    ensures var cls := ZoneIndex(size); size <= cls.size == SizeOfZone(cls.index) && 4 * cls.size <= zp * PAGE && ClassOk(cls, zp)
  {
    ZoneIndexFits(size);
    var top := Limit(zp) - 1;
    ZonesDistinct(size, top);
    assert zp == 8 ==> ZoneIndex(top).size == 8192;
    assert zp != 8 ==> ZoneIndex(top).size == 16384;
    BaseBounds(ZoneIndex(size).size);
  }

  lemma BaseBounds(size: nat)
    requires size > 0
    ensures 36 <= BaseOf(size) < size + 40
  {
  }

  /** Every zone has room for at least two chunks: the header and the alignment of the chunk array leave more
      than half of it. */
  lemma ZoneHoldsTwo(size: nat, zp: nat)
    requires 0 < size < Limit(zp) && (zp == 8 || zp == 16 || zp == 32)
    ensures size < 16384 && ClassOk(ZoneIndex(size), zp) && ZoneOk(NewZone(ZoneIndex(size), zp), zp)
  {
    ClassFits(size, zp);
    NewZoneOk(ZoneIndex(size), zp);
  }

  lemma NewZoneOk(cls: Class, zp: nat)
    requires ClassOk(cls, zp) && cls.size == SizeOfZone(cls.index)
    ensures ZoneOk(NewZone(cls, zp), zp)
  {
    hide BaseOf, SizeOfZone;
    RoomFor(zp * PAGE - BaseOf(cls.size), cls.size);
  }

  lemma RoomFor(room: nat, size: nat)
    requires size > 0 && room >= 2 * size
    ensures room / size >= 2 && room / size * size <= room < room / size * size + size
  {
    var q := room / size;
    assert room == size * q + room % size;
    assert size * (2 - q) == 2 * size - size * q;
    Bits.Multiple(size, 2 - q);
  }

  // ---------- Pages ----------

  /** Pages in use change their use, not their number. */
  lemma ReusePages(pages: seq<Run>, use: map<nat, Use>, zp: nat, z: nat, u: Use)
    requires PagesOk(pages, use, zp) && z in use && CountOf(u, zp) == CountOf(use[z], zp)
    ensures PagesOk(pages, use[z := u], zp)
  {
    assert forall p :: p in use[z := u] ==> p in use && CountOf(use[z := u][p], zp) == CountOf(use[p], zp);
  }

  lemma TakePages(pages: seq<Run>, use: map<nat, Use>, zp: nat, n: nat, u: Use)
    requires PagesOk(pages, use, zp) && AllocPages(pages, n).1 != None && CountOf(u, zp) == n
    ensures var (r, at) := AllocPages(pages, n); at.page !in use && PagesOk(r, use[at.page := u], zp)
  {
    AllocKeeps(pages, n);
    var (r, at) := AllocPages(pages, n);
    var p := at.page;
    forall q | q in use ensures p + n <= q || q + CountOf(use[q], zp) <= p {
      assert !Free(pages, q);
      if q < p < q + CountOf(use[q], zp) { assert !Free(pages, p); }
      assert Free(pages, p);
    }
    var after := use[p := u];
    forall q | q in after ensures Unused(r, Run(q, CountOf(after[q], zp))) {
      if q != p { assert Unused(pages, Run(q, CountOf(use[q], zp))); }
    }
  }

  lemma GivePages(pages: seq<Run>, use: map<nat, Use>, zp: nat, p: nat)
    requires PagesOk(pages, use, zp) && p in use
    ensures PagesOk(FreePages(pages, Run(p, CountOf(use[p], zp))), use - {p}, zp)
  {
    var x := Run(p, CountOf(use[p], zp));
    FreeKeeps(pages, x);
    var r, after := FreePages(pages, x), use - {p};
    forall q | q in after ensures Unused(r, Run(q, CountOf(after[q], zp))) {
      assert Unused(pages, Run(q, CountOf(use[q], zp)));
    }
  }

  // ---------- Live blocks ----------

  /** h becomes a live block; every other one stays where it is. */
  ghost predicate Adds(before: map<nat, Use>, after: map<nat, Use>, h: Handle) {
    && !Live(before, h) && Live(after, h)
    && (forall g: Handle {:trigger Live(before, g)} {:trigger Live(after, g)} :: Live(after, g) <==> Live(before, g) || g == h)
    && (forall g: Handle {:trigger Live(before, g)} :: Live(before, g) && Live(after, g) ==> Lo(after, g) == Lo(before, g) && Hi(after, g) == Hi(before, g))
  }

  ghost predicate SameLive(before: map<nat, Use>, after: map<nat, Use>) {
    forall g: Handle {:trigger Live(before, g)} {:trigger Live(after, g)} ::
      (Live(after, g) <==> Live(before, g)) && (Live(before, g) && Live(after, g) ==> Lo(after, g) == Lo(before, g) && Hi(after, g) == Hi(before, g))
  }

  /** A live block lies inside the pages that start where it says. */
  lemma Within(use: map<nat, Use>, zp: nat, h: Handle)
    requires ZonesOk(use, zp) && Live(use, h)
    ensures var p := if h.Chunk? then h.z else h.p;
      p * PAGE <= Lo(use, h) <= Hi(use, h) <= (p + CountOf(use[p], zp)) * PAGE
  {
    hide Filled, BaseOf, SizeOfZone;
    if h.Chunk? {
      var zone := use[h.z].zone;
      assert ZoneOk(zone, zp);
      Steps(h.k + 1, zone.nmax, zone.size);
      assert (h.k + 1) * zone.size == h.k * zone.size + zone.size;
    }
  }

  lemma Steps(a: nat, b: nat, size: nat)
    requires a <= b
    ensures a * size <= b * size
  {
  }

  /** No byte belongs to two live blocks. */
  lemma LiveApart(s: State, h: Handle, g: Handle)
    requires Inv(s) && Live(s.use, h) && Live(s.use, g) && h != g
    ensures Hi(s.use, h) <= Lo(s.use, g) || Hi(s.use, g) <= Lo(s.use, h)
  {
    var p, q := if h.Chunk? then h.z else h.p, if g.Chunk? then g.z else g.p;
    if p == q {
      var zone := s.use[p].zone;
      assert h.k != g.k;
      if h.k < g.k { ChunksApart(zone, h.k, g.k); } else { ChunksApart(zone, g.k, h.k); }
    } else {
      Within(s.use, s.zp, h);
      Within(s.use, s.zp, g);
      if p < q { assert p + CountOf(s.use[p], s.zp) <= q; } else { assert q + CountOf(s.use[q], s.zp) <= p; }
    }
  }

  /** So the address alone tells rt_free which block it is. */
  lemma AddressNames(s: State, h: Handle, g: Handle)
    requires Inv(s) && Live(s.use, h) && Live(s.use, g) && Lo(s.use, h) == Lo(s.use, g)
    ensures h == g
  {
    if h != g {
      LiveApart(s, h, g);
      NotEmpty(s, h);
      NotEmpty(s, g);
    }
  }

  lemma NotEmpty(s: State, h: Handle)
    requires Inv(s) && Live(s.use, h)
    ensures Lo(s.use, h) < Hi(s.use, h)
  {
    if h.Chunk? { assert ZoneOk(s.use[h.z].zone, s.zp); } else { assert CountOf(s.use[h.p], s.zp) > 0; }
  }

  lemma ChunksApart(zone: Zone, k: nat, l: nat)
    requires k < l
    ensures k * zone.size + zone.size <= l * zone.size
  {
    Steps(k + 1, l, zone.size);
    assert (k + 1) * zone.size == k * zone.size + zone.size;
  }

  // ---------- One zone ----------

  lemma PickOk(z: Zone, zp: nat)
    requires ZoneOk(z, zp) && z.nfree > 0
    ensures CanPick(z)
    ensures var (y, k) := Pick(z);
      && ZoneOk(y, zp) && k < z.nmax && (k > z.uindex || k in z.free) && k <= y.uindex && k !in y.free
      && y.index == z.index && y.size == z.size && y.base == z.base && y.nfree == z.nfree - 1
      && forall d: nat :: d != k ==> (d <= y.uindex && d !in y.free <==> d <= z.uindex && d !in z.free)
  {
    if z.uindex + 1 >= z.nmax {
      assert z.free[0] in z.free;
      assert forall d :: d in z.free <==> d == z.free[0] || d in z.free[1..];
    }
  }

  lemma ReturnedOk(z: Zone, zp: nat, k: nat)
    requires ZoneOk(z, zp) && k <= z.uindex && k !in z.free
    ensures ZoneOk(Returned(z, k), zp) && z.nfree < z.nmax
    ensures Returned(z, k).nfree == z.nmax ==> forall d: nat :: d <= z.uindex ==> d == k || d in z.free
  {
    var r := Returned(z, k);
    DistinctBound(r.free, z.uindex + 1);
    if r.nfree == z.nmax {
      forall d: nat | d <= z.uindex ensures d == k || d in z.free { Pigeon(r.free, z.uindex + 1, d); }
    }
  }

  /** n distinct numbers below n are all of them. */
  lemma Pigeon(list: seq<nat>, n: nat, d: nat)
    requires Distinct(list) && |list| == n && d < n && forall x :: x in list ==> x < n
    ensures d in list
  {
    if d !in list { DistinctBound(list + [d], n); }
  }

  lemma ListedCan(s: State, i: nat)
    requires Inv(s) && i < 72 && s.lists[i] != []
    ensures var z := s.lists[i][0]; z in s.use && s.use[z].Small? && s.use[z].zone.index == i && CanPick(s.use[z].zone) && s.use[z].zone.nfree > 0
  {
    assert s.lists[i][0] in s.lists[i];
    PickOk(s.use[s.lists[i][0]].zone, s.zp);
  }

  // ---------- rt_malloc ----------

  lemma PickedKeeps(s: State, i: nat)
    requires Inv(s) && i < 72 && s.lists[i] != []
    ensures var z := s.lists[i][0];
      && z in s.use && s.use[z].Small? && s.use[z].zone.index == i && CanPick(s.use[z].zone)
      && var (r, k) := Picked(s, i, z);
      Inv(r) && Adds(s.use, r.use, Chunk(z, k)) && Hi(r.use, Chunk(z, k)) - Lo(r.use, Chunk(z, k)) == SizeOfZone(i)
  {
    var z := s.lists[i][0];
    ListedCan(s, i);
    PickedAdds(s.use, s.zp, z);
    var (r, k) := Picked(s, i, z);
    ReusePages(s.pages, s.use, s.zp, z, r.use[z]);
    PickedLists(s, i);
    hide PagesOk, Adds, ZonesOk, ListsOk, CacheOk, Pick;
  }

  lemma PickedAdds(use: map<nat, Use>, zp: nat, z: nat)
    requires ZonesOk(use, zp) && z in use && use[z].Small? && use[z].zone.nfree > 0
    ensures CanPick(use[z].zone) && ZoneOk(use[z].zone, zp)
    ensures var (y, k) := Pick(use[z].zone);
      var after := use[z := Small(y)];
      ZonesOk(after, zp) && Adds(use, after, Chunk(z, k)) && Hi(after, Chunk(z, k)) - Lo(after, Chunk(z, k)) == SizeOfZone(use[z].zone.index)
  {
    PickOk(use[z].zone, zp);
    hide Pick;
    var (y, k) := Pick(use[z].zone);
    assert forall u :: u in use && u != z ==> use[z := Small(y)][u] == use[u];
  }

  lemma PickedLists(s: State, i: nat)
    requires Inv(s) && i < 72 && s.lists[i] != []
    requires var z := s.lists[i][0]; z in s.use && s.use[z].Small? && s.use[z].zone.index == i && CanPick(s.use[z].zone)
    ensures var r := Picked(s, i, s.lists[i][0]).0; ListsOk(r.use, r.lists) && CacheOk(r.use, r.cache)
  {
    var z := s.lists[i][0];
    PickOk(s.use[z].zone, s.zp);
    hide PagesOk, ZoneOk, ZonesOk;
    var row := s.lists[i];
    assert forall u :: u in row <==> u == z || u in row[1..];
  }

  /** z is fresh, or has just left the cache. */
  lemma BuiltKeeps(s: State, z: nat, size: nat)
    requires (s.zp == 8 || s.zp == 16 || s.zp == 32) && 0 < size < Limit(s.zp)
    requires PagesOk(s.pages, s.use, s.zp) && ZonesOk(s.use, s.zp) && ListsOk(s.use, s.lists)
    requires z in s.use && (s.use[z].Fresh? || s.use[z].Cached?)
    requires CacheOk(s.use[z := Gone(0, s.zp)], s.cache)
    ensures size < 16384 && ClassOk(ZoneIndex(size), s.zp) && ZoneIndex(size).size >= size
    ensures var r := Built(s, z, size);
      Inv(r) && Adds(s.use, r.use, Chunk(z, 0)) && Hi(r.use, Chunk(z, 0)) - Lo(r.use, Chunk(z, 0)) == ZoneIndex(size).size
  {
    ClassFits(size, s.zp);
    ZoneHoldsTwo(size, s.zp);
    var cls := ZoneIndex(size);
    var r, zone := Built(s, z, size), NewZone(cls, s.zp);
    hide ZoneIndex, BaseOf, Limit, PagesOk, ZonesOk, ListsOk, CacheOk, Adds, ZoneOk, SizeOfZone, ClassOk;
    ReusePages(s.pages, s.use, s.zp, z, Small(zone));
    BuiltLists(s.use, s.lists, z, zone);
    BuiltUse(s.use, s.zp, z, zone, s.cache);
  }

  lemma BuiltUse(use: map<nat, Use>, zp: nat, z: nat, zone: Zone, cache: seq<nat>)
    requires ZonesOk(use, zp) && ZoneOk(zone, zp) && zone.uindex == 0 && zone.free == [] && z in use && (use[z].Fresh? || use[z].Cached?)
    requires CacheOk(use[z := Gone(0, zp)], cache)
    ensures var after := use[z := Small(zone)];
      && ZonesOk(after, zp) && CacheOk(after, cache) && Adds(use, after, Chunk(z, 0))
      && Hi(after, Chunk(z, 0)) - Lo(after, Chunk(z, 0)) == zone.size
  {
    var was := use[z := Gone(0, zp)];
    assert z in was && !was[z].Cached? && z !in cache;
    assert forall u: nat :: u != z ==> (u in use <==> u in was) && (u in was ==> was[u] == use[u]);
  }

  lemma BuiltLists(use: map<nat, Use>, lists: seq<seq<nat>>, z: nat, zone: Zone)
    requires ListsOk(use, lists) && zone.index < 72 && zone.nfree > 0 && (z in use ==> !use[z].Small?)
    ensures ListsOk(use[z := Small(zone)], lists[zone.index := [z] + lists[zone.index]])
  {
    var row := lists[zone.index];
    assert z !in row;
    assert forall u :: u in [z] + row <==> u == z || u in row;
  }

  lemma CachePop(use: map<nat, Use>, cache: seq<nat>)
    requires CacheOk(use, cache) && cache != []
    ensures cache[0] in use && use[cache[0]].Cached?
    ensures forall c: nat, n: nat :: CacheOk(use[cache[0] := Gone(c, n)], cache[1..])
  {
    assert cache[0] in cache;
    assert forall u: nat :: u in cache <==> u == cache[0] || u in cache[1..];
  }

  /** A block is large enough, and not much larger: by less than 8 bytes below 128, by less than an eighth below the
      zone limit, by less than a page above. */
  predicate Suits(size: nat, got: int, zp: nat) {
    && size <= got
    && (size < Limit(zp) && size < 128 ==> got < size + 8)
    && (size < Limit(zp) && size >= 128 ==> 8 * (got - size) < size)
    && (size >= Limit(zp) ==> got < size + PAGE)
  }

  lemma ClassSuits(size: nat, zp: nat)
    requires 0 < size < Limit(zp) && (zp == 8 || zp == 16 || zp == 32)
    ensures size < 16384 && Suits(size, ZoneIndex(size).size, zp)
  {
    ZoneIndexFits(size);
  }

  /** A successful rt_malloc hands out one new block, of at least the size asked for, and leaves every other block
      where it is; an unsuccessful one, and one that still waits for a zone, leave all blocks. */
  lemma MallocKeeps(s: State, c: nat, size: nat)
    requires Inv(s) && size < WORD
    ensures var (r, out) := Malloc(s, c, size);
      && Inv(r)
      && match out
         case Null => r == s
         case Got(h) => Adds(s.use, r.use, h) && Suits(size, Hi(r.use, h) - Lo(r.use, h), s.zp)
         case Waits(p) => p in r.use && r.use[p] == Fresh(c, size) && SameLive(s.use, r.use)
  {
    if size == 0 {
    } else if size >= Limit(s.zp) {
      if AllocPages(s.pages, PagesFor(size)).1 != None { LargeKeeps(s, size); }
    } else {
      ClassFits(size, s.zp);
      ClassSuits(size, s.zp);
      hide Suits;
      var i := ZoneIndex(size).index;
      if s.lists[i] != [] {
        PickedKeeps(s, i);
      } else if s.cache != [] {
        CachePop(s.use, s.cache);
        BuiltKeeps(s.(cache := s.cache[1..]), s.cache[0], size);
      } else if AllocPages(s.pages, s.zp).1 != None {
        FreshKeeps(s, c, size);
      }
    }
  }

  lemma LargeKeeps(s: State, size: nat)
    requires Inv(s) && size < WORD && AllocPages(s.pages, PagesFor(size)).1 != None
    ensures var (pages, at) := AllocPages(s.pages, PagesFor(size));
      var r, h := s.(pages := pages, use := s.use[at.page := Large(PagesFor(size))]), Whole(at.page);
      Inv(r) && Adds(s.use, r.use, h) && size <= Hi(r.use, h) - Lo(r.use, h) < size + PAGE
  {
    var n := PagesFor(size);
    TakePages(s.pages, s.use, s.zp, n, Large(n));
    var p := AllocPages(s.pages, n).1.page;
    UnusedKey(s, p, Large(n));
    assert size <= WORD - PAGE ==> size <= n * PAGE < size + PAGE;
    assert (p + n) * PAGE == p * PAGE + n * PAGE;
  }

  /** A new entry that is no zone and not cached leaves lists and cache right. */
  lemma UnusedKey(s: State, p: nat, u: Use)
    requires Inv(s) && p !in s.use && !u.Small? && !u.Cached? && (u.Fresh? ==> 0 < u.size < Limit(s.zp))
    ensures var use := s.use[p := u];
      && ZonesOk(use, s.zp) && ListsOk(use, s.lists) && CacheOk(use, s.cache)
      && if u.Large? then Adds(s.use, use, Whole(p)) else SameLive(s.use, use)
  {
    hide PagesOk;
  }

  lemma FreshKeeps(s: State, c: nat, size: nat)
    requires Inv(s) && 0 < size < Limit(s.zp) && AllocPages(s.pages, s.zp).1 != None
    ensures var (pages, at) := AllocPages(s.pages, s.zp);
      var r := s.(pages := pages, use := s.use[at.page := Fresh(c, size)]); Inv(r) && SameLive(s.use, r.use)
  {
    TakePages(s.pages, s.use, s.zp, s.zp, Fresh(c, size));
    UnusedKey(s, AllocPages(s.pages, s.zp).1.page, Fresh(c, size));
  }

  lemma GrowKeeps(s: State, c: nat, p: nat)
    requires Inv(s) && p in s.use && s.use[p].Fresh?
    ensures var (r, out) := Grow(s, c, p);
      && Inv(r) && out == Got(Chunk(p, 0)) && Adds(s.use, r.use, out.h)
      && Suits(s.use[p].size, Hi(r.use, out.h) - Lo(r.use, out.h), s.zp)
  {
    assert p !in s.cache;
    ClassSuits(s.use[p].size, s.zp);
    hide Suits;
    BuiltKeeps(s, p, s.use[p].size);
  }

  /** A small request is served by the first listed zone of its class: by a chunk that was never used as long as there
      is one, else by the one freed last.  With no such zone it is served by the newest cached zone, and only else by
      new pages. */
  lemma MallocSource(s: State, c: nat, size: nat)
    requires Inv(s) && 0 < size < Limit(s.zp)
    ensures size < 16384
    ensures var (out, list) := (Malloc(s, c, size).1, s.lists[ZoneIndex(size).index]);
      if list != [] then
        && list[0] in s.use && s.use[list[0]].Small?
        && var zone := s.use[list[0]].zone;
           if zone.uindex + 1 < zone.nmax then out == Got(Chunk(list[0], zone.uindex + 1))
           else zone.free != [] && out == Got(Chunk(list[0], zone.free[0]))
      else if s.cache != [] then out == Got(Chunk(s.cache[0], 0))
      else out.Waits? || out.Null?
  {
    ClassFits(size, s.zp);
    var i := ZoneIndex(size).index;
    if s.lists[i] != [] { ListedCan(s, i); }
    hide ZoneIndex, Limit;
  }

  /** Whole pages are the lowest ones that are free in sufficient number. */
  lemma LargeSource(s: State, c: nat, size: nat)
    requires Inv(s) && Limit(s.zp) <= size < WORD
    ensures var n := if size <= WORD - PAGE then (size + 4095) / 4096 else 0;
      match Malloc(s, c, size).1
      case Got(h) => h.Whole? && AllFree(s.pages, h.p, n) && forall from: nat :: from < h.p ==> !AllFree(s.pages, from, n)
      case Null => n == 0 || forall from: nat :: !AllFree(s.pages, from, n)
      case Waits(p) => false
  {
    var n := PagesFor(size);
    assert n == if size <= WORD - PAGE then (size + 4095) / 4096 else 0;
    hide PagesFor, ZonesOk, ListsOk, CacheOk;
    AllocKeeps(s.pages, n);
    if n > 0 { AllocFailsIff(s.pages, n); }
    if AllocPages(s.pages, n).1 != None { AllocLowest(s.pages, n); }
  }

  // ---------- Alignment ----------

  /** Bit test of the source: size is a power of two. */
  lemma PowerBase(size: nat, k: nat)
    requires size == Bits.Pow2(k)
    ensures BaseOf(size) % size == 0
  {
    PowerApart(k, size - 1);
    MaskedMultiple(36 + size - 1, k);
    hide And;
  }

  lemma BaseByEight(size: nat)
    requires size > 0 && size % 8 == 0
    ensures BaseOf(size) % 8 == 0
  {
    LowThree(36 + size - 1, size - 1);
    LowThree(36 + 7, 7);
    hide And, Masked;
  }

  lemma SizesByEight(i: nat)
    ensures SizeOfZone(i) % 8 == 0
  {
  }

  lemma SumOfMultiples(a: nat, b: nat, k: nat, n: nat)
    requires n > 0 && b % n == 0
    ensures (a + b + k * n) % n == a % n
  {
    var q := a / n + b / n + k;
    assert a + b + k * n == n * q + a % n;
    Bits.DivUnique(a + b + k * n, n, q, a % n);
  }

  /** Every chunk begins at a multiple of 8 bytes, and one whose size is a power of two at a multiple of that size if
      and only if its zone does. */
  lemma ChunkAligned(s: State, z: nat, k: nat)
    requires Inv(s) && Live(s.use, Chunk(z, k))
    ensures Lo(s.use, Chunk(z, k)) % 8 == 0
    ensures forall j: nat {:trigger Bits.Pow2(j)} :: s.use[z].zone.size == Bits.Pow2(j) ==>
              (Lo(s.use, Chunk(z, k)) % s.use[z].zone.size == 0 <==> z * PAGE % s.use[z].zone.size == 0)
  {
    var zone := s.use[z].zone;
    ZoneFacts(s, z);
    var size, base := zone.size, zone.base;
    SizesByEight(zone.index);
    BaseByEight(size);
    EightMore(z, base, k, size);
    forall j: nat {:trigger Bits.Pow2(j)} | size == Bits.Pow2(j)
      ensures Lo(s.use, Chunk(z, k)) % size == 0 <==> z * PAGE % size == 0
    {
      PowerBase(size, j);
      SumOfMultiples(z * PAGE, base, k, size);
    }
  }

  lemma ZoneFacts(s: State, z: nat)
    requires Inv(s) && z in s.use && s.use[z].Small?
    ensures var zone := s.use[z].zone; zone.size > 0 && zone.size == SizeOfZone(zone.index) && zone.base == BaseOf(zone.size)
  {
    assert ZoneOk(s.use[z].zone, s.zp);
  }

  lemma EightMore(z: nat, base: nat, k: nat, size: nat)
    requires base % 8 == 0 && size % 8 == 0
    ensures (z * PAGE + base + k * size) % 8 == 0
  {
    var e, b := size / 8, base / 8;
    assert k * size == 8 * (k * e) by { assert size == 8 * e; }
    assert z * PAGE == 8 * (z * 512);
  }

  /** Up to a page, that is always so; a larger power of two is a multiple of the page size, and so a zone need not
      begin at one. */
  lemma SmallPowersAligned(s: State, z: nat, k: nat, j: nat)
    requires Inv(s) && Live(s.use, Chunk(z, k)) && s.use[z].zone.size == Bits.Pow2(j) && j <= 12
    ensures Lo(s.use, Chunk(z, k)) % s.use[z].zone.size == 0
  {
    hide Inv, Live, Lo, Bits.Pow2;
    ChunkAligned(s, z, k);
    PageMultiple(j);
    MultipleTimes(z, Bits.Pow2(j), PAGE / Bits.Pow2(j));
  }

  /** A request of 8192 bytes on a heap that starts at an odd page: the chunk is not at a multiple of its size. */
  lemma LargePowerMisaligned()
    ensures var s := Init(16, 1, 64);
      && Inv(s) && Malloc(s, 0, 8192).1 == Waits(1)
      && var s1 := Malloc(s, 0, 8192).0;
         && Inv(s1) && 1 in s1.use && s1.use[1].Fresh? && Grow(s1, 0, 1).1 == Got(Chunk(1, 0))
         && var use := Grow(s1, 0, 1).0.use; Live(use, Chunk(1, 0)) && use[1].zone.size == 8192 && Lo(use, Chunk(1, 0)) == 12288
  {
    hide PagesOk, ZonesOk, ListsOk, CacheOk, Adds, SameLive, Suits, BaseOf;
    BaseOfLarge();
    var s := Init(16, 1, 64);
    InitOk(16, 1, 64);
    MallocKeeps(s, 0, 8192);
    assert ZoneIndex(8192) == Class(8192, 63);
    AllocUnfold(s.pages, 16);
    assert s.pages[0] == Run(1, 64) && AllocPages(s.pages, 16).1 == Some(1);
    var s1 := Malloc(s, 0, 8192).0;
    assert s1.use[1] == Fresh(0, 8192);
    GrowKeeps(s1, 0, 1);
  }

  lemma BaseOfLarge()
    ensures BaseOf(8192) == 8192
  {
    hide BaseOf;
    assert Bits.Pow2(13) == 8192 by { assert Bits.Pow2(5) == 32 && Bits.Pow2(10) == 1024; }
    PowerBase(8192, 13);
    BaseBounds(8192);
  }

  lemma MultipleTimes(z: nat, size: nat, q: nat)
    requires size > 0 && PAGE == size * q
    ensures z * PAGE % size == 0
  {
    assert z * PAGE == size * (z * q);
    Bits.DivUnique(z * PAGE, size, z * q, 0);
  }

  lemma PageMultiple(j: nat)
    requires j <= 12
    ensures PAGE % Bits.Pow2(j) == 0 && PAGE == Bits.Pow2(j) * (PAGE / Bits.Pow2(j))
  {
    assert Bits.Pow2(3) == 8 && Bits.Pow2(2) == 4 && Bits.Pow2(1) == 2 && Bits.Pow2(0) == 1;
    assert Bits.Pow2(4) == 16 && Bits.Pow2(5) == 32 && Bits.Pow2(6) == 64;
    assert Bits.Pow2(7) == 128 && Bits.Pow2(8) == 256 && Bits.Pow2(9) == 512;
    assert Bits.Pow2(10) == 1024 && Bits.Pow2(11) == 2048 && Bits.Pow2(12) == 4096;
  }

  // ---------- rt_free ----------

  lemma GaveLists(use: map<nat, Use>, lists: seq<seq<nat>>, z: nat, k: nat)
    requires ListsOk(use, lists) && z in use && use[z].Small? && use[z].zone.index < 72
    ensures var was := use[z].zone; var i := was.index;
      ListsOk(use[z := Small(Returned(was, k))], if was.nfree == 0 then lists[i := [z] + lists[i]] else lists)
  {
    var was := use[z].zone;
    var row := lists[was.index];
    assert was.nfree == 0 ==> z !in row;
    assert forall u :: u in [z] + row <==> u == z || u in row;
  }

  lemma RetiredLists(use: map<nat, Use>, lists: seq<seq<nat>>, z: nat, u: Use)
    requires ListsOk(use, lists) && z in use && use[z].Small? && use[z].zone.index < 72 && !u.Small?
    ensures ListsOk(use[z := u], lists[use[z].zone.index := Without(lists[use[z].zone.index], z)])
  {
    WithoutMembers(lists[use[z].zone.index], z);
  }

  lemma FreeChunkKeeps(s: State, c: nat, z: nat, k: nat)
    requires Inv(s) && Live(s.use, Chunk(z, k))
    ensures var r := FreeChunk(s, c, z, k); Inv(r) && Adds(r.use, s.use, Chunk(z, k))
  {
    var was, r := s.use[z].zone, FreeChunk(s, c, z, k);
    assert z in s.use && ZoneOk(was, s.zp);
    ReturnedOk(was, s.zp, k);
    hide PagesOk, ZonesOk, ListsOk, CacheOk, Adds, ZoneOk;
    ReusePages(s.pages, s.use, s.zp, z, r.use[z]);
    AddsBack(s.use, r.use, z, k);
    if r.use[z].Small? {
      GaveLists(s.use, s.lists, z, k);
      GaveUse(s.use, s.zp, z, r.use[z], s.cache);
    } else {
      RetiredLists(s.use, s.lists, z, r.use[z]);
      RetiredUse(s.use, s.zp, z, r.use[z], s.cache);
    }
  }

  /** Numbers that are all there, but for k perhaps, are that many. */
  lemma {:induction false} Covers(free: seq<nat>, n: nat, k: nat)
    requires Distinct(free) && forall d: nat :: d < n ==> d == k || d in free
    ensures |free| >= if k < n then n - 1 else n
    decreases n
  {
    if n > 0 {
      var d := n - 1;
      WithoutMembers(free, d);
      if d == k {
        Covers(free, d, k);
      } else {
        Covers(Without(free, d), d, k);
      }
    }
  }

  /** Some other zone of the same class has a chunk to give. */
  ghost predicate Another(s: State, z: nat)
    requires z in s.use && s.use[z].Small?
  {
    exists y :: y in s.use && y != z && s.use[y].Small? && s.use[y].zone.index == s.use[z].zone.index && s.use[y].zone.nfree > 0
  }

  /** A freed chunk is the first that its zone will give again once its tail is used up.  The zone is given up exactly
      when no other chunk of it is live and another zone of its class has chunks to give; then it becomes the newest of
      the cached zones, unless there are two already. */
  lemma FreeChunkIs(s: State, c: nat, z: nat, k: nat)
    requires Inv(s) && Live(s.use, Chunk(z, k))
    ensures var r, was := FreeChunk(s, c, z, k), s.use[z].zone;
      var empty := forall d: nat :: Live(s.use, Chunk(z, d)) ==> d == k;
      && z in r.use && r.pages == s.pages
      && (!(empty && Another(s, z)) ==> r.use[z] == Small(was.(nfree := was.nfree + 1, free := [k] + was.free)) && r.cache == s.cache)
      && (empty && Another(s, z) && |s.cache| < 2 ==> r.use[z] == Cached && r.cache == [z] + s.cache)
      && (empty && Another(s, z) && |s.cache| == 2 ==> r.use[z] == Gone(c, s.zp) && r.cache == s.cache)
  {
    var was := s.use[z].zone;
    assert ZoneOk(was, s.zp);
    ReturnedOk(was, s.zp, k);
    if forall d: nat :: Live(s.use, Chunk(z, d)) ==> d == k {
      forall d: nat | d < was.uindex + 1 ensures d == k || d in was.free { assert d !in was.free ==> Live(s.use, Chunk(z, d)); }
      Covers(was.free, was.uindex + 1, k);
    }
    OthersIff(s, z);
    hide PagesOk, ZonesOk, ListsOk, CacheOk, ZoneOk, Another;
  }

  lemma OthersIff(s: State, z: nat)
    requires Inv(s) && z in s.use && s.use[z].Small?
    ensures s.use[z].zone.index < 72 && |s.lists| == 72
    ensures Without(s.lists[s.use[z].zone.index], z) != [] <==> Another(s, z)
  {
    assert ZoneOk(s.use[z].zone, s.zp);
    var list := s.lists[s.use[z].zone.index];
    WithoutMembers(list, z);
    if Without(list, z) != [] {
      var y := Without(list, z)[0];
      assert y in Without(list, z);
      assert y in list;
    }
    if y :| y in s.use && y != z && s.use[y].Small? && s.use[y].zone.index == s.use[z].zone.index && s.use[y].zone.nfree > 0 {
      assert y in list;
      assert y in Without(list, z);
    }
  }

  lemma GaveUse(use: map<nat, Use>, zp: nat, z: nat, u: Use, cache: seq<nat>)
    requires ZonesOk(use, zp) && CacheOk(use, cache) && z in use && use[z].Small? && u.Small? && ZoneOk(u.zone, zp)
    ensures ZonesOk(use[z := u], zp) && CacheOk(use[z := u], cache)
  {
  }

  lemma RetiredUse(use: map<nat, Use>, zp: nat, z: nat, u: Use, cache: seq<nat>)
    requires ZonesOk(use, zp) && CacheOk(use, cache) && z in use && use[z].Small?
    ensures u.Gone? ==> ZonesOk(use[z := u], zp) && CacheOk(use[z := u], cache)
    ensures u.Cached? && |cache| < 2 ==> ZonesOk(use[z := u], zp) && CacheOk(use[z := u], [z] + cache)
  {
    assert z !in cache;
    assert forall v: nat :: v in [z] + cache <==> v == z || v in cache;
  }

  lemma AddsBack(use: map<nat, Use>, after: map<nat, Use>, z: nat, k: nat)
    requires Live(use, Chunk(z, k)) && z in after && after == use[z := after[z]]
    requires if after[z].Small? then after[z].zone == Returned(use[z].zone, k)
      else !after[z].Large? && forall d: nat :: d <= use[z].zone.uindex ==> d == k || d in use[z].zone.free
    ensures Adds(after, use, Chunk(z, k))
  {
  }

  lemma FreeLargeKeeps(s: State, c: nat, p: nat)
    requires Inv(s) && Live(s.use, Whole(p))
    ensures var r := FreeLarge(s, c, p); Inv(r) && Adds(r.use, s.use, Whole(p))
  {
    var r := FreeLarge(s, c, p);
    ReusePages(s.pages, s.use, s.zp, p, r.use[p]);
    hide PagesOk;
    assert p !in s.cache;
  }

  lemma ReleaseKeeps(s: State, p: nat)
    requires Inv(s) && p in s.use && s.use[p].Gone?
    ensures var r := Release(s, p); Inv(r) && SameLive(s.use, r.use)
  {
    GivePages(s.pages, s.use, s.zp, p);
    hide PagesOk, FreePages;
  }

  // ---------- Whole runs ----------

  datatype Event =
    | MallocCall(c: nat, size: nat)
    | GrowCall(c: nat, p: nat)
    | FreeCall(c: nat, h: Handle)
    | ReleaseCall(c: nat, p: nat)

  ghost predicate Enabled(s: State, e: Event) {
    match e
    case MallocCall(c, size) => size < WORD
    case GrowCall(c, p) => p in s.use && s.use[p].Fresh? && s.use[p].c == c
    case FreeCall(c, h) => Live(s.use, h)
    case ReleaseCall(c, p) => p in s.use && s.use[p].Gone? && s.use[p].c == c
  }

  ghost function Next(s: State, e: Event): State
    requires Inv(s) && Enabled(s, e)
  {
    match e
    case MallocCall(c, size) => Malloc(s, c, size).0
    case GrowCall(c, p) => Grow(s, c, p).0
    case FreeCall(c, h) => if h.Chunk? then FreeChunk(s, c, h.z, h.k) else FreeLarge(s, c, h.p)
    case ReleaseCall(c, p) => Release(s, p)
  }

  lemma StepKeeps(s: State, e: Event)
    requires Inv(s) && Enabled(s, e)
    ensures Inv(Next(s, e))
  {
    hide Inv;
    match e {
      case MallocCall(c, size) => MallocKeeps(s, c, size);
      case GrowCall(c, p) => GrowKeeps(s, c, p);
      case FreeCall(c, h) => if h.Chunk? { FreeChunkKeeps(s, c, h.z, h.k); } else { FreeLargeKeeps(s, c, h.p); }
      case ReleaseCall(c, p) => ReleaseKeeps(s, p);
    }
  }

  ghost predicate Legal(s: State, es: seq<Event>)
    requires Inv(s)
    decreases |es|
  {
    es == [] || (Enabled(s, es[0]) && (StepKeeps(s, es[0]); Legal(Next(s, es[0]), es[1..])))
  }

  ghost function StateAfter(s: State, es: seq<Event>): (r: State)
    requires Inv(s) && Legal(s, es)
    decreases |es|
  {
    if es == [] then s else (StepKeeps(s, es[0]); StateAfter(Next(s, es[0]), es[1..]))
  }

  ghost predicate AllApart(use: map<nat, Use>) {
    forall h: Handle, g: Handle {:trigger Live(use, h), Live(use, g)} :: Live(use, h) && Live(use, g) && h != g ==>
      Hi(use, h) <= Lo(use, g) || Hi(use, g) <= Lo(use, h)
  }

  /** However the steps of any threads' calls follow each other, the page list stays in order and merged, every
      zone's count is right and lists exactly the zones with chunks to give, at most two empty zones are cached,
      and no byte belongs to two live blocks. */
  lemma {:induction false} RunKeeps(s: State, es: seq<Event>)
    requires Inv(s) && Legal(s, es)
    ensures Inv(StateAfter(s, es)) && AllApart(StateAfter(s, es).use)
    decreases |es|
  {
    if es == [] {
      forall h: Handle, g: Handle | Live(s.use, h) && Live(s.use, g) && h != g ensures Hi(s.use, h) <= Lo(s.use, g) || Hi(s.use, g) <= Lo(s.use, h) {
        LiveApart(s, h, g);
      }
    } else {
      hide Inv;
      StepKeeps(s, es[0]);
      RunKeeps(Next(s, es[0]), es[1..]);
    }
  }

  // ---------- No page is lost ----------

  ghost predicate Held(use: map<nat, Use>, zp: nat, page: nat) { exists p :: p in use && p <= page < p + CountOf(use[p], zp) }

  /** Of the n pages from start on each is free or in use, and no others are. */
  ghost predicate Counted(s: State, start: nat, n: nat) {
    forall page: nat {:trigger Free(s.pages, page)} {:trigger Held(s.use, s.zp, page)} ::
      start <= page < start + n <==> Free(s.pages, page) || Held(s.use, s.zp, page)
  }

  lemma HeldSame(use: map<nat, Use>, zp: nat, z: nat, u: Use, page: nat)
    requires z in use && CountOf(u, zp) == CountOf(use[z], zp)
    ensures Held(use[z := u], zp, page) <==> Held(use, zp, page)
  {
    var after := use[z := u];
    if p :| p in use && p <= page < p + CountOf(use[p], zp) { assert p in after && CountOf(after[p], zp) == CountOf(use[p], zp); }
  }

  lemma HeldMore(use: map<nat, Use>, zp: nat, z: nat, u: Use, page: nat)
    requires z !in use
    ensures Held(use[z := u], zp, page) <==> Held(use, zp, page) || z <= page < z + CountOf(u, zp)
  {
    var after := use[z := u];
    assert z in after;
    if p :| p in use && p <= page < p + CountOf(use[p], zp) { assert p in after && after[p] == use[p]; }
  }

  lemma HeldLess(s: State, z: nat, page: nat)
    requires PagesOk(s.pages, s.use, s.zp) && z in s.use
    ensures Held(s.use - {z}, s.zp, page) <==> Held(s.use, s.zp, page) && !(z <= page < z + CountOf(s.use[z], s.zp))
  {
    var after := s.use - {z};
    if p :| p in s.use && p <= page < p + CountOf(s.use[p], s.zp) && p != z { assert p in after && after[p] == s.use[p]; }
    if p :| p in after && p <= page < p + CountOf(after[p], s.zp) { assert p in s.use && p != z; }
  }

  /** Pages taken for whole pages or a new zone. */
  lemma PagesGot(s: State, c: nat, size: nat)
    requires Inv(s) && size < WORD
    requires var out := Malloc(s, c, size).1; out.Waits? || (out.Got? && out.h.Whole?)
    ensures var (r, out) := Malloc(s, c, size); var p := if out.Waits? then out.p else out.h.p;
      && p in r.use && p !in s.use && r.use == s.use[p := r.use[p]] && r.zp == s.zp
      && Gains(r.pages, s.pages, Run(p, CountOf(r.use[p], s.zp)))
  {
    var out := Malloc(s, c, size).1;
    var k := if out.Waits? then s.zp else PagesFor(size);
    AllocKeeps(s.pages, k);
    if size < Limit(s.zp) {
      ClassFits(size, s.zp);
      TakePages(s.pages, s.use, s.zp, k, Fresh(c, size));
    } else {
      TakePages(s.pages, s.use, s.zp, k, Large(k));
    }
    hide ZoneIndex, PagesOk, ZonesOk, ListsOk, CacheOk, Gains;
  }

  /** A step moves pages between the list and their uses, or leaves them where they are. */
  lemma MallocCounts(s: State, c: nat, size: nat, start: nat, n: nat)
    requires Inv(s) && size < WORD && Counted(s, start, n)
    ensures Counted(Malloc(s, c, size).0, start, n)
  {
    hide Inv, Held, Free;
    var (r, out) := Malloc(s, c, size);
    if out.Waits? || (out.Got? && out.h.Whole?) {
      PagesGot(s, c, size);
      hide Malloc;
      var p := if out.Waits? then out.p else out.h.p;
      forall page: nat ensures start <= page < start + n <==> Free(r.pages, page) || Held(r.use, s.zp, page) {
        HeldMore(s.use, s.zp, p, r.use[p], page);
      }
    } else if out.Got? {
      SmallGot(s, c, size);
      hide Malloc;
      forall page: nat ensures start <= page < start + n <==> Free(r.pages, page) || Held(r.use, s.zp, page) {
        HeldSame(s.use, s.zp, out.h.z, r.use[out.h.z], page);
      }
    } else {
      MallocKeeps(s, c, size);
    }
  }

  lemma SmallGot(s: State, c: nat, size: nat)
    requires Inv(s) && Malloc(s, c, size).1.Got? && Malloc(s, c, size).1.h.Chunk?
    ensures var (r, out) := Malloc(s, c, size); var z := out.h.z;
      r.pages == s.pages && z in s.use && CountOf(s.use[z], s.zp) == s.zp && z in r.use && r.use[z].Small? && r.use == s.use[z := r.use[z]] && r.zp == s.zp
  {
    ClassFits(size, s.zp);
    var i := ZoneIndex(size).index;
    if s.lists[i] != [] { ListedCan(s, i); } else if s.cache != [] { CachePop(s.use, s.cache); }
    hide ZoneIndex, NewZone;
  }

  lemma StepCounts(s: State, e: Event, start: nat, n: nat)
    requires Inv(s) && Enabled(s, e) && Counted(s, start, n)
    ensures Counted(Next(s, e), start, n)
  {
    var r := Next(s, e);
    match e {
      case MallocCall(c, size) => MallocCounts(s, c, size, start, n);
      case GrowCall(c, p) =>
        GrowKeeps(s, c, p);
        forall page: nat ensures Held(r.use, s.zp, page) <==> Held(s.use, s.zp, page) { HeldSame(s.use, s.zp, p, r.use[p], page); }
      case FreeCall(c, h) =>
        var z := if h.Chunk? then h.z else h.p;
        if h.Chunk? { FreeChunkIs(s, c, h.z, h.k); }
        forall page: nat ensures Held(r.use, s.zp, page) <==> Held(s.use, s.zp, page) { HeldSame(s.use, s.zp, z, r.use[z], page); }
      case ReleaseCall(c, p) =>
        FreeKeeps(s.pages, Run(p, s.use[p].n));
        forall page: nat ensures start <= page < start + n <==> Free(r.pages, page) || Held(r.use, s.zp, page) { HeldLess(s, p, page); }
    }
  }

  /** Over any run no page leaks and none is made up. */
  lemma {:induction false} RunCounts(s: State, es: seq<Event>, start: nat, n: nat)
    requires Inv(s) && Legal(s, es) && Counted(s, start, n)
    ensures Counted(StateAfter(s, es), start, n)
    decreases |es|
  {
    if es != [] {
      hide Inv, Counted;
      StepKeeps(s, es[0]);
      StepCounts(s, es[0], start, n);
      RunCounts(Next(s, es[0]), es[1..], start, n);
    }
  }

  /** The state rt_system_heap_init leaves. */
  function Init(zp: nat, start: nat, n: nat): State { State(zp, [Run(start, n)], map[], seq(72, _ => []), []) }

  lemma InitOk(zp: nat, start: nat, n: nat)
    requires (zp == 8 || zp == 16 || zp == 32) && n > 0
    ensures Inv(Init(zp, start, n)) && Counted(Init(zp, start, n), start, n)
  {
    var s := Init(zp, start, n);
    forall page: nat ensures start <= page < start + n <==> Free(s.pages, page) || Held(s.use, s.zp, page) {
      assert s.pages[1..] == [];
    }
  }
}
