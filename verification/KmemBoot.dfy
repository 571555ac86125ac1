/**
 How the allocator comes up (os/kmem_vmm.c:158-316, os/kmem_slab.c:326-556): the first slabs of the cache of caches and
 of the range cache are built by hand, then the kernel area is cut into ranges. At the end every invariant holds.
 */
module KmemBoot {
  import opened KmemState
  import opened KmemGeometry
  import opened KmemPages
  import opened KmemSlabSteps
  import opened KmemRangeSteps
  import opened KmemFacts
  import opened Kmem

  /** sizeof(struct sos_kslab_cache). */
  const CACHE_STRUCT_SIZE := 44
  const CACHE_OBJECTS := 92
  const KSLAB_OBJECTS := 145
  /** The structures of the three caches themselves. */
  const FIRST_CACHES := 3

  /**
   `page`: where the first slab of caches is; the slab of ranges follows. `caches`, `ranges`: their objects, in
   free-list order.
   */
  datatype Layout = Layout(page: int, caches: seq<Ptr>, ranges: seq<Ptr>)

  function CacheSlab(l: Layout): Ptr { (l.page + 1) * PAGE_SIZE - SLAB_STRUCT_SIZE }
  function RangeSlab(l: Layout): Ptr { (l.page + 2) * PAGE_SIZE - SLAB_STRUCT_SIZE }

  /** Where the structure of the `i`-th cache is. */
  function StructAt(l: Layout, i: nat): Ptr { if i < |l.caches| then l.caches[i] else 0 }

  function CacheOfCaches(l: Layout): Cache {
    Cache(StructAt(l, 0), CACHE_STRUCT_SIZE, CACHE_STRUCT_SIZE, CACHE_OBJECTS, 1, 0, true, true,
      CACHE_OBJECTS - FIRST_CACHES, [CacheSlab(l)])
  }

  function CacheOfRanges(l: Layout, j: nat): Cache {
    Cache(StructAt(l, 1), RANGE_STRUCT_SIZE, RANGE_STRUCT_SIZE, RANGE_OBJECTS, 1, 2, true, true, RANGE_OBJECTS - j,
      [RangeSlab(l)])
  }

  function CacheOfSlabs(l: Layout): Cache {
    Cache(StructAt(l, 2), SLAB_STRUCT_SIZE, SLAB_STRUCT_SIZE, KSLAB_OBJECTS, 1, 0, true, true, 0, [])
  }

  ghost predicate LayoutOk(l: Layout) {
    && FullFreeList(CacheOfCaches(l), l.page * PAGE_SIZE, l.caches)
    && FullFreeList(CacheOfRanges(l, 0), (l.page + 1) * PAGE_SIZE, l.ranges)
  }

  /** The slab side once `j` range structures are taken; the first slabs sit in ranges `rc` and `rr`. */
  ghost predicate TwoSlabs(m: Mem, l: Layout, j: nat, rc: Ptr, rr: Ptr) {
    && LayoutOk(l) && j < RANGE_OBJECTS
    && m.caches == map[RANGE_CACHE := CacheOfRanges(l, j), KSLAB_CACHE := CacheOfSlabs(l),
      CACHE_CACHE := CacheOfCaches(l)]
    && m.slabs == map[
         CacheSlab(l) :=
           Slab(CACHE_OBJECTS - FIRST_CACHES, l.caches[FIRST_CACHES..], rc, l.page * PAGE_SIZE, CACHE_CACHE),
         RangeSlab(l) := Slab(RANGE_OBJECTS - j, l.ranges[j..], rr, (l.page + 1) * PAGE_SIZE, RANGE_CACHE)]
    && (forall a :: a in m.home <==> a in l.caches[..FIRST_CACHES] || a in l.ranges[..j])
    && (forall a :: a in l.caches[..FIRST_CACHES] ==> a in m.home && m.home[a] == CacheSlab(l))
    && (forall a :: a in l.ranges[..j] ==> a in m.home && m.home[a] == RangeSlab(l))
  }

  // ---------------------------------------------------------------- the slab side

  lemma Halved<T>(s: seq<T>, j: nat)
    requires KmemState.NoDup(s) && j <= |s|
    ensures KmemState.NoDup(s[j..]) && (forall a :: a in s <==> a in s[..j] || a in s[j..])
    ensures (forall a :: a in s[..j] ==> a !in s[j..])
  {
    assert s == s[..j] + s[j..];
  }

  /** Objects of the first slab of caches and of the first slab of ranges lie in different pages. */
  lemma LayoutOrder(l: Layout, a: Ptr, b: Ptr)
    requires LayoutOk(l) && a in l.caches && b in l.ranges
    ensures a < b
  {
    ObjectFits(CacheOfCaches(l), l.page * PAGE_SIZE, a);
    ObjectFits(CacheOfRanges(l, 0), (l.page + 1) * PAGE_SIZE, b);
  }

  lemma LayoutApart(l: Layout, a: Ptr)
    requires LayoutOk(l) && a in l.caches
    ensures a !in l.ranges
  {
    if a in l.ranges { LayoutOrder(l, a, a); }
  }

  lemma ObjectsStay(l: Layout, j: nat, a: Ptr)
    requires j <= RANGE_OBJECTS
    ensures IsObject(CacheOfRanges(l, j), (l.page + 1) * PAGE_SIZE, a)
      == IsObject(CacheOfRanges(l, 0), (l.page + 1) * PAGE_SIZE, a)
  {}

  lemma TwoSlabsCaches(m: Mem, l: Layout, j: nat, rc: Ptr, rr: Ptr, c: CacheId)
    requires TwoSlabs(m, l, j, rc, rr) && c in m.caches
    ensures CacheOk(m, c)
  {
    OneSlabSum(m, CacheSlab(l));
    OneSlabSum(m, RangeSlab(l));
  }

  lemma TwoSlabsOk(m: Mem, l: Layout, j: nat, rc: Ptr, rr: Ptr)
    requires TwoSlabs(m, l, j, rc, rr)
    ensures SlabsOk(m)
  {
    Halved(l.caches, FIRST_CACHES);
    Halved(l.ranges, j);
    forall a | a in l.ranges
      ensures IsObject(CacheOfRanges(l, j), (l.page + 1) * PAGE_SIZE, a)
    {
      ObjectsStay(l, j, a);
    }
    hide IsObject, CacheOk;
    forall c | c in m.caches ensures CacheOk(m, c) { TwoSlabsCaches(m, l, j, rc, rr, c); }
    forall s | s in m.slabs ensures SlabOk(m, s) {}
  }

  lemma OneSlabSum(m: Mem, s: Ptr)
    requires s in m.slabs
    ensures SumFree([s], m.slabs) == m.slabs[s].nbFree
  {
    assert SumFree([s], m.slabs) == m.slabs[s].nbFree + SumFree([], m.slabs);
  }

  lemma TwoSlabsAllocated(m: Mem, l: Layout, j: nat, rc: Ptr, rr: Ptr, s: Ptr, a: Ptr)
    requires TwoSlabs(m, l, j, rc, rr)
    ensures Allocated(m, s, a)
      <==> (s == CacheSlab(l) && a in l.caches[..FIRST_CACHES]) || (s == RangeSlab(l) && a in l.ranges[..j])
  {
    Halved(l.caches, FIRST_CACHES);
    Halved(l.ranges, j);
    ObjectsStay(l, j, a);
    hide IsObject;
  }

  lemma TwoSlabsHome(m: Mem, l: Layout, j: nat, rc: Ptr, rr: Ptr)
    requires TwoSlabs(m, l, j, rc, rr)
    ensures HomeOk(m)
    ensures forall a :: AllocatedFrom(m, RANGE_CACHE, a) <==> a in l.ranges[..j]
    ensures forall a :: AllocatedFrom(m, CACHE_CACHE, a) <==> a in l.caches[..FIRST_CACHES]
    ensures forall a :: !AllocatedFrom(m, KSLAB_CACHE, a) && !IsOffSlab(m, a)
  {
    Halved(l.caches, FIRST_CACHES);
    Halved(l.ranges, j);
    forall a | a in l.caches[..FIRST_CACHES] ensures a !in l.ranges[..j] { LayoutApart(l, a); }
    forall s, a
      ensures Allocated(m, s, a)
        <==> (s == CacheSlab(l) && a in l.caches[..FIRST_CACHES]) || (s == RangeSlab(l) && a in l.ranges[..j])
    {
      TwoSlabsAllocated(m, l, j, rc, rr, s, a);
    }
    hide Allocated, LayoutOk;
  }

  // ---------------------------------------------------------------- the range side

  /** The ranges created so far tile the area up to page `upto`. */
  ghost predicate TiledTo(m: Mem, upto: int) {
    && BASE_PAGE <= upto <= TOP_PAGE
    && (forall r :: r in m.ranges ==>
      BASE_PAGE <= m.ranges[r].base && 1 <= m.ranges[r].npages && End(m.ranges[r]) <= upto)
    && Apart(m) && PlacesOk(m, NOTHING) && SortedUsed(m) && SortedFree(m, NOTHING)
    && (forall p :: BASE_PAGE <= p < upto ==> p in m.tile && m.tile[p] in m.ranges && Covers(m.ranges[m.tile[p]], p))
  }

  /** Ranges that are not free are mapped throughout, and nothing else is said to be. */
  ghost predicate MappedUsed(m: Mem) {
    && OwnersOk(m) && FramesSoFar(m.mapped, m.pages)
    && (forall r :: r in m.ranges && r in m.usedList ==> AllMapped(m, r))
  }

  /** The pages given to ranges so far name them; the other mapped pages, in the kernel area too, have no owner yet. */
  ghost predicate FramesSoFar(mapped: map<int, Ptr>, g: Pages) {
    && (forall p :: p in mapped ==> InArea(p) && Names(g, p, mapped[p]))
    && (forall p :: p in g.frameOf && p !in mapped ==> Unowned(g, p))
    && OneFrameEach(g)
  }

  /** No physical page is behind a page of the kernel area and behind another page. */
  ghost predicate OneFrameEach(g: Pages) {
    forall p, q :: p in g.frameOf && q in g.frameOf && InArea(p) && p != q ==> g.frameOf[p] != g.frameOf[q]
  }

  function PagesIn(lo: int, hi: int): (s: set<int>)
    ensures forall p :: p in s <==> lo <= p < hi
    decreases hi - lo
  {
    if hi <= lo then {} else PagesIn(lo, hi - 1) + {hi - 1}
  }

  /** Pages `lo` to `hi` go to range `r`. */
  function MapAll(mapped: map<int, Ptr>, r: Ptr, lo: int, hi: int): (m: map<int, Ptr>)
    ensures forall p :: p in m <==> p in mapped || lo <= p < hi
    ensures forall p :: p in m ==> m[p] == if lo <= p < hi then r else mapped[p]
  {
    map p | p in mapped.Keys + PagesIn(lo, hi) :: if lo <= p < hi then r else mapped[p]
  }

  /** sos_physmem_set_kmem_range on the physical page behind each page from `lo` to `hi`. */
  function OwnAll(g: Pages, r: Ptr, lo: int, hi: int): (g': Pages)
    ensures g'.frameOf == g.frameOf
    decreases hi - lo
  {
    if hi <= lo then g
    else
      var g' := OwnAll(g, r, lo, hi - 1);
      if hi - 1 in g'.frameOf then g'.(rangeOf := g'.rangeOf[g'.frameOf[hi - 1] := r]) else g'
  }

  lemma {:induction false} OwnAllFrames(mapped: map<int, Ptr>, g: Pages, r: Ptr, lo: int, hi: int)
    requires FramesSoFar(mapped, g) && BASE_PAGE <= lo && hi <= TOP_PAGE && forall p :: lo <= p < hi ==> p in g.frameOf
    ensures OwnAll(g, r, lo, hi).frameOf == g.frameOf && FramesSoFar(MapAll(mapped, r, lo, hi), OwnAll(g, r, lo, hi))
    decreases hi - lo
  {
    hide FramesSoFar, MapAll;
    MapAllStep(mapped, r, lo, hi);
    if hi <= lo {
    } else {
      OwnAllFrames(mapped, g, r, lo, hi - 1);
      OwnOne(MapAll(mapped, r, lo, hi - 1), OwnAll(g, r, lo, hi - 1), r, hi - 1);
    }
  }

  lemma MapAllStep(mapped: map<int, Ptr>, r: Ptr, lo: int, hi: int)
    ensures hi <= lo ==> MapAll(mapped, r, lo, hi) == mapped
    ensures lo < hi ==> MapAll(mapped, r, lo, hi) == MapAll(mapped, r, lo, hi - 1)[hi - 1 := r]
  {
    hide MapAll;
  }

  lemma OwnOne(mapped: map<int, Ptr>, g: Pages, r: Ptr, p: int)
    requires FramesSoFar(mapped, g) && InArea(p) && p in g.frameOf
    ensures FramesSoFar(mapped[p := r], g.(rangeOf := g.rangeOf[g.frameOf[p] := r]))
  {
    var g', mapped' := g.(rangeOf := g.rangeOf[g.frameOf[p] := r]), mapped[p := r];
    forall q | q in mapped'
      ensures InArea(q) && Names(g', q, mapped'[q])
    {
      if q != p { assert Names(g, q, mapped[q]); }
    }
    forall q | q in g'.frameOf && q !in mapped' ensures Unowned(g', q) { assert Unowned(g, q); }
  }

  /** Range `e` is created over [`base`, `top`): free, or used and mapped. */
  function Created(m: Mem, e: Ptr, isFree: bool, base: int, top: int, slab: Option<Ptr>): Mem {
    m.(ranges := m.ranges[e := Range(base, top - base, slab)],
       freeList := if isFree then m.freeList + [e] else m.freeList,
       usedList := if isFree then m.usedList else m.usedList + [e],
       mapped := if isFree then m.mapped else MapAll(m.mapped, e, base, top),
       pages := if isFree then m.pages else OwnAll(m.pages, e, base, top),
       tile := MapAll(m.tile, e, base, top))
  }

  lemma CreatedApart(m: Mem, e: Ptr, isFree: bool, base: int, top: int, slab: Option<Ptr>)
    requires TiledTo(m, base) && base < top <= TOP_PAGE && e !in m.ranges && (isFree ==> slab.None?)
    ensures var m' := Created(m, e, isFree, base, top, slab); Apart(m') && PlacesOk(m', NOTHING)
  {
    hide SortedUsed, SortedFree, MapAll;
  }

  lemma CreatedUsed(m: Mem, e: Ptr, isFree: bool, base: int, top: int, slab: Option<Ptr>)
    requires TiledTo(m, base) && base < top <= TOP_PAGE && e !in m.ranges && (isFree ==> slab.None?)
    ensures SortedUsed(Created(m, e, isFree, base, top, slab))
  {
    hide Apart, SortedFree, MapAll;
    var m' := Created(m, e, isFree, base, top, slab);
    forall i, j | 0 <= i < j < |m'.usedList| ensures UsedOrder(m', m'.usedList[i], m'.usedList[j]) {
      assert m'.usedList[i] in m.usedList;
      if j < |m.usedList| { assert UsedOrder(m, m.usedList[i], m.usedList[j]) && m.usedList[j] in m.usedList; }
    }
  }

  lemma CreatedFree(m: Mem, e: Ptr, isFree: bool, base: int, top: int, slab: Option<Ptr>)
    requires TiledTo(m, base) && base < top <= TOP_PAGE && e !in m.ranges && (isFree ==> slab.None?)
    requires isFree ==> forall r :: r in m.freeList && r in m.ranges ==> End(m.ranges[r]) < base
    ensures SortedFree(Created(m, e, isFree, base, top, slab), NOTHING)
  {
    hide Apart, SortedUsed, MapAll;
    var m' := Created(m, e, isFree, base, top, slab);
    forall i, j | 0 <= i < j < |m'.freeList| ensures FreeOrder(m', NOTHING, m'.freeList[i], m'.freeList[j]) {
      assert m'.freeList[i] in m.freeList;
      if j < |m.freeList| { assert FreeOrder(m, NOTHING, m.freeList[i], m.freeList[j]) && m.freeList[j] in m.freeList; }
    }
  }

  lemma CreatedTiles(m: Mem, e: Ptr, isFree: bool, base: int, top: int, slab: Option<Ptr>)
    requires TiledTo(m, base) && base < top <= TOP_PAGE && e !in m.ranges && (isFree ==> slab.None?)
    requires isFree ==> forall r :: r in m.freeList && r in m.ranges ==> End(m.ranges[r]) < base
    ensures TiledTo(Created(m, e, isFree, base, top, slab), top)
  {
    hide Apart, PlacesOk, SortedUsed, SortedFree, MapAll, OwnAll;
    CreatedApart(m, e, isFree, base, top, slab);
    CreatedUsed(m, e, isFree, base, top, slab);
    CreatedFree(m, e, isFree, base, top, slab);
    CreatedCovers(m, e, isFree, base, top, slab);
  }

  lemma CreatedCovers(m: Mem, e: Ptr, isFree: bool, base: int, top: int, slab: Option<Ptr>)
    requires TiledTo(m, base) && base < top && e !in m.ranges
    ensures var m' := Created(m, e, isFree, base, top, slab);
      forall p :: BASE_PAGE <= p < top ==> p in m'.tile && m'.tile[p] in m'.ranges && Covers(m'.ranges[m'.tile[p]], p)
  {
    hide Apart, PlacesOk, SortedUsed, SortedFree, MapAll;
  }

  lemma CreatedOwners(m: Mem, e: Ptr, isFree: bool, base: int, top: int, slab: Option<Ptr>)
    requires OwnersOk(m) && base < top && e !in m.ranges && forall r :: r in m.freeList ==> r in m.ranges
    ensures OwnersOk(Created(m, e, isFree, base, top, slab))
  {
    hide MapAll, OwnAll;
  }

  lemma CreatedPages(m: Mem, e: Ptr, isFree: bool, base: int, top: int, slab: Option<Ptr>)
    requires FramesSoFar(m.mapped, m.pages) && BASE_PAGE <= base && top <= TOP_PAGE
    requires isFree || forall p :: base <= p < top ==> p in m.pages.frameOf
    ensures var m' := Created(m, e, isFree, base, top, slab); FramesSoFar(m'.mapped, m'.pages)
  {
    if !isFree { OwnAllFrames(m.mapped, m.pages, e, base, top); }
    hide FramesSoFar, MapAll, OwnAll;
  }

  lemma CreatedMapped(m: Mem, e: Ptr, isFree: bool, base: int, top: int, slab: Option<Ptr>)
    requires MappedUsed(m) && PlacesOk(m, NOTHING) && BASE_PAGE <= base < top <= TOP_PAGE && e !in m.ranges
    requires isFree || forall p :: base <= p < top ==> p in m.pages.frameOf
    ensures MappedUsed(Created(m, e, isFree, base, top, slab))
  {
    hide FramesSoFar, OwnersOk, OwnAll, MapAll;
    CreatedOwners(m, e, isFree, base, top, slab);
    CreatedPages(m, e, isFree, base, top, slab);
    var m' := Created(m, e, isFree, base, top, slab);
    forall r | r in m'.ranges && r in m'.usedList ensures AllMapped(m', r) {
      if r != e { assert AllMapped(m, r); }
    }
  }

  // ---------------------------------------------------------------- the owners create_range records

  /** What create_range does to the owners of pages, for the ranges of list `l` in turn. */
  function OwnUsed(g: Pages, ranges: map<Ptr, Range>, l: seq<Ptr>): (g': Pages)
    ensures g'.frameOf == g.frameOf
  {
    if l == [] then g
    else
      var r, g' := l[|l| - 1], OwnUsed(g, ranges, l[..|l| - 1]);
      if r in ranges then OwnAll(g', r, ranges[r].base, End(ranges[r])) else g'
  }

  /** The owners of pages are those that create_range recorded, range by range, where there were none. */
  ghost predicate Told(m: Mem) { m.pages == OwnUsed(Pages(m.pages.frameOf, map[]), m.ranges, m.usedList) }

  lemma {:induction false} OwnUsedStays(g: Pages, ranges: map<Ptr, Range>, l: seq<Ptr>, e: Ptr, r: Range)
    requires e !in l
    ensures OwnUsed(g, ranges[e := r], l) == OwnUsed(g, ranges, l)
  {
    if l == [] {
    } else {
      OwnUsedStays(g, ranges, l[..|l| - 1], e, r);
      assert l[|l| - 1] in l;
      hide OwnAll;
    }
  }

  lemma CreatedTold(m: Mem, e: Ptr, isFree: bool, base: int, top: int, slab: Option<Ptr>)
    requires Told(m) && e !in m.usedList
    ensures Told(Created(m, e, isFree, base, top, slab))
  {
    hide OwnAll, MapAll;
    var g, r := Pages(m.pages.frameOf, map[]), Range(base, top - base, slab);
    OwnUsedStays(g, m.ranges, m.usedList, e, r);
    assert (m.usedList + [e])[..|m.usedList|] == m.usedList;
  }

  lemma BootTold(m: Mem, m1: Mem, l: Layout, j: nat, upto: int, freeTop: int, nc: Option<Ptr>, nr: Option<Ptr>,
      isFree: bool, top: int, slab: Option<Ptr>)
    requires Booting(m, l, j, upto, freeTop, nc, nr) && SameRanges(m, m1) && Told(m) && j < |l.ranges|
    requires TwoSlabs(m1, l, j + 1, 0, 0)
    ensures Told(Created(m1, l.ranges[j], isFree, upto, top, slab))
  {
    hide TwoSlabs, TiledTo, MappedUsed, LabelIs, Booting, Created, OwnUsed, End;
    BootingParts(m, l, j, upto, freeTop, nc, nr);
    NewOne(m1, l, j);
    CreatedTold(m1, l.ranges[j], isFree, upto, top, slab);
  }

  // ---------------------------------------------------------------- creating the ranges

  /** Range `n` carries the label of slab `s`. */
  ghost predicate LabelIs(m: Mem, l: Layout, nc: Option<Ptr>, nr: Option<Ptr>) {
    forall q :: q in m.ranges ==>
      m.ranges[q].slab == if nc == Some(q) then Some(CacheSlab(l)) else if nr == Some(q) then Some(RangeSlab(l))
        else None
  }

  /**
   The allocator while it comes up: `j` ranges exist, they tile the area up to page `upto`, and free ranges end at
   `freeTop` or before. `nc` and `nr` are the ranges of the first two slabs, once they exist.
   */
  ghost predicate Booting(m: Mem, l: Layout, j: nat, upto: int, freeTop: int, nc: Option<Ptr>, nr: Option<Ptr>) {
    && TwoSlabs(m, l, j, 0, 0) && TiledTo(m, upto) && MappedUsed(m) && LabelIs(m, l, nc, nr)
    && (forall a :: a in m.ranges <==> a in l.ranges[..j])
    && (forall r :: r in m.freeList && r in m.ranges ==> End(m.ranges[r]) <= freeTop)
    && (nc.Some? ==>
      nc.value in m.usedList && nc.value in m.ranges && m.ranges[nc.value] == Range(l.page, 1, Some(CacheSlab(l))))
    && (nr.Some? ==>
      nr.value in m.usedList && nr.value in m.ranges && m.ranges[nr.value] == Range(l.page + 1, 1, Some(RangeSlab(l))))
  }

  predicate SameRanges(m: Mem, m': Mem) {
    m'.ranges == m.ranges && m'.freeList == m.freeList && m'.usedList == m.usedList && m'.tile == m.tile
    && m'.mapped == m.mapped && m'.pages == m.pages
  }

  lemma PopIs(m: Mem, l: Layout, j: nat)
    requires TwoSlabs(m, l, j, 0, 0) && j + 1 < RANGE_OBJECTS
    ensures |l.ranges| == RANGE_OBJECTS && HeadNonFull(m, RANGE_CACHE) && HeadObject(m, RANGE_CACHE) == l.ranges[j]
    ensures var m', f := PopObject(m, RANGE_CACHE), l.ranges[j..][1..];
      && SameRanges(m, m') && m'.home == m.home[l.ranges[j] := RangeSlab(l)]
      && m'.slabs == m.slabs[RangeSlab(l) := Slab(|f|, f, 0, (l.page + 1) * PAGE_SIZE, RANGE_CACHE)]
      && m'.caches
        == m.caches[RANGE_CACHE := CacheOfRanges(l, j).(nbFree := RANGE_OBJECTS - j + |f| - (RANGE_OBJECTS - j),
          slabList := [RangeSlab(l)])]
  {
    assert |l.ranges| == RANGE_OBJECTS;
    assert RangeSlab(l) in m.slabs && m.slabs[RangeSlab(l)].free == l.ranges[j..] && |l.ranges[j..]| > 1;
    assert m.caches[RANGE_CACHE].slabList == [RangeSlab(l)];
    hide LayoutOk;
  }

  /** The slab side with one range structure less. */
  lemma OneLess(m: Mem, m': Mem, l: Layout, j: nat)
    requires TwoSlabs(m, l, j, 0, 0) && j + 1 < RANGE_OBJECTS == |l.ranges|
    requires m'.home == m.home[l.ranges[j] := RangeSlab(l)]
    requires m'.slabs
      == m.slabs[RangeSlab(l) := Slab(RANGE_OBJECTS - (j + 1), l.ranges[j + 1..], 0, (l.page + 1) * PAGE_SIZE,
        RANGE_CACHE)]
    requires m'.caches == m.caches[RANGE_CACHE := CacheOfRanges(l, j + 1)]
    ensures TwoSlabs(m', l, j + 1, 0, 0)
  {
    var e := l.ranges[j];
    NextIsNew(l, j);
    forall a | a in l.caches[..FIRST_CACHES]
      ensures a != e
    {
      assert a in l.caches && e in l.ranges;
      LayoutOrder(l, a, e);
    }
    hide LayoutOk;
  }

  /** Taking a range structure from the first slab of ranges. */
  lemma PopRange(m: Mem, l: Layout, j: nat)
    requires TwoSlabs(m, l, j, 0, 0) && j + 1 < RANGE_OBJECTS
    ensures HeadNonFull(m, RANGE_CACHE) && |l.ranges| == RANGE_OBJECTS && HeadObject(m, RANGE_CACHE) == l.ranges[j]
    ensures SlabOk(m, m.caches[RANGE_CACHE].slabList[0])
    ensures TwoSlabs(PopObject(m, RANGE_CACHE), l, j + 1, 0, 0) && SameRanges(m, PopObject(m, RANGE_CACHE))
  {
    PopIs(m, l, j);
    RangeSlabOk(m, l, j);
    hide TwoSlabs, SlabOk, PopObject, HeadNonFull, HeadObject;
    assert l.ranges[j..][1..] == l.ranges[j + 1..];
    OneLess(m, PopObject(m, RANGE_CACHE), l, j);
  }

  lemma RangeSlabOk(m: Mem, l: Layout, j: nat)
    requires TwoSlabs(m, l, j, 0, 0)
    ensures RANGE_CACHE in m.caches && m.caches[RANGE_CACHE].slabList == [RangeSlab(l)] && RangeSlab(l) in m.slabs
    ensures SlabOk(m, RangeSlab(l))
  {
    TwoSlabsOk(m, l, j, 0, 0);
    hide SlabOk, LayoutOk, CacheOk;
  }

  /** The structure just taken is not one of a range that exists. */
  lemma NextIsNew(l: Layout, j: nat)
    requires LayoutOk(l) && j < RANGE_OBJECTS
    ensures l.ranges[j] !in l.ranges[..j] && l.ranges[..j + 1] == l.ranges[..j] + [l.ranges[j]]
  {
    Halved(l.ranges, j);
    assert l.ranges[j] == l.ranges[j..][0];
  }

  lemma CreatedBoots(m: Mem, l: Layout, j: nat, upto: int, freeTop: int, nc: Option<Ptr>, nr: Option<Ptr>,
      isFree: bool, top: int, slab: Option<Ptr>, nc': Option<Ptr>, nr': Option<Ptr>)
    requires Booting(m, l, j, upto, freeTop, nc, nr) && j + 1 < RANGE_OBJECTS && upto < top <= TOP_PAGE
    requires isFree || forall p :: upto <= p < top ==> p in m.pages.frameOf
    requires (isFree ==> slab == None && freeTop < upto) && freeTop <= upto
    requires var e := l.ranges[j];
      if slab == None then nc' == nc && nr' == nr
      else if slab == Some(CacheSlab(l)) then
        nc == None && nc' == Some(e) && nr' == nr && upto == l.page && top == upto + 1
      else
        nr == None && slab == Some(RangeSlab(l)) && nr' == Some(e) && nc' == nc && upto == l.page + 1
        && top == upto + 1
    ensures HeadNonFull(m, RANGE_CACHE)
    ensures Booting(Created(PopObject(m, RANGE_CACHE), l.ranges[j], isFree, upto, top, slab), l, j + 1, top,
      if isFree then top else freeTop, nc', nr')
  {
    hide *;
    hide Booting;
    BootPops(m, l, j, upto, freeTop, nc, nr);
    var m1, e := PopObject(m, RANGE_CACHE), l.ranges[j];
    BootCreates(m, m1, l, j, upto, freeTop, nc, nr, isFree, top, slab, nc', nr');
  }

  /** The next structure is taken. */
  lemma BootPops(m: Mem, l: Layout, j: nat, upto: int, freeTop: int, nc: Option<Ptr>, nr: Option<Ptr>)
    requires Booting(m, l, j, upto, freeTop, nc, nr) && j + 1 < RANGE_OBJECTS
    ensures HeadNonFull(m, RANGE_CACHE) && |l.ranges| == RANGE_OBJECTS && HeadObject(m, RANGE_CACHE) == l.ranges[j]
    ensures SlabOk(m, m.caches[RANGE_CACHE].slabList[0])
    ensures TwoSlabs(PopObject(m, RANGE_CACHE), l, j + 1, 0, 0) && SameRanges(m, PopObject(m, RANGE_CACHE))
  {
    hide TiledTo, MappedUsed, LabelIs, SlabOk, PopObject, LayoutOk;
    PopRange(m, l, j);
  }

  /** And describes one more range. */
  lemma BootCreates(m: Mem, m1: Mem, l: Layout, j: nat, upto: int, freeTop: int, nc: Option<Ptr>, nr: Option<Ptr>,
      isFree: bool, top: int, slab: Option<Ptr>, nc': Option<Ptr>, nr': Option<Ptr>)
    requires Booting(m, l, j, upto, freeTop, nc, nr) && j + 1 < RANGE_OBJECTS == |l.ranges| && upto < top <= TOP_PAGE
    requires isFree || forall p :: upto <= p < top ==> p in m.pages.frameOf
    requires TwoSlabs(m1, l, j + 1, 0, 0) && SameRanges(m, m1)
    requires (isFree ==> slab == None && freeTop < upto) && freeTop <= upto
    requires var e := l.ranges[j];
      if slab == None then nc' == nc && nr' == nr
      else if slab == Some(CacheSlab(l)) then
        nc == None && nc' == Some(e) && nr' == nr && upto == l.page && top == upto + 1
      else
        nr == None && slab == Some(RangeSlab(l)) && nr' == Some(e) && nc' == nc && upto == l.page + 1
        && top == upto + 1
    ensures Booting(Created(m1, l.ranges[j], isFree, upto, top, slab), l, j + 1, top, if isFree then top else freeTop,
      nc', nr')
  {
    hide TwoSlabs, TiledTo, MappedUsed, LabelIs, Booting, Created, End;
    BootingParts(m, l, j, upto, freeTop, nc, nr);
    NewOne(m1, l, j);
    var e := l.ranges[j];
    assert e in m.ranges <==> e in l.ranges[..j];
    CreatedSides(m, m1, l, j, upto, freeTop, isFree, top, slab);
    CreatedRest(m, m1, l, j, upto, freeTop, nc, nr, isFree, top, slab, nc', nr');
    BootingFold(Created(m1, l.ranges[j], isFree, upto, top, slab), l, j + 1, top, if isFree then top else freeTop, nc',
      nr');
  }

  lemma BootingParts(m: Mem, l: Layout, j: nat, upto: int, freeTop: int, nc: Option<Ptr>, nr: Option<Ptr>)
    requires Booting(m, l, j, upto, freeTop, nc, nr)
    ensures TwoSlabs(m, l, j, 0, 0) && TiledTo(m, upto) && MappedUsed(m) && LabelIs(m, l, nc, nr)
    ensures (forall a :: a in m.ranges <==> a in l.ranges[..j])
    ensures (forall r :: r in m.freeList ==> r in m.ranges && End(m.ranges[r]) <= freeTop)
    ensures (forall r :: r in m.usedList ==> r in m.ranges)
    ensures nc.Some? ==>
      nc.value in m.usedList && nc.value in m.ranges && m.ranges[nc.value] == Range(l.page, 1, Some(CacheSlab(l)))
    ensures nr.Some? ==>
      nr.value in m.usedList && nr.value in m.ranges && m.ranges[nr.value] == Range(l.page + 1, 1, Some(RangeSlab(l)))
  {
    TiledPlaces(m, upto);
    ListsInRanges(m);
    hide TwoSlabs, TiledTo, MappedUsed, LabelIs, PlacesOk;
  }

  lemma BootingFold(m: Mem, l: Layout, j: nat, upto: int, freeTop: int, nc: Option<Ptr>, nr: Option<Ptr>)
    requires TwoSlabs(m, l, j, 0, 0) && TiledTo(m, upto) && MappedUsed(m) && LabelIs(m, l, nc, nr)
    requires (forall a :: a in m.ranges <==> a in l.ranges[..j])
    requires (forall r :: r in m.freeList && r in m.ranges ==> End(m.ranges[r]) <= freeTop)
    requires nc.Some? ==>
      nc.value in m.usedList && nc.value in m.ranges && m.ranges[nc.value] == Range(l.page, 1, Some(CacheSlab(l)))
    requires nr.Some? ==>
      nr.value in m.usedList && nr.value in m.ranges && m.ranges[nr.value] == Range(l.page + 1, 1, Some(RangeSlab(l)))
    ensures Booting(m, l, j, upto, freeTop, nc, nr)
  {
    hide TwoSlabs, TiledTo, MappedUsed, LabelIs;
  }

  lemma CreatedSides(m: Mem, m1: Mem, l: Layout, j: nat, upto: int, freeTop: int, isFree: bool, top: int,
      slab: Option<Ptr>)
    requires TiledTo(m, upto) && MappedUsed(m) && SameRanges(m, m1) && TwoSlabs(m1, l, j + 1, 0, 0)
    requires upto < top <= TOP_PAGE
    requires j < |l.ranges| && l.ranges[j] !in m.ranges && (isFree ==> slab == None && freeTop < upto)
    requires forall r :: r in m.freeList ==> r in m.ranges && End(m.ranges[r]) <= freeTop
    requires isFree || forall p :: upto <= p < top ==> p in m.pages.frameOf
    ensures var m2 := Created(m1, l.ranges[j], isFree, upto, top, slab);
      TwoSlabs(m2, l, j + 1, 0, 0) && TiledTo(m2, top) && MappedUsed(m2)
  {
    hide TwoSlabs, TiledTo, MappedUsed, MapAll, PlacesOk;
    var e := l.ranges[j];
    SameTiles(m, m1, upto);
    TiledPlaces(m1, upto);
    CreatedTiles(m1, e, isFree, upto, top, slab);
    CreatedMapped(m1, e, isFree, upto, top, slab);
    SlabsFrame(m1, Created(m1, e, isFree, upto, top, slab), l, j + 1);
  }

  lemma NewOne(m: Mem, l: Layout, j: nat)
    requires TwoSlabs(m, l, j + 1, 0, 0)
    ensures j < |l.ranges| && l.ranges[j] !in l.ranges[..j]
  {
    NextIsNew(l, j);
  }

  lemma ListsInRanges(m: Mem)
    requires PlacesOk(m, NOTHING)
    ensures forall r :: r in m.freeList ==> r in m.ranges
    ensures forall r :: r in m.usedList ==> r in m.ranges
  {}

  lemma TiledPlaces(m: Mem, upto: int)
    requires TiledTo(m, upto)
    ensures PlacesOk(m, NOTHING) && BASE_PAGE <= upto
  {}

  lemma SlabsFrame(m: Mem, m': Mem, l: Layout, j: nat)
    requires TwoSlabs(m, l, j, 0, 0) && m'.slabs == m.slabs && m'.caches == m.caches && m'.home == m.home
    ensures TwoSlabs(m', l, j, 0, 0)
  {}

  /** The labels, the structures in use, and where free ranges end, once one more range exists. */
  lemma CreatedRest(m: Mem, m1: Mem, l: Layout, j: nat, upto: int, freeTop: int, nc: Option<Ptr>, nr: Option<Ptr>,
      isFree: bool, top: int, slab: Option<Ptr>, nc': Option<Ptr>, nr': Option<Ptr>)
    requires j < |l.ranges| && SameRanges(m, m1) && upto < top && l.ranges[j] !in l.ranges[..j] && freeTop <= upto
    requires LabelIs(m, l, nc, nr) && (forall a :: a in m.ranges <==> a in l.ranges[..j])
    requires forall r :: r in m.freeList ==> r in m.ranges && End(m.ranges[r]) <= freeTop
    requires forall r :: r in m.usedList ==> r in m.ranges
    requires nc.Some? ==>
      nc.value in m.usedList && nc.value in m.ranges && m.ranges[nc.value] == Range(l.page, 1, Some(CacheSlab(l)))
    requires nr.Some? ==>
      nr.value in m.usedList && nr.value in m.ranges && m.ranges[nr.value] == Range(l.page + 1, 1, Some(RangeSlab(l)))
    requires var e := l.ranges[j];
      if slab == None then nc' == nc && nr' == nr
      else if slab == Some(CacheSlab(l)) then
        !isFree && nc == None && nc' == Some(e) && nr' == nr && upto == l.page && top == upto + 1
      else
        !isFree && nr == None && slab == Some(RangeSlab(l)) && nr' == Some(e) && nc' == nc && upto == l.page + 1
        && top == upto + 1
    ensures var m2 := Created(m1, l.ranges[j], isFree, upto, top, slab);
      && LabelIs(m2, l, nc', nr') && (forall a :: a in m2.ranges <==> a in l.ranges[..j + 1])
      && (forall r :: r in m2.freeList && r in m2.ranges ==> End(m2.ranges[r]) <= if isFree then top else freeTop)
      && (nc'.Some? ==>
        nc'.value in m2.usedList && nc'.value in m2.ranges
          && m2.ranges[nc'.value] == Range(l.page, 1, Some(CacheSlab(l))))
      && (nr'.Some? ==>
        nr'.value in m2.usedList && nr'.value in m2.ranges
          && m2.ranges[nr'.value] == Range(l.page + 1, 1, Some(RangeSlab(l))))
  {
    hide MapAll;
    var e := l.ranges[j];
    assert l.ranges[..j + 1] == l.ranges[..j] + [e];
  }

  lemma SameTiles(m: Mem, m': Mem, upto: int)
    requires TiledTo(m, upto) && MappedUsed(m)
    requires SameRanges(m, m')
    ensures TiledTo(m', upto) && MappedUsed(m')
  {
    assert SortedUsed(m') by {
      forall i, j | 0 <= i < j < |m'.usedList| ensures UsedOrder(m', m'.usedList[i], m'.usedList[j]) {
        assert UsedOrder(m, m.usedList[i], m.usedList[j]);
      }
    }
    assert SortedFree(m', NOTHING) by {
      forall i, j | 0 <= i < j < |m'.freeList| ensures FreeOrder(m', NOTHING, m'.freeList[i], m'.freeList[j]) {
        assert FreeOrder(m, NOTHING, m.freeList[i], m.freeList[j]);
      }
    }
    forall r | r in m'.ranges && r in m'.usedList ensures AllMapped(m', r) { assert AllMapped(m, r); }
    hide SortedUsed, SortedFree, AllMapped;
  }

  // ---------------------------------------------------------------- the end of the setup

  /** The first two slabs learn which ranges they sit in. */
  function Committed(m: Mem, l: Layout, rc: Ptr, rr: Ptr): Mem
    requires CacheSlab(l) in m.slabs && RangeSlab(l) in m.slabs
  {
    var slabs := m.slabs[CacheSlab(l) := m.slabs[CacheSlab(l)].(range := rc)];
    m.(slabs := slabs[RangeSlab(l) := m.slabs[RangeSlab(l)].(range := rr)])
  }

  lemma CommittedSlabs(m: Mem, l: Layout, j: nat, rc: Ptr, rr: Ptr)
    requires TwoSlabs(m, l, j, 0, 0)
    ensures CacheSlab(l) in m.slabs && RangeSlab(l) in m.slabs && TwoSlabs(Committed(m, l, rc, rr), l, j, rc, rr)
  {
    hide LayoutOk;
  }

  lemma CommittedRanges(m: Mem, m': Mem)
    requires TiledTo(m, TOP_PAGE) && MappedUsed(m) && SameRanges(m, m') && AllOwned(m)
    ensures RangesOk(m', NOTHING) && MappedOk(m')
  {
    SameTiles(m, m', TOP_PAGE);
    FramesDone(m);
    hide SortedUsed, SortedFree, Apart, AllMapped, FramesSoFar, FramesOk;
  }

  /** Every mapped page of the kernel area was given to a range. */
  ghost predicate AllOwned(m: Mem) { forall p :: InArea(p) && p in m.pages.frameOf ==> p in m.mapped }

  lemma FramesDone(m: Mem)
    requires FramesSoFar(m.mapped, m.pages) && AllOwned(m)
    ensures FramesOk(m.mapped, m.pages)
  {}

  lemma CommittedBacked(m: Mem, m': Mem, l: Layout, j: nat, rc: Ptr, rr: Ptr)
    requires PlacesOk(m, NOTHING) && MappedUsed(m) && LabelIs(m, l, Some(rc), Some(rr)) && SameRanges(m, m')
    requires TwoSlabs(m', l, j, rc, rr)
    requires rc in m.usedList && rc in m.ranges && m.ranges[rc] == Range(l.page, 1, Some(CacheSlab(l)))
    requires rr in m.usedList && rr in m.ranges && m.ranges[rr] == Range(l.page + 1, 1, Some(RangeSlab(l)))
    ensures SlabRangesOk(m', NOTHING)
  {
    hide LayoutOk;
    assert AllMapped(m', rc) && AllMapped(m', rr) by { assert AllMapped(m, rc) && AllMapped(m, rr); }
    hide AllMapped;
    forall s | s in m'.slabs ensures Backed(m', NOTHING, s) {}
    forall n | n in m'.ranges ensures LabelOk(m', NOTHING, n) {}
  }

  /** The invariant holds once the kernel area is covered and the slabs know their ranges. */
  lemma BootDone(m: Mem, l: Layout, j: nat, freeTop: int, rc: Ptr, rr: Ptr)
    requires Booting(m, l, j, TOP_PAGE, freeTop, Some(rc), Some(rr)) && j <= RANGE_OBJECTS - 2 && AllOwned(m)
    ensures CacheSlab(l) in m.slabs && RangeSlab(l) in m.slabs
    ensures Inv(Committed(m, l, rc, rr), NOTHING) && Reserve(Committed(m, l, rc, rr)) == RANGE_OBJECTS - j
  {
    hide TwoSlabs, TiledTo, MappedUsed, LabelIs, AllOwned, RangesOk, MappedOk, SlabsOk, HomeOk, SlabRangesOk, LayoutOk,
      AllocatedFrom, IsOffSlab, PlacesOk;
    BootingParts(m, l, j, TOP_PAGE, freeTop, Some(rc), Some(rr));
    hide Booting;
    CommittedSlabs(m, l, j, rc, rr);
    var m' := Committed(m, l, rc, rr);
    TwoSlabsOk(m', l, j, rc, rr);
    TwoSlabsHome(m', l, j, rc, rr);
    TiledPlaces(m, TOP_PAGE);
    CommittedRanges(m, m');
    CommittedBacked(m, m', l, j, rc, rr);
    TwoSlabsReserve(m', l, j, rc, rr);
    TwoSlabsNamed(m', l, j, rc, rr);
    hide Structs, Named;
    assert LinksOk(m', NOTHING);
  }

  /** The objects taken from the first slab of caches are the structures of the three caches. */
  lemma TwoSlabsNamed(m: Mem, l: Layout, j: nat, rc: Ptr, rr: Ptr)
    requires TwoSlabs(m, l, j, rc, rr)
    ensures Named(m.caches) && forall a :: a in Structs(m.caches) <==> a in l.caches[..FIRST_CACHES]
  {
    assert |l.caches| == CACHE_OBJECTS && KmemState.NoDup(l.caches);
    var f := l.caches[..FIRST_CACHES];
    assert f == [l.caches[0], l.caches[1], l.caches[2]];
    hide FullFreeList, IsObject;
    assert m.caches[CACHE_CACHE].at == f[0] && m.caches[RANGE_CACHE].at == f[1] && m.caches[KSLAB_CACHE].at == f[2];
    assert forall c :: c in m.caches <==> c == CACHE_CACHE || c == RANGE_CACHE || c == KSLAB_CACHE;
    forall a | a in f ensures a in Structs(m.caches) {}
  }

  lemma TwoSlabsReserve(m: Mem, l: Layout, j: nat, rc: Ptr, rr: Ptr)
    requires TwoSlabs(m, l, j, rc, rr)
    ensures Reserve(m) == RANGE_OBJECTS - j
  {
    hide LayoutOk;
  }

  // ---------------------------------------------------------------- the code

  /**
   The loop of create_range: the physical pages of [base, top) belong to range `e` now. The source asserts that each of
   these pages is mapped.
   */
  method OwnPages(k: Allocator, e: Ptr, base: int, top: int)
    requires forall p :: base <= p < top ==> p in k.frameOf
    modifies k`rangeOf, k`mapped
    ensures Pages(k.frameOf, k.rangeOf) == OwnAll(old(Pages(k.frameOf, k.rangeOf)), e, base, top)
    ensures k.mapped == MapAll(old(k.mapped), e, base, top)
  {
    var page := base;
    while page < top
      invariant base <= page && (page <= top || page == base)
      invariant Pages(k.frameOf, k.rangeOf) == OwnAll(old(Pages(k.frameOf, k.rangeOf)), e, base, page)
      invariant k.mapped == MapAll(old(k.mapped), e, base, page)
    {
      assert page in k.frameOf;
      k.rangeOf := k.rangeOf[k.frameOf[page] := e];
      k.mapped := k.mapped[page := e];
      page := page + 1;
      MapAllStep(old(k.mapped), e, base, page);
    }
  }

  /** create_range. It makes no range of an empty area. */
  method CreateRange(k: Allocator, isFree: bool, base: int, top: int, slab: Option<Ptr>,
      ghost l: Layout, ghost j: nat, ghost freeTop: int, ghost nc: Option<Ptr>, ghost nr: Option<Ptr>)
    returns (n: Option<Ptr>, ghost nc': Option<Ptr>, ghost nr': Option<Ptr>)
    requires Booting(k.St(), l, j, base, freeTop, nc, nr) && base <= top <= TOP_PAGE && j <= RANGE_OBJECTS - 3
    requires freeTop <= base
    requires isFree ==> slab == None && (freeTop < base || base == top)
    requires slab == Some(CacheSlab(l)) ==> nc == None && base == l.page && top == base + 1
    requires slab.Some? && slab != Some(CacheSlab(l)) ==>
      slab == Some(RangeSlab(l)) && nr == None && base == l.page + 1 && top == base + 1
    requires isFree || forall p :: base <= p < top ==> p in k.frameOf
    requires Told(k.St())
    modifies k
    ensures k.frameOf == old(k.frameOf) && Told(k.St())
    ensures n.None? <==> base == top
    ensures n.Some? ==> j < |l.ranges| && n.value == l.ranges[j]
    ensures nc' == (if slab == Some(CacheSlab(l)) then n else nc)
    ensures nr' == (if slab.Some? && slab != Some(CacheSlab(l)) then n else nr)
    ensures Booting(k.St(), l, if n.Some? then j + 1 else j, top, if n.Some? && isFree then top else freeTop, nc', nr')
    ensures forall p :: p in k.mapped <==> p in old(k.mapped) || (!isFree && base <= p < top)
  {
    hide Booting, SlabOk, HeadNonFull, MapAll, OwnAll, OwnUsed;
    if top - base < 1 { return None, nc, nr; }
    BootPops(k.St(), l, j, base, freeTop, nc, nr);
    ghost var m := k.St();
    var e := k.PopHead(RANGE_CACHE);
    nc', nr' := if slab == Some(CacheSlab(l)) then Some(e)
      else nc, if slab.Some? && slab != Some(CacheSlab(l)) then Some(e) else nr;
    CreatedBoots(m, l, j, base, freeTop, nc, nr, isFree, top, slab, nc', nr');
    BootTold(m, k.St(), l, j, base, freeTop, nc, nr, isFree, top, slab);
    NoGrowth(k.St(), l, j + 1);
    assert k.caches[RANGE_CACHE].nbFree != k.caches[RANGE_CACHE].minFree - 1;
    hide Created;
    Describe(k, e, isFree, base, top, slab);
    n := Some(e);
  }

  /** The part of create_range that fills in the structure. */
  method Describe(k: Allocator, e: Ptr, isFree: bool, base: int, top: int, slab: Option<Ptr>)
    requires isFree || forall p :: base <= p < top ==> p in k.frameOf
    modifies k
    ensures k.St() == Created(old(k.St()), e, isFree, base, top, slab) && k.frameOf == old(k.frameOf)
    ensures k.mapped == if isFree then old(k.mapped) else MapAll(old(k.mapped), e, base, top)
  {
    hide MapAll, OwnAll;
    k.ranges := k.ranges[e := Range(base, top - base, slab)];
    if isFree {
      k.freeList := k.freeList + [e];
    } else {
      k.usedList := k.usedList + [e];
      OwnPages(k, e, base, top);
    }
    k.tile := MapAll(k.tile, e, base, top);
  }

  /** The first slab of ranges has room for all the ranges of the setup, so no call grows the range cache. */
  lemma NoGrowth(m: Mem, l: Layout, j: nat)
    requires TwoSlabs(m, l, j, 0, 0) && j <= RANGE_OBJECTS - 2
    ensures RANGE_CACHE in m.caches && m.caches[RANGE_CACHE].nbFree >= m.caches[RANGE_CACHE].minFree
  {}

  /** The slab of caches after `i` cache structures were taken, while the other caches are `others`. */
  ghost predicate Opening(m: Mem, l: Layout, i: nat) {
    && |l.caches| == CACHE_OBJECTS && i <= FIRST_CACHES
    && FullFreeList(CacheOfCaches(l), l.page * PAGE_SIZE, l.caches)
    && CacheSlab(l) in m.slabs
      && m.slabs[CacheSlab(l)] == Slab(CACHE_OBJECTS - i, l.caches[i..], 0, l.page * PAGE_SIZE, CACHE_CACHE)
    && CACHE_CACHE in m.caches && m.caches[CACHE_CACHE]
      == CacheOfCaches(l).(nbFree := CACHE_OBJECTS - i, at := if i == 0 then 0 else StructAt(l, 0))
    && (forall a :: a in m.home <==> a in l.caches[..i]) && (forall a :: a in m.home ==> m.home[a] == CacheSlab(l))
  }

  /** The cache of caches once its structure is at address `a`. */
  function Filled(m: Mem, a: Ptr): Mem
    requires CACHE_CACHE in m.caches
  {
    m.(caches := m.caches[CACHE_CACHE := m.caches[CACHE_CACHE].(at := a)])
  }

  lemma OpeningPops(m: Mem, l: Layout, i: nat)
    requires Opening(m, l, i) && i < FIRST_CACHES
    ensures HeadNonFull(m, CACHE_CACHE) && SlabOk(m, m.caches[CACHE_CACHE].slabList[0])
    ensures var m' := PopObject(m, CACHE_CACHE);
      && HeadObject(m, CACHE_CACHE) == StructAt(l, i)
      && Opening(Filled(m', StructAt(l, 0)), l, i + 1) && SameRanges(m, m')
      && m'.slabs == m.slabs[CacheSlab(l) := m'.slabs[CacheSlab(l)]]
      && m'.caches == m.caches[CACHE_CACHE := m'.caches[CACHE_CACHE]]
  {
    Halved(l.caches, i);
    assert l.caches[i..][1..] == l.caches[i + 1..] && l.caches[..i + 1] == l.caches[..i] + [l.caches[i]];
    assert l.caches[i] == l.caches[i..][0] && l.caches[i] in l.caches;
    forall a | a in l.caches ensures IsObject(m.caches[CACHE_CACHE], l.page * PAGE_SIZE, a) {}
    hide IsObject;
  }

  /**
   A cache structure is taken from the first slab of caches. The first one is for the cache of caches itself, which was
   on the stack until then.
   */
  method TakeCacheStruct(k: Allocator, ghost l: Layout, i: nat) returns (a: Ptr)
    requires Opening(k.St(), l, i) && i < FIRST_CACHES
    modifies k
    ensures a == StructAt(l, i) && Opening(k.St(), l, i + 1) && SameRanges(old(k.St()), k.St())
    ensures CacheSlab(l) in k.slabs && k.slabs == old(k.slabs)[CacheSlab(l) := k.slabs[CacheSlab(l)]]
    ensures CACHE_CACHE in k.caches && k.caches == old(k.caches)[CACHE_CACHE := k.caches[CACHE_CACHE]]
  {
    OpeningPops(k.St(), l, i);
    hide SlabOk, PopObject, IsObject;
    a := k.PopHead(CACHE_CACHE);
    ghost var m := k.St();
    if i == 0 { k.caches := k.caches[CACHE_CACHE := k.caches[CACHE_CACHE].(at := a)]; }
    assert k.St() == Filled(m, StructAt(l, 0));
  }

  /**
   create_cache_of_caches and create_cache_of_ranges: an initialised cache and its first slab, built by hand at `page`.
   */
  method FirstSlab(k: Allocator, c: CacheId, cache: Cache, page: int) returns (f: seq<Ptr>)
    requires GeometryOk(cache)
    modifies k`slabs, k`caches
    ensures FullFreeList(cache, page * PAGE_SIZE, f)
    ensures k.slabs == old(k.slabs)[HeaderAddress(cache, page * PAGE_SIZE) := Slab(|f|, f, 0, page * PAGE_SIZE, c)]
    ensures k.caches == old(k.caches)[c := cache.(nbFree := |f|, slabList := [HeaderAddress(cache, page * PAGE_SIZE)])]
  {
    f := k.BuildFreeList(cache, page * PAGE_SIZE);
    var s := HeaderAddress(cache, page * PAGE_SIZE);
    k.slabs := k.slabs[s := Slab(|f|, f, 0, page * PAGE_SIZE, c)];
    k.caches := k.caches[c := cache.(nbFree := |f|, slabList := [s])];
  }

  /** The first slab of caches is there. */
  method OpenCaches(k: Allocator, page: int) returns (f: seq<Ptr>)
    modifies k
    ensures k.frameOf == old(k.frameOf) && k.rangeOf == old(k.rangeOf)
    ensures Opening(k.St(), Layout(page, f, []), 0)
    ensures k.St() == Mem(map[], [], [], k.slabs, k.caches, Pages(k.frameOf, k.rangeOf), map[], map[], map[])
    ensures k.slabs.Keys == {CacheSlab(Layout(page, f, []))} && k.caches.Keys == {CACHE_CACHE}
  {
    k.ranges, k.freeList, k.usedList, k.mapped := map[], [], [], map[];
    k.slabs, k.caches := map[], map[];
    k.tile, k.home := map[], map[];
    var r := CacheInitialize(0, CACHE_STRUCT_SIZE, 1, 0, true, true);
    assert r.cache.nbObjects == CACHE_OBJECTS;
    f := FirstSlab(k, CACHE_CACHE, r.cache, page);
    SameObjectsOf(r.cache, CacheOfCaches(Layout(page, f, [])), page * PAGE_SIZE, f);
    hide IsObject, FullFreeList;
  }

  /** The two structures of the other caches are taken, and those caches initialised. */
  method OpenOthers(k: Allocator, page: int, ghost f: seq<Ptr>) returns (g: seq<Ptr>)
    requires Opening(k.St(), Layout(page, f, []), 1)
    requires k.slabs.Keys == {CacheSlab(Layout(page, f, []))} && k.caches.Keys == {CACHE_CACHE}
    modifies k
    ensures Opening(k.St(), Layout(page, f, []), 3) && SameRanges(old(k.St()), k.St())
    ensures var l := Layout(page, f, g);
      && FullFreeList(CacheOfRanges(l, 0), (page + 1) * PAGE_SIZE, g)
      && k.slabs.Keys == {CacheSlab(l), RangeSlab(l)}
        && k.slabs[RangeSlab(l)] == Slab(|g|, g, 0, (page + 1) * PAGE_SIZE, RANGE_CACHE)
      && k.caches.Keys == {CACHE_CACHE, RANGE_CACHE, KSLAB_CACHE}
      && k.caches[RANGE_CACHE] == CacheOfRanges(l, 0) && k.caches[KSLAB_CACHE] == CacheOfSlabs(l)
  {
    var a := TakeCacheStruct(k, Layout(page, f, []), 1);
    ghost var m1 := k.St();
    var r := CacheInitialize(a, RANGE_STRUCT_SIZE, NB_PAGES_IN_SLAB_OF_RANGES, 2, true, true);
    assert r.cache.nbObjects == RANGE_OBJECTS;
    g := FirstSlab(k, RANGE_CACHE, r.cache, page + 1);
    SameObjectsOf(r.cache, CacheOfRanges(Layout(page, f, g), 0), (page + 1) * PAGE_SIZE, g);
    StillOpening(m1, k.St(), Layout(page, f, []), 2);
    hide FullFreeList, IsObject, Opening;
    a := TakeCacheStruct(k, Layout(page, f, []), 2);
    ghost var m2 := k.St();
    r := CacheInitialize(a, SLAB_STRUCT_SIZE, 1, 0, true, false);
    k.caches := k.caches[KSLAB_CACHE := r.cache];
    StillOpening(m2, k.St(), Layout(page, f, []), 3);
  }

  lemma StillOpening(m: Mem, m': Mem, l: Layout, i: nat)
    requires Opening(m, l, i) && m'.home == m.home
    requires CacheSlab(l) in m'.slabs && CacheSlab(l) in m.slabs && m'.slabs[CacheSlab(l)] == m.slabs[CacheSlab(l)]
    requires CACHE_CACHE in m'.caches && CACHE_CACHE in m.caches && m'.caches[CACHE_CACHE] == m.caches[CACHE_CACHE]
    ensures Opening(m', l, i)
  {
    hide FullFreeList;
  }

  /**
   sos_kmem_cache_subsystem_setup_prepare, once the pages of the two slabs are mapped: the three caches the allocator
   itself needs, and the first slabs of two of them.
   */
  method Prepare(k: Allocator, page: int) returns (ghost l: Layout)
    requires k.rangeOf == map[] && OneFrameEach(Pages(k.frameOf, k.rangeOf))
    modifies k
    ensures k.frameOf == old(k.frameOf) && Told(k.St())
    ensures l.page == page && Booting(k.St(), l, 0, BASE_PAGE, BASE_PAGE - 1, None, None) && k.mapped == map[]
  {
    hide FullFreeList, IsObject, Opening, Booting, OneFrameEach;
    var f := OpenCaches(k, page);
    ghost var m0 := k.St();
    var a := TakeCacheStruct(k, Layout(page, f, []), 0);
    ghost var m1 := k.St();
    var g := OpenOthers(k, page, f);
    l := Layout(page, f, g);
    PrepareDone(k.St(), l);
  }

  lemma PrepareDone(m: Mem, l: Layout)
    requires Opening(m, Layout(l.page, l.caches, []), 3)
    requires FullFreeList(CacheOfRanges(l, 0), (l.page + 1) * PAGE_SIZE, l.ranges)
    requires m.slabs.Keys == {CacheSlab(l), RangeSlab(l)}
    requires m.slabs[RangeSlab(l)] == Slab(|l.ranges|, l.ranges, 0, (l.page + 1) * PAGE_SIZE, RANGE_CACHE)
    requires m.caches.Keys == {CACHE_CACHE, RANGE_CACHE, KSLAB_CACHE}
    requires m.caches[RANGE_CACHE] == CacheOfRanges(l, 0) && m.caches[KSLAB_CACHE] == CacheOfSlabs(l)
    requires m.ranges == map[] && m.freeList == [] && m.usedList == [] && m.mapped == map[] && m.tile == map[]
    requires m.pages.rangeOf == map[] && OneFrameEach(m.pages)
    ensures Booting(m, l, 0, BASE_PAGE, BASE_PAGE - 1, None, None)
  {
    SameObjectsOf(CacheOfCaches(Layout(l.page, l.caches, [])), CacheOfCaches(l), l.page * PAGE_SIZE, l.caches);
    assert |l.ranges| == RANGE_OBJECTS;
    hide FullFreeList, IsObject;
    assert l.ranges[0..] == l.ranges && l.ranges[..0] == [];
    assert m.caches
      == map[RANGE_CACHE := CacheOfRanges(l, 0), KSLAB_CACHE := CacheOfSlabs(l), CACHE_CACHE := CacheOfCaches(l)];
    assert TwoSlabs(m, l, 0, 0, 0);
    assert TiledTo(m, BASE_PAGE);
  }

  lemma SameObjectsOf(k: Cache, k': Cache, first: Ptr, f: seq<Ptr>)
    requires k.objSize == k'.objSize && k.nbObjects == k'.nbObjects
    ensures FullFreeList(k, first, f) <==> FullFreeList(k', first, f)
  {
    forall a ensures IsObject(k, first, a) == IsObject(k', first, a) {}
    hide IsObject;
  }

  /** The ranges below the kernel, and those of the kernel around its bootstrap stack. */
  method KernelRanges(k: Allocator, core: int, coreTop: int, stack: int, stackTop: int,
      ghost l: Layout) returns (ghost j: nat, ghost freeTop: int)
    requires 0x100 <= core <= stack <= stackTop <= coreTop <= TOP_PAGE && k.mapped == map[]
    requires forall p :: 0xa0 <= p < 0x100 || core <= p < coreTop ==> p in k.frameOf
    requires Booting(k.St(), l, 0, BASE_PAGE, BASE_PAGE - 1, None, None) && Told(k.St())
    modifies k
    ensures Told(k.St())
    ensures Booting(k.St(), l, j, coreTop, freeTop, None, None) && j <= 6 && freeTop <= coreTop
    ensures k.frameOf == old(k.frameOf)
    ensures forall p :: p in k.mapped <==> 0xa0 <= p < 0x100 || core <= p < coreTop
  {
    hide Booting, Told;
    var n;
    ghost var nc, nr;
    n, nc, nr := CreateRange(k, true, BASE_PAGE, 0xa0, None, l, 0, BASE_PAGE - 1, None, None);
    n, nc, nr := CreateRange(k, false, 0xa0, 0x100, None, l, 1, 0xa0, None, None);
    n, nc, nr := CreateRange(k, true, 0x100, core, None, l, 2, 0xa0, None, None);
    j := if n.Some? then 3 else 2;
    freeTop := if n.Some? then core else 0xa0;
    n, nc, nr := CreateRange(k, false, core, stack, None, l, j, freeTop, None, None);
    j := if n.Some? then j + 1 else j;
    n, nc, nr := CreateRange(k, false, stack, stackTop, None, l, j, freeTop, None, None);
    j := if n.Some? then j + 1 else j;
    n, nc, nr := CreateRange(k, false, stackTop, coreTop, None, l, j, freeTop, None, None);
    j := if n.Some? then j + 1 else j;
  }

  /** sos_kmem_cache_subsystem_setup_commit: the slabs at `s` and `t` learn which ranges they sit in. */
  method Commit(k: Allocator, s: Ptr, t: Ptr, rc: Ptr, rr: Ptr, ghost l: Layout, ghost j: nat, ghost freeTop: int)
    requires Booting(k.St(), l, j, TOP_PAGE, freeTop, Some(rc), Some(rr)) && j <= RANGE_OBJECTS - 2
    requires s == CacheSlab(l) && t == RangeSlab(l) && AllOwned(k.St()) && Told(k.St())
    modifies k`slabs
    ensures Told(k.St()) && UsedMapped(k.St())
    ensures Inv(k.St(), NOTHING) && Reserve(k.St()) == RANGE_OBJECTS - j
    ensures k.caches.Keys == {RANGE_CACHE, KSLAB_CACHE, CACHE_CACHE} && EnoughFree(k.St(), {})
    ensures k.caches[CACHE_CACHE].nbFree == CACHE_OBJECTS - FIRST_CACHES && k.caches[CACHE_CACHE].minFree == 0
  {
    BootDone(k.St(), l, j, freeTop, rc, rr);
    BootCaches(k.St(), l, j, freeTop, rc, rr);
    BootMapped(k.St(), l, j, freeTop, rc, rr);
    hide Booting, Inv, AllOwned, EnoughFree, UserCaches;
    ghost var m := k.St();
    k.slabs := k.slabs[s := k.slabs[s].(range := rc)];
    k.slabs := k.slabs[t := k.slabs[t].(range := rr)];
    assert k.St() == Committed(m, l, rc, rr);
    EnoughSame(m, k.St());
  }

  lemma BootCaches(m: Mem, l: Layout, j: nat, freeTop: int, rc: Ptr, rr: Ptr)
    requires Booting(m, l, j, TOP_PAGE, freeTop, Some(rc), Some(rr))
    ensures m.caches.Keys == {RANGE_CACHE, KSLAB_CACHE, CACHE_CACHE} && CacheSlab(l) != RangeSlab(l)
    ensures m.caches[CACHE_CACHE].nbFree == CACHE_OBJECTS - FIRST_CACHES && m.caches[CACHE_CACHE].minFree == 0
    ensures EnoughFree(m, {})
  {}

  /** Every page of a used range is mapped. */
  ghost predicate UsedMapped(m: Mem) { forall r :: r in m.ranges && r in m.usedList ==> AllMapped(m, r) }

  lemma BootMapped(m: Mem, l: Layout, j: nat, freeTop: int, rc: Ptr, rr: Ptr)
    requires Booting(m, l, j, TOP_PAGE, freeTop, Some(rc), Some(rr))
    ensures UsedMapped(m)
  {
    hide TwoSlabs, TiledTo, LabelIs, FramesSoFar, OwnersOk;
  }

  /**
   sos_kmem_vmm_subsystem_setup, for a kernel core of pages [`core`, `coreTop`) that contains the bootstrap stack, pages
   [`stack`, `stackTop`): the kernel area is tiled, the invariant holds, and pages are mapped exactly where ranges are
   used.
   */
  method Setup(k: Allocator, core: int, coreTop: int, stack: int, stackTop: int)
    requires 0x100 <= core <= stack <= stackTop <= coreTop && coreTop + 2 <= TOP_PAGE
    requires k.rangeOf == map[] && OneFrameEach(Pages(k.frameOf, k.rangeOf))
    requires forall p :: InArea(p) ==> (p in k.frameOf <==> 0xa0 <= p < 0x100 || core <= p < coreTop + 2)
    modifies k
    ensures k.frameOf == old(k.frameOf) && Told(k.St()) && UsedMapped(k.St())
    ensures Inv(k.St(), NOTHING) && 2 <= Reserve(k.St())
    ensures k.caches.Keys == {RANGE_CACHE, KSLAB_CACHE, CACHE_CACHE} && EnoughFree(k.St(), {})
    ensures k.caches[CACHE_CACHE].nbFree == CACHE_OBJECTS - FIRST_CACHES && k.caches[CACHE_CACHE].minFree == 0
    ensures forall p :: p in k.mapped <==> 0xa0 <= p < 0x100 || core <= p < coreTop + 2
  {
    hide Booting, Inv, Told, UsedMapped, EnoughFree, OneFrameEach;
    ghost var l := Prepare(k, coreTop);
    ghost var j, freeTop := KernelRanges(k, core, coreTop, stack, stackTop, l);
    var s, t := (coreTop + 1) * PAGE_SIZE - SLAB_STRUCT_SIZE, (coreTop + 2) * PAGE_SIZE - SLAB_STRUCT_SIZE;
    ghost var nc, nr;
    var rc, rr, n;
    rc, nc, nr := CreateRange(k, false, coreTop, coreTop + 1, Some(s), l, j, freeTop, None, None);
    rr, nc, nr := CreateRange(k, false, coreTop + 1, coreTop + 2, Some(t), l, j + 1, freeTop, nc, nr);
    n, nc, nr := CreateRange(k, true, coreTop + 2, TOP_PAGE, None, l, j + 2, freeTop, nc, nr);
    Commit(k, s, t, rc.value, rr.value, l, if n.Some? then j + 3 else j + 2, if n.Some? then TOP_PAGE else freeTop);
  }
}
