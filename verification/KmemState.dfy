/**
 State of the kernel memory allocator: the slab caches (os/kmem_slab.c) and the kernel
 virtual ranges (os/kmem_vmm.c), which allocate from each other.

 A `Mem` value is a snapshot of that state. The class `Kmem.Allocator` holds the same fields
 and changes them in place; the invariants, and what each primitive update does to them, are
 stated here on snapshots.

 Structures live at kernel virtual addresses, so a `Ptr` is a number. The domain of
 `ranges` is the set of addresses that currently hold a valid `struct sos_kmem_range`, the domain
 of `slabs` the addresses that hold a valid `struct sos_kslab`: reading a structure that was
 given back to its cache is a verification error.
 */
module KmemState {

  type Ptr = int
  type CacheId = nat
  type Frame = nat

  datatype Option<+T> = None | Some(value: T)

  const PAGE_SIZE := 4096
  /** SOS_KMEM_VMM_BASE and SOS_KMEM_VMM_TOP, in pages. */
  const BASE_PAGE := 0x4000 / 4096
  const TOP_PAGE := (0x40000000 - 0x400000) / 4096
  /** sizeof(struct sos_kslab), sizeof(struct sos_kslab_free_object), sizeof(struct sos_kmem_range). */
  const SLAB_STRUCT_SIZE := 28
  const FREE_OBJECT_SIZE := 8
  const RANGE_STRUCT_SIZE := 20
  const MAX_PAGES_PER_SLAB := 32
  const NB_PAGES_IN_SLAB_OF_RANGES := 1
  /** How many range structures fit in a slab of ranges. */
  const RANGE_OBJECTS := 203

  /** The cache of struct sos_kmem_range, and the cache of off-slab struct sos_kslab. */
  const RANGE_CACHE: CacheId := 0
  const KSLAB_CACHE: CacheId := 1
  /** The cache of struct sos_kslab_cache; every cache with a higher number was made by sos_kmem_cache_create. */
  const CACHE_CACHE: CacheId := 2

  /** Rank of a cache in the alloc / grow / new_range recursion. */
  function Rank(c: CacheId): nat {
    if c == RANGE_CACHE then 0 else if c == KSLAB_CACHE then 1 else 2
  }

  /** struct sos_kmem_range; base and size are counted in pages. */
  datatype Range = Range(base: int, npages: int, slab: Option<Ptr>)

  /** struct sos_kslab. */
  datatype Slab = Slab(nbFree: int, free: seq<Ptr>, range: Ptr, first: Ptr, cache: CacheId)

  /** struct sos_kslab_cache, which lies at address `at`. */
  datatype Cache = Cache(
    at: Ptr, originalSize: int, objSize: int, nbObjects: int, nbPages: int, minFree: int,
    createMap: bool, onSlab: bool,
    nbFree: int, slabList: seq<Ptr>)

  /**
   What hwcore/paging.c and os/physmem.c know: `frameOf` is the physical page the MMU finds behind each virtual page of
   the whole address space, `rangeOf` the range recorded on each physical page (field kernel_range of its descriptor).
   */
  datatype Pages = Pages(frameOf: map<int, Frame>, rangeOf: map<Frame, Ptr>)

  /**
   `mapped`, `tile` and `home` are bookkeeping for the proofs: the range each mapped kernel page belongs to, the range
   that covers each kernel page, and the slab each allocated object belongs to.
   */
  datatype Mem = Mem(
    ranges: map<Ptr, Range>, freeList: seq<Ptr>, usedList: seq<Ptr>,
    slabs: map<Ptr, Slab>, caches: map<CacheId, Cache>,
    pages: Pages, mapped: map<int, Ptr>,
    tile: map<int, Ptr>, home: map<Ptr, Ptr>)

  /**
   What is in flight inside a running allocator call.
   `heldRanges`, `heldSlabs` and `heldCaches`: objects of the range cache / slab cache / cache of caches that are
   allocated but hold no valid structure (not yet filled in, or already unlinked).
   `pending`: ranges off both lists, waiting to be freed.
   `dangling`: used ranges whose slab link still names a released slab.
   `touchPrev`, `touchNext`: free ranges that may still be contiguous with their neighbour.
   `kept`: callers' ranges, with the pages that are mapped and must stay so; their other pages must stay unmapped.
   */
  datatype Flight = Flight(
    heldRanges: set<Ptr>, heldSlabs: set<Ptr>, heldCaches: set<Ptr>, pending: set<Ptr>, dangling: set<Ptr>,
    touchPrev: set<Ptr>, touchNext: set<Ptr>, kept: map<Ptr, set<int>>)

  const NOTHING: Flight := Flight({}, {}, {}, {}, {}, {}, {}, map[])

  function End(r: Range): int { r.base + r.npages }
  predicate Covers(r: Range, p: int) { r.base <= p < End(r) }
  function PageOf(a: Ptr): int { a / PAGE_SIZE }

  predicate NoDup<T(==)>(s: seq<T>) { forall i, j :: 0 <= i < j < |s| ==> s[i] != s[j] }

  /** The test free_object makes to recognise the start of an object of the slab. */
  predicate IsObject(k: Cache, first: Ptr, a: Ptr) {
    k.objSize > 0 && first <= a && (a - first) % k.objSize == 0 && (a - first) / k.objSize < k.nbObjects
  }

  /** Room taken by the slab structure inside the slab. */
  function Header(k: Cache): int { if k.onSlab then SLAB_STRUCT_SIZE else 0 }

  /** Where an on-slab slab structure lies. */
  function HeaderAddress(k: Cache, first: Ptr): Ptr { first + k.nbPages * PAGE_SIZE - SLAB_STRUCT_SIZE }

  /** What cache_initialize guarantees of the caches it accepts. */
  predicate GeometryOk(k: Cache) {
    && FREE_OBJECT_SIZE <= k.objSize && k.originalSize <= k.objSize
    && 1 <= k.nbObjects && 1 <= k.nbPages <= MAX_PAGES_PER_SLAB
    && 0 <= k.minFree <= k.nbObjects
    && k.nbObjects * k.objSize + Header(k) <= k.nbPages * PAGE_SIZE
  }

  // ---------------------------------------------------------------- invariants

  /**
   The ranges tile the kernel area: every page between BASE and TOP is covered, no two ranges overlap,
   both lists are sorted, and two free ranges are never contiguous unless `x` says so.
   */
  ghost predicate RangesOk(m: Mem, x: Flight) {
    BoundsOk(m) && PlacesOk(m, x) && Apart(m) && TileOk(m) && SortedUsed(m) && SortedFree(m, x)
  }

  ghost predicate BoundsOk(m: Mem) {
    forall r :: r in m.ranges ==>
      BASE_PAGE <= m.ranges[r].base && 0 <= m.ranges[r].npages && End(m.ranges[r]) <= TOP_PAGE
  }

  /** Every range is free, used or pending, in exactly one way; only a free one may be empty. */
  ghost predicate PlacesOk(m: Mem, x: Flight) {
    && (forall r :: r in m.ranges <==> r in m.freeList || r in m.usedList || r in x.pending)
    && (forall r :: r in m.freeList ==> r !in m.usedList && r !in x.pending)
    && (forall r :: r in m.usedList ==> r !in x.pending && 1 <= m.ranges[r].npages)
    && (forall r :: r in x.pending ==> 1 <= m.ranges[r].npages && m.ranges[r].slab.None?)
  }

  predicate Disjoint(r: Range, q: Range) { End(r) <= q.base || End(q) <= r.base }

  ghost predicate Apart(m: Mem) {
    forall r, q :: r in m.ranges && q in m.ranges && r != q ==> Disjoint(m.ranges[r], m.ranges[q])
  }

  ghost predicate TileOk(m: Mem) {
    forall p :: BASE_PAGE <= p < TOP_PAGE ==> p in m.tile && m.tile[p] in m.ranges && Covers(m.ranges[m.tile[p]], p)
  }

  ghost predicate UsedOrder(m: Mem, r: Ptr, q: Ptr) {
    r in m.ranges && q in m.ranges ==> m.ranges[r].base < m.ranges[q].base
  }

  ghost predicate SortedUsed(m: Mem)
  {
    forall i, j :: 0 <= i < j < |m.usedList| ==> UsedOrder(m, m.usedList[i], m.usedList[j])
  }

  /** Free range `r` comes before free range `q`; they are contiguous only if `x` says they may be. */
  ghost predicate FreeOrder(m: Mem, x: Flight, r: Ptr, q: Ptr) {
    r in m.ranges && q in m.ranges ==>
      && r != q
      && End(m.ranges[r]) <= m.ranges[q].base
      && (End(m.ranges[r]) == m.ranges[q].base ==> q in x.touchPrev || r in x.touchNext)
  }

  ghost predicate SortedFree(m: Mem, x: Flight)
  {
    forall i, j :: 0 <= i < j < |m.freeList| ==> FreeOrder(m, x, m.freeList[i], m.freeList[j])
  }

  /** The kernel area. */
  predicate InArea(p: int) { BASE_PAGE <= p < TOP_PAGE }

  /** The physical page behind page `p` names range `r`. */
  predicate Names(g: Pages, p: int, r: Ptr) {
    p in g.frameOf && g.frameOf[p] in g.rangeOf && g.rangeOf[g.frameOf[p]] == r
  }

  /** Something is mapped at page `p`, and it has no owner: the page of a table in the mirror, or one of other code. */
  predicate Unowned(g: Pages, p: int) { p in g.frameOf && g.frameOf[p] !in g.rangeOf }

  /**
   The physical pages behind the mapped kernel pages are distinct and name their ranges; whatever else is mapped lies
   outside the kernel area and has no owner.
   */
  ghost predicate FramesOk(mapped: map<int, Ptr>, g: Pages) {
    && (forall p :: p in mapped ==> InArea(p) && Names(g, p, mapped[p]))
    && (forall p :: p in g.frameOf && p !in mapped ==> !InArea(p) && Unowned(g, p))
    && (forall p, q :: p in mapped && q in mapped && p in g.frameOf && q in g.frameOf && p != q ==>
          g.frameOf[p] != g.frameOf[q])
  }

  /** A mapped page belongs to a range that is not free. */
  ghost predicate OwnersOk(m: Mem) {
    forall p :: p in m.mapped ==>
      m.mapped[p] in m.ranges && m.mapped[p] !in m.freeList && Covers(m.ranges[m.mapped[p]], p)
  }

  /** Mapped pages belong to ranges that are not free, and their physical pages name those ranges. */
  ghost predicate MappedOk(m: Mem) { OwnersOk(m) && FramesOk(m.mapped, m.pages) }

  /** Sum of the nb_free fields of a list of slabs. */
  function SumFree(l: seq<Ptr>, slabs: map<Ptr, Slab>): int {
    if l == [] then 0 else (if l[0] in slabs then slabs[l[0]].nbFree else 0) + SumFree(l[1..], slabs)
  }

  /** The slab list is the non-full slabs followed by the full ones. */
  ghost predicate FullLast(l: seq<Ptr>, slabs: map<Ptr, Slab>) {
    forall i, j :: 0 <= i < j < |l| && l[i] in slabs && l[j] in slabs && slabs[l[i]].free == [] ==>
      slabs[l[j]].free == []
  }

  ghost predicate CacheOk(m: Mem, c: CacheId)
    requires c in m.caches
  {
    var k := m.caches[c];
    && GeometryOk(k)
    && NoDup(k.slabList)
    && (forall s :: s in k.slabList ==> s in m.slabs && m.slabs[s].cache == c)
    && FullLast(k.slabList, m.slabs)
    && k.nbFree == SumFree(k.slabList, m.slabs)
    && (k.slabList != [] ==> k.createMap)
  }

  ghost predicate SlabOk(m: Mem, s: Ptr)
    requires s in m.slabs
  {
    var b := m.slabs[s];
    && b.cache in m.caches && s in m.caches[b.cache].slabList
    && b.nbFree == |b.free| && NoDup(b.free)
    && (forall a :: a in b.free ==> IsObject(m.caches[b.cache], b.first, a))
    && (m.caches[b.cache].onSlab ==> s == HeaderAddress(m.caches[b.cache], b.first))
  }

  /** The slabs and their caches, and the objects allocated from them. */
  ghost predicate SlabsOk(m: Mem) {
    && RANGE_CACHE in m.caches && KSLAB_CACHE in m.caches
    && CACHE_CACHE in m.caches && m.caches[CACHE_CACHE].createMap
    && m.caches[RANGE_CACHE].minFree == 2 && m.caches[RANGE_CACHE].onSlab && m.caches[RANGE_CACHE].createMap
    && m.caches[RANGE_CACHE].nbPages == NB_PAGES_IN_SLAB_OF_RANGES && m.caches[RANGE_CACHE].nbObjects == RANGE_OBJECTS
    && m.caches[KSLAB_CACHE].onSlab && m.caches[KSLAB_CACHE].createMap && m.caches[KSLAB_CACHE].minFree == 0
    && (forall c :: c in m.caches ==> CacheOk(m, c))
    && (forall s :: s in m.slabs ==> SlabOk(m, s))
  }

  ghost predicate Allocated(m: Mem, s: Ptr, a: Ptr) {
    s in m.slabs && m.slabs[s].cache in m.caches
    && IsObject(m.caches[m.slabs[s].cache], m.slabs[s].first, a) && a !in m.slabs[s].free
  }

  ghost predicate HomeOk(m: Mem) {
    && (forall a :: a in m.home ==> Allocated(m, m.home[a], a))
    && (forall s, a :: Allocated(m, s, a) ==> a in m.home && m.home[a] == s)
  }

  /** Slab `s` sits in a used range that names it back; its pages are mapped if its cache asks for it. */
  ghost predicate Backed(m: Mem, x: Flight, s: Ptr)
    requires s in m.slabs
  {
    var n := m.slabs[s].range;
    && m.slabs[s].cache in m.caches
    && n in m.ranges && n !in m.freeList && n !in x.pending && n !in x.dangling
    && m.ranges[n].slab == Some(s)
    && m.ranges[n].npages == m.caches[m.slabs[s].cache].nbPages
    && m.slabs[s].first == m.ranges[n].base * PAGE_SIZE
    && (m.caches[m.slabs[s].cache].createMap ==> AllMapped(m, n))
  }

  ghost predicate AllMapped(m: Mem, n: Ptr)
    requires n in m.ranges
  {
    forall p :: Covers(m.ranges[n], p) ==> p in m.mapped
  }

  /** The slab link of range `n` names the slab built on it, or is known to be stale. */
  ghost predicate LabelOk(m: Mem, x: Flight, n: Ptr)
    requires n in m.ranges
  {
    && (n !in x.dangling && m.ranges[n].slab.Some? ==>
          m.ranges[n].slab.value in m.slabs && m.slabs[m.ranges[n].slab.value].range == n)
    && (n in x.dangling ==> n !in m.freeList && n !in x.pending && m.ranges[n].slab.Some?)
  }

  /** Of the pages of range `n` exactly those of `pages` are mapped. */
  ghost predicate Shows(m: Mem, n: Ptr, pages: set<int>)
    requires n in m.ranges
  {
    forall p :: Covers(m.ranges[n], p) ==> (p in m.mapped <==> p in pages)
  }

  /** No page of range `n` is mapped. */
  ghost predicate Bare(m: Mem, n: Ptr)
    requires n in m.ranges
  {
    forall p :: Covers(m.ranges[n], p) ==> p !in m.mapped
  }

  ghost predicate SlabRangesOk(m: Mem, x: Flight) {
    && (forall s :: s in m.slabs ==> Backed(m, x, s))
    && (forall n :: n in m.ranges ==> LabelOk(m, x, n))
    && (forall n :: n in x.dangling ==> n in m.ranges)
    && KeptOk(m, x)
  }

  ghost predicate KeptOk(m: Mem, x: Flight) {
    forall n :: n in x.kept ==>
      n in m.ranges && m.ranges[n].slab.None? && n !in m.freeList && n !in x.pending && Shows(m, n, x.kept[n])
  }

  /** Object `a` is allocated from cache `c`. */
  predicate AllocatedFrom(m: Mem, c: CacheId, a: Ptr) {
    a in m.home && m.home[a] in m.slabs && m.slabs[m.home[a]].cache == c
  }

  predicate IsOffSlab(m: Mem, s: Ptr) {
    s in m.slabs && m.slabs[s].cache in m.caches && !m.caches[m.slabs[s].cache].onSlab
  }

  /** The addresses of the structures of the caches. */
  function Structs(caches: map<CacheId, Cache>): set<Ptr> { set c | c in caches :: caches[c].at }

  /** Every cache has a structure of its own; one that sos_kmem_cache_create made is named by its address. */
  ghost predicate Named(caches: map<CacheId, Cache>) {
    && CACHE_CACHE in caches
    && (forall c, d :: c in caches && d in caches && caches[c].at == caches[d].at ==> c == d)
    && (forall c :: c in caches && c > CACHE_CACHE ==> caches[c].at == c)
  }

  /**
   The allocated objects of the range cache are the range descriptors; likewise for off-slab slab structures, and for
   the structures of the caches themselves.
   */
  ghost predicate LinksOk(m: Mem, x: Flight) {
    && (forall a :: AllocatedFrom(m, RANGE_CACHE, a) <==> a in m.ranges || a in x.heldRanges)
    && (forall a :: a in x.heldRanges ==> a !in m.ranges)
    && (forall a :: AllocatedFrom(m, KSLAB_CACHE, a) <==> IsOffSlab(m, a) || a in x.heldSlabs)
    && (forall a :: a in x.heldSlabs ==> !IsOffSlab(m, a))
    && CacheLinks(m, x)
  }

  ghost predicate CacheLinks(m: Mem, x: Flight) {
    && (forall a :: AllocatedFrom(m, CACHE_CACHE, a) <==> a in Structs(m.caches) || a in x.heldCaches)
    && (forall a :: a in x.heldCaches ==> a !in Structs(m.caches))
    && Named(m.caches)
  }

  ghost predicate Inv(m: Mem, x: Flight) {
    && RangesOk(m, x) && MappedOk(m) && SlabsOk(m) && HomeOk(m) && SlabRangesOk(m, x) && LinksOk(m, x)
  }

  // ---------------------------------------------------------------- what a caller sees

  /** Used ranges that do not back a slab: the ranges callers hold. */
  function UserRanges(m: Mem): map<Ptr, Range> {
    map n | n in m.ranges && n in m.usedList && m.ranges[n].slab.None? :: m.ranges[n]
  }

  /** Allocated objects of every cache but the three that hold the allocator's own structures, with their cache. */
  function UserObjects(m: Mem): map<Ptr, CacheId> {
    map a | a in m.home && m.home[a] in m.slabs && m.slabs[m.home[a]].cache > CACHE_CACHE :: m.slabs[m.home[a]].cache
  }

  /** All caches but the two that the allocator draws on during calls: a call changes at most one of these. */
  function UserCaches(caches: map<CacheId, Cache>): map<CacheId, Cache> { map c | c in caches && c >= 2 :: caches[c] }

  /** Number of range descriptors left in reserve. */
  function Reserve(m: Mem): int {
    if RANGE_CACHE in m.caches then m.caches[RANGE_CACHE].nbFree else 0
  }
}
