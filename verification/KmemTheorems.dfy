/**
 What the allocator's invariant means, in terms of pages and bytes.
 Every method of `Kmem.Allocator` keeps the invariant, so these hold between any two calls.
 */
module KmemTheorems {
  import opened KmemState
  import opened KmemGeometry
  import opened KmemPages
  import opened KmemSlabSteps
  import opened KmemRangeSteps
  import opened KmemFreeSteps
  import opened KmemFacts

  /** Range `r` covers page `p`. */
  ghost predicate Owns(m: Mem, r: Ptr, p: int) { r in m.ranges && Covers(m.ranges[r], p) }

  /** The free and used ranges tile the kernel area: every page is in exactly one range, on exactly one list. */
  lemma Tiling(m: Mem, p: int)
    requires Inv(m, NOTHING) && BASE_PAGE <= p < TOP_PAGE
    ensures exists r :: Owns(m, r, p) && (r in m.freeList <==> r !in m.usedList) && forall q :: Owns(m, q, p) ==> q == r
  {
    hide MappedOk, SlabsOk, HomeOk, SlabRangesOk, LinksOk;
    var r := m.tile[p];
    RangesUnfold(m, NOTHING);
    hide RangesOk, BoundsOk, Apart, SortedUsed, SortedFree;
    OnlyRange(m, NOTHING, r, p);
    assert Owns(m, r, p);
  }

  /** No range reaches outside the kernel area, and none overlaps another. */
  lemma RangesApart(m: Mem, r: Ptr, q: Ptr)
    requires Inv(m, NOTHING) && r in m.ranges && q in m.ranges
    ensures BASE_PAGE <= m.ranges[r].base && End(m.ranges[r]) <= TOP_PAGE
    ensures r != q ==> Disjoint(m.ranges[r], m.ranges[q])
  {
    hide MappedOk, SlabsOk, HomeOk, SlabRangesOk, LinksOk;
    RangesUnfold(m, NOTHING);
    hide RangesOk, PlacesOk, TileOk, SortedUsed, SortedFree;
  }

  /** Two free ranges are never contiguous, and the lists are sorted by address. */
  lemma FreeRangesMaximal(m: Mem, i: nat, j: nat)
    requires Inv(m, NOTHING) && i < j
    ensures j < |m.freeList| ==> m.freeList[i] in m.ranges && m.freeList[j] in m.ranges
                                 && End(m.ranges[m.freeList[i]]) < m.ranges[m.freeList[j]].base
    ensures j < |m.usedList| ==> m.usedList[i] in m.ranges && m.usedList[j] in m.ranges
                                 && End(m.ranges[m.usedList[i]]) <= m.ranges[m.usedList[j]].base
  {
    hide MappedOk, SlabsOk, HomeOk, SlabRangesOk, LinksOk;
    FreeFacts(m, NOTHING);
    UsedFacts(m, NOTHING);
    RangesUnfold(m, NOTHING);
    ListsDistinct(m, NOTHING);
    hide RangesOk, TileOk, SortedFree;
    if j < |m.freeList| { hide Apart; SortedUse(m, NOTHING, i, j); }
    if j < |m.usedList| {
      ApartUse(m, m.usedList[i], m.usedList[j]);
      assert UsedOrder(m, m.usedList[i], m.usedList[j]);
      assert m.usedList[i] in m.usedList && m.usedList[j] in m.usedList;
    }
  }

  /**
   Where a page of the kernel area is mapped, its physical page names a range, and that is the range the scan of the
   used list finds; pages of free ranges are never mapped.
   */
  lemma FastLookupIsScan(m: Mem, p: int, k: nat)
    requires Inv(m, NOTHING) && p in m.pages.frameOf && InArea(p) && IsPosition(m, m.usedList, k, p)
    ensures m.pages.frameOf[p] in m.pages.rangeOf
    ensures var r := m.pages.rangeOf[m.pages.frameOf[p]];
      && r in m.usedList && Owns(m, r, p) && 0 < k && m.usedList[k - 1] == r
      && forall q :: q in m.freeList ==> !Owns(m, q, p)
  {
    hide SlabsOk, HomeOk, SlabRangesOk, LinksOk;
    AreaOwned(m, NOTHING, p);
    OwnerFacts(m, p);
    var r := m.mapped[p];
    RangesUnfold(m, NOTHING);
    OnlyRange(m, NOTHING, r, p);
    UsedFacts(m, NOTHING);
    UsedEnds(m);
    hide RangesOk, BoundsOk, TileOk, SortedFree, Apart, MappedOk;
    assert r in m.usedList;
    var i :| 0 <= i < |m.usedList| && m.usedList[i] == r;
  }

  /** In the kernel area no physical page is behind two pages, so that recording an owner concerns one page only. */
  lemma OneFramePerPage(m: Mem, x: Flight, p: int, q: int)
    requires Inv(m, x) && p in m.pages.frameOf && q in m.pages.frameOf && p != q && InArea(p)
    ensures m.pages.frameOf[p] != m.pages.frameOf[q]
  {
    AreaOwned(m, x, p);
    AreaOwned(m, x, q);
    hide RangesOk, OwnersOk, SlabsOk, HomeOk, SlabRangesOk, LinksOk;
  }

  /**
   Other code may map a page where nothing is mapped if and only if it does so outside the kernel area, and the physical
   page has no owner. In the kernel area, as demand paging does, the next lookup of that page would halt.
   */
  lemma ForeignExactly(m: Mem, x: Flight, p: int, f: Frame)
    requires Inv(m, x) && p !in m.pages.frameOf
    ensures Inv(m.(pages := m.pages.(frameOf := m.pages.frameOf[p := f])), x) <==> !InArea(p) && f !in m.pages.rangeOf
  {
    var m' := m.(pages := m.pages.(frameOf := m.pages.frameOf[p := f]));
    hide RangesOk, OwnersOk, SlabsOk, HomeOk, SlabRangesOk, LinksOk;
    NothingThere(m.mapped, m.pages, p);
    assert p in m'.pages.frameOf && p !in m'.mapped;
    if !InArea(p) && f !in m.pages.rangeOf {
      ForeignFrames(m.mapped, m.pages, p, f);
      hide FramesOk, UserRanges, UserObjects;
      assert OwnersOk(m') by { OwnersFrame(m, m'); }
      PagesKeeps(m, m', x);
    }
  }

  lemma NothingThere(mapped: map<int, Ptr>, g: Pages, p: int)
    requires FramesOk(mapped, g) && p !in g.frameOf
    ensures p !in mapped
  {}

  lemma OwnersFrame(m: Mem, m': Mem)
    requires OwnersOk(m) && m'.mapped == m.mapped && m'.ranges == m.ranges && m'.freeList == m.freeList
    ensures OwnersOk(m')
  {}

  lemma ForeignFrames(mapped: map<int, Ptr>, g: Pages, p: int, f: Frame)
    requires FramesOk(mapped, g) && p !in mapped && p !in g.frameOf && !InArea(p) && f !in g.rangeOf
    ensures FramesOk(mapped, g.(frameOf := g.frameOf[p := f]))
  {
    var g' := g.(frameOf := g.frameOf[p := f]);
    forall q | q in mapped ensures InArea(q) && Names(g', q, mapped[q]) { assert Names(g, q, mapped[q]); }
    forall q | q in g'.frameOf && q !in mapped
      ensures !InArea(q) && Unowned(g', q)
    {
      if q != p { assert Unowned(g, q); }
    }
  }

  lemma UsedEnds(m: Mem)
    requires Inv(m, NOTHING)
    ensures forall i, j :: 0 <= i < j < |m.usedList| && m.usedList[i] in m.ranges && m.usedList[j] in m.ranges ==>
              End(m.ranges[m.usedList[i]]) <= m.ranges[m.usedList[j]].base
  {
    hide Inv;
    forall i, j | 0 <= i < j < |m.usedList| && m.usedList[i] in m.ranges && m.usedList[j] in m.ranges
      ensures End(m.ranges[m.usedList[i]]) <= m.ranges[m.usedList[j]].base
    {
      FreeRangesMaximal(m, i, j);
    }
  }

  /** Bytes [a, a + n) and [b, b + k) do not meet. */
  predicate BytesApart(a: int, n: int, b: int, k: int) { a + n <= b || b + k <= a }

  /** Size of the block behind an allocated object. */
  function BlockSize(m: Mem, a: Ptr): int
    requires a in m.home && m.home[a] in m.slabs && m.slabs[m.home[a]].cache in m.caches
  {
    m.caches[m.slabs[m.home[a]].cache].objSize
  }

  lemma ObjectPlace(m: Mem, a: Ptr)
    requires Inv(m, NOTHING) && a in m.home
    ensures m.home[a] in m.slabs && m.slabs[m.home[a]].cache in m.caches && m.slabs[m.home[a]].range in m.ranges
    ensures var r, k := m.ranges[m.slabs[m.home[a]].range], m.caches[m.slabs[m.home[a]].cache];
      && r.base * PAGE_SIZE <= a && a + k.objSize <= End(r) * PAGE_SIZE - Header(k)
      && m.slabs[m.home[a]].first == r.base * PAGE_SIZE && 0 < k.objSize
      && IsObject(k, m.slabs[m.home[a]].first, a)
      && r.slab == Some(m.home[a])
      && (k.onSlab ==> m.home[a] == End(r) * PAGE_SIZE - SLAB_STRUCT_SIZE)
  {
    HomeRange(m, NOTHING, a);
    hide RangesOk, MappedOk, HomeOk, LinksOk, IsObject;
    var s := m.home[a];
    assert Backed(m, NOTHING, s) && CacheOk(m, m.slabs[s].cache) && SlabOk(m, s);
    hide Inv, SlabsOk, SlabRangesOk;
    ObjectFits(m.caches[m.slabs[s].cache], m.slabs[s].first, a);
  }

  /** Allocated objects never overlap, whatever their caches. */
  lemma LiveObjectsApart(m: Mem, a: Ptr, b: Ptr)
    requires Inv(m, NOTHING) && a in m.home && b in m.home && a != b
    ensures m.home[a] in m.slabs && m.slabs[m.home[a]].cache in m.caches
    ensures m.home[b] in m.slabs && m.slabs[m.home[b]].cache in m.caches
    ensures BytesApart(a, BlockSize(m, a), b, BlockSize(m, b))
  {
    ObjectPlace(m, a);
    ObjectPlace(m, b);
    hide IsObject, Inv;
    var s, t := m.home[a], m.home[b];
    if s == t {
      var k := m.caches[m.slabs[s].cache];
      if a < b { ObjectsApart(k, m.slabs[s].first, a, b); } else { ObjectsApart(k, m.slabs[s].first, b, a); }
    } else {
      RangesApart(m, m.slabs[s].range, m.slabs[t].range);
    }
  }

  /** Where a slab structure stored on its slab lies. */
  lemma StructurePlace(m: Mem, s: Ptr)
    requires Inv(m, NOTHING) && s in m.slabs && m.slabs[s].cache in m.caches && m.caches[m.slabs[s].cache].onSlab
    ensures var n := m.slabs[s].range;
      && n in m.ranges && m.ranges[n].slab == Some(s) && 1 <= m.ranges[n].npages
      && s == End(m.ranges[n]) * PAGE_SIZE - SLAB_STRUCT_SIZE
  {
    hide RangesOk, MappedOk, HomeOk, LinksOk, IsObject, AllMapped;
    assert Backed(m, NOTHING, s) && SlabOk(m, s);
    hide SlabsOk, SlabRangesOk;
    SlabNonEmpty(m, m.slabs[s].range);
  }

  /** No allocated object overlaps the slab structure stored in its own or in another slab. */
  lemma ObjectsAndStructuresApart(m: Mem, a: Ptr, s: Ptr)
    requires Inv(m, NOTHING) && a in m.home && s in m.slabs && m.slabs[s].cache in m.caches
    requires m.caches[m.slabs[s].cache].onSlab
    ensures m.home[a] in m.slabs && m.slabs[m.home[a]].cache in m.caches
    ensures BytesApart(a, BlockSize(m, a), s, SLAB_STRUCT_SIZE)
  {
    ObjectPlace(m, a);
    StructurePlace(m, s);
    hide IsObject, Inv;
    var t := m.home[a];
    if s != t {
      var r, q := m.slabs[t].range, m.slabs[s].range;
      RangesApart(m, r, q);
      SpansApart(m.ranges[r], m.ranges[q], a, BlockSize(m, a), s, SLAB_STRUCT_SIZE);
    }
  }

  /** Bytes of disjoint ranges do not meet. */
  lemma SpansApart(r: Range, q: Range, a: int, n: int, b: int, k: int)
    requires r.base * PAGE_SIZE <= a && a + n <= End(r) * PAGE_SIZE && 0 <= n
    requires q.base * PAGE_SIZE <= b && b + k <= End(q) * PAGE_SIZE && 0 <= k
    ensures Disjoint(r, q) ==> BytesApart(a, n, b, k)
  {}

  lemma SlabNonEmpty(m: Mem, n: Ptr)
    requires Inv(m, NOTHING) && n in m.ranges && m.ranges[n].slab.Some?
    ensures 1 <= m.ranges[n].npages
  {
    assert LabelOk(m, NOTHING, n);
    var s := m.ranges[n].slab.value;
    assert Backed(m, NOTHING, s);
    hide Inv, MappedOk, HomeOk, LinksOk, SlabsOk;
    BackedUsed(m, NOTHING, s);
    UsedNonEmpty(m, NOTHING, n);
  }

  /** The pages of a caller's range meet no allocated object. */
  lemma PagesAndObjectsApart(m: Mem, n: Ptr, a: Ptr)
    requires Inv(m, NOTHING) && n in UserRanges(m) && n in m.ranges && a in m.home
    ensures m.home[a] in m.slabs && m.slabs[m.home[a]].cache in m.caches
    ensures BytesApart(m.ranges[n].base * PAGE_SIZE, m.ranges[n].npages * PAGE_SIZE, a, BlockSize(m, a))
  {
    ObjectPlace(m, a);
    UserRangeFacts(m, NOTHING, n);
    hide Inv, IsObject;
    RangesApart(m, n, m.slabs[m.home[a]].range);
  }

  /**
   Every range structure the allocator can reach, in the middle of a call too, is an allocated object of the range
   cache, stored in mapped pages of a used range: none lives in pages that were given back.
   */
  lemma StructuresStayMapped(m: Mem, x: Flight, r: Ptr)
    requires Inv(m, x) && (r in m.ranges || r in x.heldRanges)
    ensures r in m.home && m.home[r] in m.slabs && m.slabs[m.home[r]].cache == RANGE_CACHE
    ensures m.slabs[m.home[r]].range in m.usedList && Owns(m, m.slabs[m.home[r]].range, PageOf(r))
    ensures PageOf(r) in m.mapped && Names(m.pages, PageOf(r), m.slabs[m.home[r]].range)
  {
    assert AllocatedFrom(m, RANGE_CACHE, r) by { hide RangesOk, MappedOk, SlabsOk, HomeOk, SlabRangesOk, IsOffSlab; }
    HomeRange(m, x, r);
    var s := m.home[r];
    assert Backed(m, x, s);
    assert m.caches[RANGE_CACHE].createMap by { hide CacheOk, SlabOk; }
    assert PageOf(r) in m.mapped by { hide RangesOk, MappedOk, SlabsOk, HomeOk, LinksOk, IsObject; }
    hide RangesOk, SlabsOk, HomeOk, SlabRangesOk, LinksOk, IsObject;
    OwnerFacts(m, PageOf(r));
    OnlyRange(m, x, m.slabs[s].range, PageOf(r));
    assert Names(m.pages, PageOf(r), m.mapped[PageOf(r)]);
  }

  /**
   The slab that holds the structure of its own range is never empty, in the middle of a call either: del_range cannot
   release it while it still needs that structure.
   */
  lemma SelfHostedSlabStays(m: Mem, x: Flight, s: Ptr)
    requires Inv(m, x) && s in m.slabs && m.slabs[s].range in m.home && m.home[m.slabs[s].range] == s
    ensures m.slabs[s].cache in m.caches && m.slabs[s].nbFree < m.caches[m.slabs[s].cache].nbObjects
  {
    var n := m.slabs[s].range;
    assert Allocated(m, s, n) && SlabOk(m, s) && CacheOk(m, m.slabs[s].cache);
    hide Inv, RangesOk, MappedOk, HomeOk, LinksOk, SlabRangesOk, IsObject, SlabsOk;
    var k := m.caches[m.slabs[s].cache];
    if m.slabs[s].nbFree >= k.nbObjects {
      AllFree(k, m.slabs[s].first, m.slabs[s].free);
    }
  }

  /** Every cache has the free objects it must keep, those of the allocator itself too. */
  lemma EveryMinimum(m: Mem, c: CacheId)
    requires Inv(m, NOTHING) && 2 <= Reserve(m) && EnoughFree(m, {}) && c in m.caches
    ensures m.caches[c].minFree <= m.caches[c].nbFree
  {
    CountedCache(m, NOTHING, c);
    GrowFacts(m, NOTHING, c);
    hide Inv;
    if c >= 2 { assert MinFree(m, c); }
  }

  /**
   What free_object does with an address that passes its test keeps the invariant if and only if the address is an
   object that some caller holds. It accepts two more kinds, and must not be given them: objects that are free already,
   and the structures the allocator itself lives on: range descriptors, off-slab slab structures, and the structures of
   the caches, those of the setup included.
   */
  lemma FreeExactly(m: Mem, s: Ptr, a: Ptr)
    requires Inv(m, NOTHING) && Tested(m, s, a)
    ensures Inv(PushAt(m, s, a), NOTHING) <==> a in UserObjects(m)
    ensures a in UserObjects(m)
      <==> a in m.home && a !in m.ranges && !IsOffSlab(m, a) && a !in Structs(m.caches)
  {
    hide *;
    hide Tested;
    Structures(m, a);
    UserObjectIs(m, NOTHING, s, a);
    if a in m.home { FreeingHeld(m, s, a); } else { FreeingFree(m, s, a); }
  }

  /** The objects of the three internal caches are the structures of the allocator. */
  lemma Structures(m: Mem, a: Ptr)
    requires Inv(m, NOTHING)
    ensures AllocatedFrom(m, RANGE_CACHE, a) <==> a in m.ranges
    ensures AllocatedFrom(m, KSLAB_CACHE, a) <==> IsOffSlab(m, a)
    ensures AllocatedFrom(m, CACHE_CACHE, a) <==> a in Structs(m.caches)
  {
    hide RangesOk, MappedOk, SlabsOk, HomeOk, SlabRangesOk, AllocatedFrom, IsOffSlab, Structs, Named;
  }

  /**
   Freeing the structure of a cache, that of the range cache for instance, passes the test, and destroys the cache.
   */
  lemma FreedCacheStructure(m: Mem, c: CacheId)
    requires Inv(m, NOTHING) && c in m.caches
    ensures var a := m.caches[c].at;
      a in m.home && Tested(m, m.home[a], a) && !Inv(PushAt(m, m.home[a], a), NOTHING)
  {
    var a := m.caches[c].at;
    assert a in Structs(m.caches);
    hide Inv, Tested, PushAt, Structs, IsOffSlab;
    Structures(m, a);
    HomeTested(m, NOTHING, a);
    FreeExactly(m, m.home[a], a);
  }

  /**
   Freeing the only object allocated from a cache with one slab, which must not keep free objects, leaves the cache
   without slabs, and the pages of the slab in a free range.
   */
  lemma LastObjectGoes(m: Mem, m': Mem, a: Ptr)
    requires Inv(m, NOTHING) && a in UserObjects(m) && SlabSettled(m, m', a)
    requires var c := UserObjects(m)[a];
      && c in m.caches && m.caches[c].minFree == 0 && |m.caches[c].slabList| == 1
      && forall b :: b in UserObjects(m) && UserObjects(m)[b] == c ==> b == a
    ensures UserObjects(m)[a] in m'.caches && m'.caches[UserObjects(m)[a]].slabList == []
    ensures m.home[a] !in m'.slabs && m.slabs[m.home[a]].range in m.ranges
    ensures forall p :: Covers(m.ranges[m.slabs[m.home[a]].range], p) ==> p in m'.tile && m'.tile[p] in m'.freeList
  {
    hide Inv, PagesFree;
    var s, c := m.home[a], UserObjects(m)[a];
    CacheSums(m, NOTHING, s);
    var l := m.caches[c].slabList;
    assert l == [s];
    assert Without(l, s) == [];
    forall b | b in m.home && m.home[b] == s ensures b == a { assert b in UserObjects(m) && UserObjects(m)[b] == c; }
    assert Goes(m, a);
    FreePages(m', m.ranges[m.slabs[s].range]);
  }

  lemma FreePages(m: Mem, r: Range)
    requires PagesFree(m, r)
    ensures forall p :: Covers(r, p) ==> p in m.tile && m.tile[p] in m.freeList
  {}

  lemma UserObjectIs(m: Mem, x: Flight, s: Ptr, a: Ptr)
    requires Inv(m, x) && Tested(m, s, a)
    ensures s in m.slabs && m.slabs[s].cache in m.caches && s in m.caches[m.slabs[s].cache].slabList && HomeOk(m)
    ensures a in m.home ==> m.home[a] == s
    ensures a in UserObjects(m) <==> a in m.home && m.slabs[s].cache > CACHE_CACHE
    ensures AllocatedFrom(m, RANGE_CACHE, a) || AllocatedFrom(m, KSLAB_CACHE, a) || AllocatedFrom(m, CACHE_CACHE, a)
      <==> a in m.home && m.slabs[s].cache <= CACHE_CACHE
  {
    if a in m.home {
      HomeTested(m, x, a);
      TestedOnce(m, x, s, m.home[a], a);
    }
    hide Inv, IsObject;
  }

  lemma FreeingFree(m: Mem, s: Ptr, a: Ptr)
    requires HomeOk(m) && Tested(m, s, a) && a !in m.home
    ensures !Inv(PushAt(m, s, a), NOTHING)
  {
    TestedFree(m, s, a);
    var m' := PushAt(m, s, a);
    hide Without, IsObject, RangesOk, MappedOk, HomeOk, SlabRangesOk, LinksOk;
    Doubled(m.slabs[s].free, a);
    assert m'.slabs[s].free == [a] + m.slabs[s].free;
    hide KmemState.NoDup, PushAt, Tested, CacheOk;
    assert !SlabOk(m', s);
  }

  lemma Doubled(f: seq<Ptr>, a: Ptr)
    requires a in f
    ensures !KmemState.NoDup([a] + f)
  {
    var i :| 0 <= i < |f| && f[i] == a;
    assert ([a] + f)[0] == ([a] + f)[i + 1];
  }

  lemma FreeingHeld(m: Mem, s: Ptr, a: Ptr)
    requires Inv(m, NOTHING) && Tested(m, s, a) && a in m.home && m.home[a] == s
    ensures Inv(PushAt(m, s, a), NOTHING) <==> m.slabs[s].cache > CACHE_CACHE
  {
    hide RangesOk, MappedOk, SlabsOk, HomeOk, SlabRangesOk, IsObject;
    var c := m.slabs[s].cache;
    if c > CACHE_CACHE {
      PushKeeps(m, NOTHING, a);
    } else {
      assert AllocatedFrom(m, c, a);
      assert a !in PushAt(m, s, a).home;
      assert !AllocatedFrom(PushAt(m, s, a), c, a);
      PushSides(m, s, a);
      hide PushAt, AllocatedFrom, IsOffSlab, Structs, Named;
    }
  }

  lemma PushSides(m: Mem, s: Ptr, a: Ptr)
    requires Tested(m, s, a) && a in m.home && m.home[a] == s
    ensures PushAt(m, s, a).ranges == m.ranges && forall t :: IsOffSlab(PushAt(m, s, a), t) <==> IsOffSlab(m, t)
    ensures Structs(PushAt(m, s, a).caches) == Structs(m.caches)
  {
    PushGives(m, a);
    hide PushAt;
    SameOffSlab(m, PushAt(m, s, a));
    SameStructs(m, PushAt(m, s, a));
  }

  /** What demand paging does when the CPU takes a page fault on page `p`: a physical page without owner goes there. */
  function DemandPaged(m: Mem, p: int, frame: Frame): Mem {
    if p in m.pages.frameOf then m else m.(pages := m.pages.(frameOf := m.pages.frameOf[p := frame]))
  }

  function SlabPaged(m: Mem, c: CacheId, n: Ptr, s: Ptr, f: seq<Ptr>, frame: Frame): Mem
    requires c in m.caches && n in m.ranges
  {
    AddSlab(DemandPaged(m, m.ranges[n].base, frame), c, n, s, f)
  }

  /**
   The first free link of a new slab is written to its first page, and the page fault is served if there is one. Growing
   a cache keeps the invariant if and only if the cache was created with its pages mapped. Otherwise a page of the
   kernel area is left without owner, and the next lookup of an address in it, to free an object for instance, halts.
   */
  lemma GrowExactly(m: Mem, x: Flight, c: CacheId, n: Ptr, s: Ptr, f: seq<Ptr>, frame: Frame)
    requires c in m.caches && n in m.ranges && SlabSite(m, x, c, n, s) && (m.caches[c].createMap || Bare(m, n))
    requires FullFreeList(m.caches[c], m.ranges[n].base * PAGE_SIZE, f) && frame !in m.pages.rangeOf
    requires Inv(m, x)
    ensures Inv(SlabPaged(m, c, n, s, f, frame), Placed(x, m.caches[c], s)) <==> m.caches[c].createMap
    ensures Unowned(SlabPaged(m, c, n, s, f, frame).pages, m.ranges[n].base) <==> !m.caches[c].createMap
  {
    var p, d := m.ranges[n].base, DemandPaged(m, m.ranges[n].base, frame);
    FirstPage(m, x, c, n, s);
    hide RangesOk, OwnersOk, SlabsOk, HomeOk, SlabRangesOk, LinksOk;
    if m.caches[c].createMap {
      assert d == m;
      AddKeeps(m, x, c, n, s, f);
      AreaOwned(m, x, p);
    } else {
      assert p !in m.mapped && p in d.pages.frameOf;
    }
  }

  lemma FirstPage(m: Mem, x: Flight, c: CacheId, n: Ptr, s: Ptr)
    requires Inv(m, x) && SlabSite(m, x, c, n, s) && (m.caches[c].createMap || Bare(m, n))
    ensures InArea(m.ranges[n].base) && (m.ranges[n].base in m.pages.frameOf <==> m.caches[c].createMap)
    ensures m.ranges[n].base in m.pages.frameOf <==> m.ranges[n].base in m.mapped
  {
    assert CacheOk(m, c);
    hide SlabsOk, HomeOk, SlabRangesOk, LinksOk, IsObject, FullLast, SumFree;
    RangesUnfold(m, x);
    hide RangesOk, Apart, TileOk, PlacesOk, SortedUsed, SortedFree, OwnersOk, CacheOk;
    assert Covers(m.ranges[n], m.ranges[n].base);
  }

  /**
   A cache's free-object counter is the total length of its free lists, and it is zero exactly when its head slab is
   full or missing.
   */
  lemma CounterAtHead(m: Mem, c: CacheId)
    requires Inv(m, NOTHING) && c in m.caches
    ensures m.caches[c].nbFree == SumFree(m.caches[c].slabList, m.slabs)
    ensures m.caches[c].nbFree == 0 <==> !HeadHasRoom(m, c)
  {
    hide RangesOk, MappedOk, HomeOk, SlabRangesOk, LinksOk, GeometryOk;
    assert CacheOk(m, c);
    var l := m.caches[c].slabList;
    forall t | t in l ensures t in m.slabs && m.slabs[t].nbFree == |m.slabs[t].free| { assert SlabOk(m, t); }
    if HeadHasRoom(m, c) {
      assert l[0] in l;
      SumFreeAtLeast(l, m.slabs);
    } else {
      forall t | t in l ensures m.slabs[t].nbFree == 0 {
        var i :| 0 <= i < |l| && l[i] == t;
        assert l[0] in l;
      }
      hide SlabsOk, CacheOk;
      SumFreeZero(l, m.slabs);
    }
  }

  predicate HeadHasRoom(m: Mem, c: CacheId) {
    c in m.caches && m.caches[c].slabList != [] && m.caches[c].slabList[0] in m.slabs
      && m.slabs[m.caches[c].slabList[0]].free != []
  }

  lemma {:induction false} IndexOfLast(l: seq<Ptr>, s: Ptr)
    requires s !in l
    ensures IndexOf(l + [s], s) == |l|
  {
    if l == [] {
    } else {
      assert (l + [s])[1..] == l[1..] + [s];
      IndexOfLast(l[1..], s);
    }
  }

  /**
   What one allocation changes, on lists: a slab left full goes from the head to the tail, and comes back to the head.
   */
  lemma ListRoundTrip(l: seq<Ptr>, full: bool)
    requires l != [] && NoDup(l)
    ensures var l' := if full then l[1..] + [l[0]] else l;
      l[0] in l' && (if full then [l[0]] + Without(l', l[0]) else l') == l
  {
    if full {
      IndexOfLast(l[1..], l[0]);
      assert Without(l[1..] + [l[0]], l[0]) == l[1..];
    }
  }

  lemma SlabRoundTrip(m: Mem, s: Ptr, f: seq<Ptr>, l: seq<Ptr>, h: map<Ptr, Ptr>)
    requires s in m.slabs && m.slabs[s].cache in m.caches && m.slabs[s].nbFree == |m.slabs[s].free|
    ensures var m1 := SetFree(m, s, f, l, h);
      s in m1.slabs && m1.slabs[s].cache in m1.caches
      && SetFree(m1, s, m.slabs[s].free, m.caches[m.slabs[s].cache].slabList, m.home) == m
  {
    var b := m.slabs[s];
    var m1 := SetFree(m, s, f, l, h);
    var m2 := SetFree(m1, s, b.free, m.caches[b.cache].slabList, m.home);
    assert m2.slabs == m.slabs && m2.caches == m.caches;
  }

  lemma HeadFacts(m: Mem, c: CacheId)
    requires Inv(m, NOTHING) && HeadNonFull(m, c)
    ensures var s := m.caches[c].slabList[0];
      NoDup(m.caches[c].slabList) && m.slabs[s].nbFree == |m.slabs[s].free| && HeadObject(m, c) !in m.home
  {
    var s := m.caches[c].slabList[0];
    assert CacheOk(m, c)
      && SlabOk(m, s) by { hide RangesOk, MappedOk, HomeOk, SlabRangesOk, LinksOk; assert s in m.caches[c].slabList; }
    FreshHead(m, c);
    hide Inv;
  }

  lemma FreshHead(m: Mem, c: CacheId)
    requires Inv(m, NOTHING) && HeadNonFull(m, c)
    ensures HeadObject(m, c) !in m.home
  {
    hide Inv;
    PopKeeps(m, NOTHING, c);
  }

  lemma PopIsSet(m: Mem, c: CacheId)
    requires HeadNonFull(m, c)
    ensures var l, s, f := m.caches[c].slabList, m.caches[c].slabList[0], m.slabs[m.caches[c].slabList[0]].free;
      var l', h := if |f| == 1 then l[1..] + [s] else l, m.home[f[0] := s];
      var m1 := PopObject(m, c);
      && m1 == SetFree(m, s, f[1..], l', h) && m1.home == h && s in m1.slabs && m1.slabs[s].free == f[1..]
        && m1.slabs[s].cache == c
      && c in m1.caches && m1.caches[c].slabList == l'
  {}

  lemma PushIsSet(m: Mem, c: CacheId, a: Ptr, s: Ptr, f: seq<Ptr>, l: seq<Ptr>)
    requires a in m.home && m.home[a] == s && s in m.slabs && m.slabs[s].cache == c && c in m.caches
    requires m.slabs[s].free == f && m.caches[c].slabList == l && s in l
    ensures Pushable(m, a)
    ensures PushObject(m, a) == SetFree(m, s, [a] + f, if f == [] then [s] + Without(l, s) else l, m.home - {a})
  {
    hide Without, SetFree;
  }

  /**
   Freeing an object right after it was allocated brings back the very same state, even when the allocation filled its
   slab.
   */
  lemma FreeUndoesAlloc(m: Mem, c: CacheId)
    requires Inv(m, NOTHING) && HeadNonFull(m, c)
    ensures Pushable(PopObject(m, c), HeadObject(m, c)) && PushObject(PopObject(m, c), HeadObject(m, c)) == m
  {
    hide Inv, SetFree, Without, PopObject, PushObject, Pushable, NoDup;
    HeadFacts(m, c);
    var l := m.caches[c].slabList;
    var s, f := l[0], m.slabs[l[0]].free;
    var a, l', h := f[0], if |f| == 1 then l[1..] + [s] else l, m.home[f[0] := s];
    PopIsSet(m, c);
    ListRoundTrip(l, |f| == 1);
    PushIsSet(PopObject(m, c), c, a, s, f[1..], l');
    SlabRoundTrip(m, s, f[1..], l', h);
    assert h - {a} == m.home && [a] + f[1..] == f && (f[1..] == [] <==> |f| == 1);
  }
}
