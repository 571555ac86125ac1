/**
 Creating and destroying caches (os/kmem_slab.c:560-625), and the size classes of kmalloc (os/kmalloc.c:53-69). A cache
 is named by the address of its structure, which is an object of the cache of caches.
 */
module KmemCreate {
  import opened KmemState
  import opened KmemGeometry
  import opened KmemSlabSteps
  import opened KmemRangeSteps
  import opened KmemFacts
  import opened Kmem
  import opened KmemBoot
  import opened Kmalloc

  /** kslab_cache_list. */
  class CacheList {
    var all: seq<CacheId>

    /** Every element of the list is a cache. */
    predicate Live(m: Mem)
      reads this
    {
      forall c :: c in all ==> c in m.caches
    }
  }

  /** How far a call got: the CPU may take an exception in it. */
  datatype Trap = NoTrap | PageFault | DivideError

  /** A new, empty cache. */
  function WithCache(m: Mem, c: CacheId, k: Cache): Mem { m.(caches := m.caches[c := k]) }

  /** Cache `c` is no more. */
  function WithoutCache(m: Mem, c: CacheId): Mem { m.(caches := m.caches - {c}) }

  // ---------------------------------------------------------------- adding a cache

  lemma WithCacheSlabs(m: Mem, c: CacheId, k: Cache)
    requires SlabsOk(m) && c !in m.caches && GeometryOk(k) && k.slabList == [] && k.nbFree == 0
    ensures SlabsOk(WithCache(m, c, k))
  {
    var m' := WithCache(m, c, k);
    hide GeometryOk, IsObject;
    forall d | d in m'.caches ensures CacheOk(m', d) { if d != c { assert CacheOk(m, d); } }
    forall s | s in m'.slabs ensures SlabOk(m', s) { assert SlabOk(m, s); }
  }

  lemma SlabCaches(m: Mem)
    requires SlabsOk(m)
    ensures forall s :: s in m.slabs ==> m.slabs[s].cache in m.caches
  {
    forall s | s in m.slabs ensures m.slabs[s].cache in m.caches { assert SlabOk(m, s); }
  }

  /** Only the caches of slabs matter. */
  lemma OtherCaches(m: Mem, m': Mem, x: Flight, x': Flight)
    requires HomeOk(m) && SlabRangesOk(m, x) && m' == m.(caches := m'.caches)
    requires x'.pending == x.pending && x'.dangling == x.dangling && x'.kept == x.kept
    requires forall s :: s in m.slabs ==> var d := m.slabs[s].cache;
      d in m.caches && d in m'.caches && m'.caches[d] == m.caches[d]
    ensures HomeOk(m') && SlabRangesOk(m', x')
  {
    forall s, a ensures Allocated(m', s, a) <==> Allocated(m, s, a) { hide IsObject; }
    assert SlabRangesOk(m', x') by {
      forall s | s in m'.slabs ensures Backed(m', x', s) { assert Backed(m, x, s); }
      forall n | n in m'.ranges ensures LabelOk(m', x', n) { assert LabelOk(m, x, n); }
    }
    hide Allocated, SlabRangesOk;
  }

  lemma CacheSide(m: Mem, x: Flight)
    requires LinksOk(m, x)
    ensures CacheLinks(m, x)
  {
    hide AllocatedFrom, IsOffSlab;
  }

  /** Only what concerns the structures of caches changed. */
  lemma LinksFrom(m: Mem, m': Mem, x: Flight, x': Flight)
    requires LinksOk(m, x) && m' == m.(caches := m'.caches) && CacheLinks(m', x')
    requires x'.heldRanges == x.heldRanges && x'.heldSlabs == x.heldSlabs
    requires forall s :: s in m.slabs ==> var d := m.slabs[s].cache;
      d in m.caches && d in m'.caches && m'.caches[d] == m.caches[d]
    ensures LinksOk(m', x')
  {
    hide CacheLinks;
    forall s ensures IsOffSlab(m', s) <==> IsOffSlab(m, s) {}
    forall d, a ensures AllocatedFrom(m', d, a) <==> AllocatedFrom(m, d, a) {}
    hide IsOffSlab, AllocatedFrom;
  }

  /** The structure of a cache is among the structures. */
  lemma InStructs(caches: map<CacheId, Cache>)
    ensures forall d :: d in caches ==> caches[d].at in Structs(caches)
  {}

  lemma StructsWith(caches: map<CacheId, Cache>, c: CacheId, k: Cache)
    requires c !in caches
    ensures Structs(caches[c := k]) == Structs(caches) + {k.at}
  {
    var caches' := caches[c := k];
    assert caches'.Keys == caches.Keys + {c};
    assert forall d :: d in caches ==> caches'[d] == caches[d];
    InStructs(caches);
    InStructs(caches');
    forall a | a in Structs(caches') ensures a in Structs(caches) + {k.at} {
      var d :| d in caches' && caches'[d].at == a;
    }
    forall a | a in Structs(caches) ensures a in Structs(caches') {
      var d :| d in caches && caches[d].at == a;
    }
    assert caches'[c].at == k.at;
  }

  lemma StructsWithout(caches: map<CacheId, Cache>, c: CacheId)
    requires Named(caches) && c in caches
    ensures Structs(caches - {c}) == Structs(caches) - {caches[c].at}
  {
    var caches' := caches - {c};
    assert forall d :: d in caches' ==> d in caches && caches'[d] == caches[d];
    forall a | a in Structs(caches) - {caches[c].at} ensures a in Structs(caches') {
      var d :| d in caches && caches[d].at == a;
      assert d in caches' && caches'[d].at == a;
    }
    forall a | a in Structs(caches') ensures a in Structs(caches) - {caches[c].at} {
      var d :| d in caches' && caches'[d].at == a;
      assert caches[d].at == a;
    }
  }

  lemma WithCacheLinks(m: Mem, x: Flight, c: CacheId, k: Cache)
    requires CacheLinks(m, Hold(x, CACHE_CACHE, c)) && c !in x.heldCaches
    requires c !in m.caches && c > CACHE_CACHE && k.at == c
    ensures CacheLinks(WithCache(m, c, k), x)
  {
    var m' := WithCache(m, c, k);
    StructsWith(m.caches, c, k);
    InStructs(m.caches);
    assert forall d :: d in m.caches ==> m'.caches[d] == m.caches[d];
    hide Structs;
    assert c in Hold(x, CACHE_CACHE, c).heldCaches && c !in Structs(m.caches);
    assert Named(m'.caches);
    forall a ensures AllocatedFrom(m', CACHE_CACHE, a) <==> AllocatedFrom(m, CACHE_CACHE, a) {}
    hide AllocatedFrom, Named;
  }

  /** The structure taken for a cache is filled in. */
  lemma WithCacheKeeps(m: Mem, x: Flight, c: CacheId, k: Cache)
    requires Inv(m, Hold(x, CACHE_CACHE, c)) && c !in x.heldCaches && c !in m.caches && c > CACHE_CACHE && k.at == c
    requires GeometryOk(k) && k.slabList == [] && k.nbFree == 0
    ensures Inv(WithCache(m, c, k), x) && UserRanges(WithCache(m, c, k)) == UserRanges(m)
    ensures UserObjects(WithCache(m, c, k)) == UserObjects(m)
    ensures Reserve(WithCache(m, c, k)) == Reserve(m)
  {
    hide RangesOk, MappedOk, SlabsOk, HomeOk, SlabRangesOk, LinksOk;
    SlabCaches(m);
    WithCacheSlabs(m, c, k);
    OtherCaches(m, WithCache(m, c, k), Hold(x, CACHE_CACHE, c), x);
    assert CacheLinks(WithCache(m, c, k), x) by {
      CacheSide(m, Hold(x, CACHE_CACHE, c));
      WithCacheLinks(m, x, c, k);
    }
    LinksFrom(m, WithCache(m, c, k), Hold(x, CACHE_CACHE, c), x);
    RangesFrame(m, WithCache(m, c, k), Hold(x, CACHE_CACHE, c), x);
    InternalCaches(m);
  }

  /** A structure in the making names no cache. */
  lemma FreshName(m: Mem, x: Flight, c: CacheId)
    requires CacheLinks(m, Hold(x, CACHE_CACHE, c)) && c > CACHE_CACHE
    ensures c !in m.caches
  {
    assert c in Hold(x, CACHE_CACHE, c).heldCaches;
    InStructs(m.caches);
    hide AllocatedFrom, Structs;
  }

  // ---------------------------------------------------------------- removing a cache

  lemma WithoutCacheSlabs(m: Mem, c: CacheId)
    requires SlabsOk(m) && c in m.caches && c > CACHE_CACHE && m.caches[c].slabList == []
    ensures SlabsOk(WithoutCache(m, c)) && forall s :: s in m.slabs ==> m.slabs[s].cache != c
  {
    var m' := WithoutCache(m, c);
    hide GeometryOk, IsObject;
    forall d | d in m'.caches ensures CacheOk(m', d) { assert CacheOk(m, d); }
    forall s | s in m'.slabs ensures SlabOk(m', s) { assert SlabOk(m, s); }
  }

  lemma WithoutCacheLinks(m: Mem, x: Flight, c: CacheId)
    requires CacheLinks(m, x) && c in m.caches && c > CACHE_CACHE
    ensures CacheLinks(WithoutCache(m, c), Hold(x, CACHE_CACHE, c)) && c !in x.heldCaches
  {
    var m' := WithoutCache(m, c);
    StructsWithout(m.caches, c);
    InStructs(m.caches);
    assert forall d :: d in m'.caches ==> d in m.caches && m'.caches[d] == m.caches[d];
    hide Structs;
    assert m.caches[c].at == c;
    assert Named(m'.caches);
    forall a ensures AllocatedFrom(m', CACHE_CACHE, a) <==> AllocatedFrom(m, CACHE_CACHE, a) {}
    hide AllocatedFrom, Named;
  }

  /** A cache without slabs is no more; its structure holds nothing any longer. */
  lemma WithoutCacheKeeps(m: Mem, x: Flight, c: CacheId)
    requires Inv(m, x) && c in m.caches && c > CACHE_CACHE && m.caches[c].slabList == []
    ensures Inv(WithoutCache(m, c), Hold(x, CACHE_CACHE, c)) && c !in x.heldCaches
    ensures UserRanges(WithoutCache(m, c)) == UserRanges(m)
    ensures UserObjects(WithoutCache(m, c)) == UserObjects(m)
    ensures Reserve(WithoutCache(m, c)) == Reserve(m)
    ensures UserCaches(WithoutCache(m, c).caches) == UserCaches(m.caches) - {c}
  {
    hide RangesOk, MappedOk, SlabsOk, HomeOk, SlabRangesOk, LinksOk;
    SlabCaches(m);
    WithoutCacheSlabs(m, c);
    OtherCaches(m, WithoutCache(m, c), x, Hold(x, CACHE_CACHE, c));
    assert CacheLinks(WithoutCache(m, c), Hold(x, CACHE_CACHE, c)) && c !in x.heldCaches by {
      CacheSide(m, x);
      WithoutCacheLinks(m, x, c);
    }
    LinksFrom(m, WithoutCache(m, c), x, Hold(x, CACHE_CACHE, c));
    RangesFrame(m, WithoutCache(m, c), x, Hold(x, CACHE_CACHE, c));
    InternalCaches(m);
  }

  /** A cache without slabs can go if and only if it is not one of the setup. */
  lemma RemoveCacheExactly(m: Mem, x: Flight, c: CacheId)
    requires Inv(m, x) && c in m.caches && m.caches[c].slabList == []
    ensures Inv(WithoutCache(m, c), Hold(x, CACHE_CACHE, m.caches[c].at)) <==> c > CACHE_CACHE
  {
    if c > CACHE_CACHE {
      assert m.caches[c].at == c by {
        hide RangesOk, MappedOk, SlabsOk, HomeOk, SlabRangesOk, IsOffSlab, AllocatedFrom;
      }
      WithoutCacheKeeps(m, x, c);
    } else {
      hide RangesOk, MappedOk, HomeOk, SlabRangesOk, LinksOk, CacheOk, SlabOk;
      assert c !in WithoutCache(m, c).caches;
    }
  }

  /** What is left when cache `c` is destroyed: everything but its structure, which goes back to the cache of caches. */
  ghost predicate CacheGone(m: Mem, m': Mem, c: CacheId) {
    && m'.caches.Keys == m.caches.Keys - {c}
    && (forall d :: d in m'.caches && d in m.caches ==>
          m'.caches[d] == m.caches[d].(nbFree := m'.caches[d].nbFree, slabList := m'.caches[d].slabList))
    && (forall d :: d in m'.caches && d in m.caches && d > CACHE_CACHE ==> m'.caches[d] == m.caches[d])
    && UserObjects(m') == UserObjects(m) && UserRanges(m') == UserRanges(m)
    && (MinFree(m, CACHE_CACHE) ==> MinFree(m', CACHE_CACHE))
  }

  lemma EnoughGone(m: Mem, m': Mem, c: CacheId)
    requires CacheGone(m, m', c) && c > CACHE_CACHE && CACHE_CACHE in m.caches
    ensures EnoughFree(m, {c}) ==> EnoughFree(m', {})
  {
    hide UserObjects, UserRanges;
    if EnoughFree(m, {c}) {
      forall d | d in m'.caches && d >= 2 ensures MinFree(m', d) { assert d in m.caches && MinFree(m, d); }
    }
  }

  lemma EnoughBut(m: Mem, c: CacheId)
    ensures EnoughFree(m, {}) ==> EnoughFree(m, {c})
  {}

  /** The slabs of cache `c` were released. */
  ghost predicate Emptying(m: Mem, m': Mem, c: CacheId) {
    SameUser(m, m') && SameDims(m, m') && OnlyCache(m, m', c) && Reserve(m') >= 2
  }

  lemma EmptySelf(m: Mem, c: CacheId)
    requires c in m.caches && Reserve(m) >= 2
    ensures Emptying(m, m, c)
  {}

  lemma EmptyMore(m0: Mem, m: Mem, m': Mem, c: CacheId)
    requires Emptying(m0, m, c) && SameUser(m, m') && Steady(m, m', 0) && OnlyCache(m, m', c)
    ensures Emptying(m0, m', c) && c in m'.caches
  {
    hide UserRanges, UserObjects;
    OnlyTrans(m0, m, m', c);
    SameDimsTrans(m0, m, m');
    SteadyFacts(m, m', 0);
  }

  /** The head slab of a cache none of whose objects is allocated can go. */
  lemma HeadUnused(m: Mem, x: Flight, c: CacheId)
    requires Inv(m, x) && c in m.caches && c > CACHE_CACHE && NoObjects(m, c) && m.caches[c].slabList != []
    ensures var s := m.caches[c].slabList[0];
      WholeSlabFree(m, s) && MayRelease(m, s) && m.slabs[s].cache == c && NoDup(m.caches[c].slabList)
  {
    CacheUnused(m, x, c);
    CacheSlabs(m, c);
    hide Inv, NoObjects;
    assert m.caches[c].slabList[0] in m.caches[c].slabList;
  }

  lemma NoneStill(m: Mem, m': Mem, c: CacheId)
    requires NoObjects(m, c) && UserObjects(m') == UserObjects(m) && c > CACHE_CACHE
    ensures NoObjects(m', c)
  {
    forall a ensures !AllocatedFrom(m', c, a) {
      if AllocatedFrom(m', c, a) {
        AllocatedUser(m', c, a);
        assert UserObjects(m)[a] == c;
        assert AllocatedFrom(m, c, a);
      }
    }
  }

  lemma GoneDone(m0: Mem, m2: Mem, m3: Mem, m4: Mem, c: CacheId)
    requires c in m0.caches && c > CACHE_CACHE && CACHE_CACHE in m0.caches && Emptying(m0, m2, c)
    requires m3 == WithoutCache(m2, c) && UserCaches(m3.caches) == UserCaches(m2.caches) - {c}
    requires OnlyCache(m3, m4, CACHE_CACHE) && SameDims(m3, m4)
    requires m3.caches[CACHE_CACHE].nbFree + 1 >= m3.caches[CACHE_CACHE].minFree ==> MinFree(m4, CACHE_CACHE)
    requires UserObjects(m4) == UserObjects(m2) && UserRanges(m4) == UserRanges(m2)
    ensures CacheGone(m0, m4, c)
  {
    hide UserObjects, UserRanges;
    assert UserCaches(m2.caches) == UserCaches(m0.caches)[c := m2.caches[c]];
    forall d | d in m4.caches && d in m0.caches && d >= 2 ensures m3.caches[d] == m0.caches[d] {
      assert UserCaches(m2.caches)[d] == m2.caches[d] && UserCaches(m0.caches)[d] == m0.caches[d];
    }
    forall d | d in m4.caches && d in m0.caches && d > CACHE_CACHE ensures m4.caches[d] == m0.caches[d] {
      assert UserCaches(m4.caches)[d] == m4.caches[d] && UserCaches(m3.caches)[d] == m3.caches[d];
    }
  }

  /** The cache of ranges and the cache of caches always have objects: the range of the first page, their structures. */
  lemma InternalBusy(m: Mem)
    requires Inv(m, NOTHING)
    ensures !NoObjects(m, RANGE_CACHE) && !NoObjects(m, CACHE_CACHE)
  {
    RangesUnfold(m, NOTHING);
    assert TileOk(m) && m.tile[BASE_PAGE] in m.ranges;
    assert AllocatedFrom(m, RANGE_CACHE, m.tile[BASE_PAGE]);
    assert m.caches[CACHE_CACHE].at in Structs(m.caches);
    assert AllocatedFrom(m, CACHE_CACHE, m.caches[CACHE_CACHE].at);
  }

  /**
   sos_kmem_cache_destroy. It is refused exactly if an object of the cache is allocated; otherwise the slabs, and then
   the structure of the cache, are given back. It must not be called for the cache of slab structures while no slab
   structure is off its slab.
   */
  method CacheDestroy(k: Allocator, cache: Option<CacheId>) returns (ret: Ret)
    requires Inv(k.St(), NOTHING) && 2 <= Reserve(k.St())
    requires cache.Some? ==> cache.value in k.caches && (cache.value == KSLAB_CACHE ==> !NoObjects(k.St(), KSLAB_CACHE))
    modifies k
    ensures Inv(k.St(), NOTHING) && 2 <= Reserve(k.St())
    ensures KeepsMapped(old(k.St()), k.St()) && k.grown == old(k.grown) && k.refused == old(k.refused)
    ensures cache.None? ==> ret == EINVAL
    ensures cache.Some? ==> ret == if NoObjects(old(k.St()), cache.value) then OK else EBUSY
    ensures ret != OK ==> k.St() == old(k.St())
    ensures ret == OK ==> cache.value > CACHE_CACHE && CacheGone(old(k.St()), k.St(), cache.value)
    ensures EnoughFree(old(k.St()), {}) ==> EnoughFree(k.St(), {})
  {
    hide EnoughFree, MinFree;
    hide Inv, UserRanges, UserObjects, UserCaches, SameDims, KeepsMapped, NoObjects,
      Emptying, OnlyCache, Steady, PushedOnly, CacheGone, MayRelease;
    ghost var m0 := k.St();
    if cache.None? {
      KeepsMappedSelf(m0);
      return EINVAL;
    }
    var c := cache.value;
    ghost var x := Keeping(m0);
    KeepAll(m0, UserRanges(m0).Keys);
    CacheUnused(m0, x, c);
    var i := 0;
    while i < |k.caches[c].slabList|
      invariant 0 <= i <= |k.caches[c].slabList| && k.St() == m0 && k.grown == old(k.grown)
      invariant k.refused == old(k.refused)
      invariant forall j :: 0 <= j < i ==>
        k.caches[c].slabList[j] in k.slabs && k.slabs[k.caches[c].slabList[j]].nbFree == k.caches[c].nbObjects
    {
      var s := k.caches[c].slabList[i];
      if k.slabs[s].nbFree != k.caches[c].nbObjects {
        assert s in m0.caches[c].slabList;
        KeepsMappedSelf(m0);
        return EBUSY;
      }
      i := i + 1;
    }
    assert NoObjects(m0, c);
    InternalBusy(m0);
    MappedInternal(m0);
    EmptySelf(m0, c);
    while k.caches[c].slabList != []
      invariant c in k.caches && Inv(k.St(), x) && Emptying(m0, k.St(), c) && NoObjects(k.St(), c)
      invariant k.grown == old(k.grown) && k.refused == old(k.refused)
      decreases |k.caches[c].slabList|
    {
      ghost var m := k.St();
      var s := k.caches[c].slabList[0];
      HeadUnused(m, x, c);
      k.CacheReleaseSlab(s, true, x);
      RemovedCaches(m, k.St(), s);
      EmptyMore(m0, m, k.St(), c);
      NoneStill(m, k.St(), c);
    }
    ghost var m2 := k.St();
    WithoutCacheKeeps(m2, x, c);
    k.caches := k.caches - {c};
    ghost var m3 := k.St();
    ghost var y := Hold(x, CACHE_CACHE, c);
    GiveBack(m0, m2, m3, x, c);
    ret := k.CacheFree(c, y);
    PushedCaches(m3, k.St(), c);
    SteadyFacts(m3, k.St(), 0);
    NotUser(m3, c);
    GoneDone(m0, m2, m3, k.St(), c);
    EnoughBut(m0, c);
    EnoughGone(m0, k.St(), c);
    AllKept(m0, k.St(), x);
  }

  lemma GiveBack(m0: Mem, m2: Mem, m3: Mem, x: Flight, c: CacheId)
    requires c in m0.caches && c > CACHE_CACHE && CACHE_CACHE in m0.caches && Emptying(m0, m2, c)
    requires m3 == WithoutCache(m2, c) && Inv(m3, Hold(x, CACHE_CACHE, c)) && c !in x.heldCaches
    ensures c in m3.home && m3.home[c] in m3.slabs && m3.slabs[m3.home[c]].cache == CACHE_CACHE
    ensures MayFree(m3, Hold(x, CACHE_CACHE, c), c) && Unhold(Hold(x, CACHE_CACHE, c), CACHE_CACHE, c) == x
    ensures Counted(m3, m3.home[c]) && CACHE_CACHE in m3.caches && !AllocatedFrom(m3, RANGE_CACHE, c)
    ensures 2 <= Reserve(m3)
  {
    hide RangesOk, MappedOk, SlabsOk, HomeOk, SlabRangesOk, IsOffSlab, Structs, Named, UserRanges, UserObjects,
      UserCaches;
    assert AllocatedFrom(m3, CACHE_CACHE, c);
    HomeCounted(m3, Hold(x, CACHE_CACHE, c), c);
    hide Inv;
  }

  /** Objects lie in the kernel area, so their addresses name no cache of the setup. */
  lemma ObjectsAreHigh(m: Mem, x: Flight, a: Ptr)
    requires Inv(m, x) && a in m.home
    ensures a > CACHE_CACHE
  {
    var s := m.home[a];
    assert Allocated(m, s, a) by { hide RangesOk, MappedOk, SlabsOk, SlabRangesOk, LinksOk, IsObject; }
    assert Backed(m, x, s) && BoundsOk(m);
    hide Inv, RangesOk, MappedOk, SlabsOk, HomeOk, SlabRangesOk, LinksOk;
  }

  /** Every cache of `m` is still there, with the same dimensions. */
  ghost predicate KeepsCaches(m: Mem, m': Mem) {
    forall c :: c in m.caches ==>
      c in m'.caches && m'.caches[c] == m.caches[c].(nbFree := m'.caches[c].nbFree, slabList := m'.caches[c].slabList)
  }

  /** An object is of a cache that exists. */
  lemma NoneOfNew(m: Mem, x: Flight, c: CacheId)
    requires Inv(m, x) && c !in m.caches
    ensures NoObjects(m, c)
  {
    hide RangesOk, MappedOk, HomeOk, SlabRangesOk, LinksOk, IsObject;
    forall a ensures !AllocatedFrom(m, c, a) {
      if a in m.home && m.home[a] in m.slabs { assert SlabOk(m, m.home[a]); }
    }
  }

  lemma KeepsMappedTrans(m0: Mem, m1: Mem, m2: Mem)
    requires KeepsMapped(m0, m1) && KeepsMapped(m1, m2) && UserRanges(m1) == UserRanges(m2)
    ensures KeepsMapped(m0, m2)
  {
    forall n | n in UserRanges(m0) && n in UserRanges(m2) ensures SamePages(m0, m2, n) {
      assert SamePages(m0, m1, n) && SamePages(m1, m2, n) && UserRanges(m1)[n] == UserRanges(m2)[n];
    }
  }

  /** The CPU took a page fault on a slab about to be built. */
  ghost predicate Faulted(m: Mem) { exists m0: Mem, c :: FaultIn(m0, m, NOTHING, c) }

  lemma FaultedHere(m0: Mem, m: Mem, x: Flight, c: CacheId)
    requires FaultIn(m0, m, x, c) && x == NOTHING.(kept := x.kept)
    ensures Faulted(m)
  {
    hide Inv, Given, UserObjects, AllMapped, Bare;
    var n, s :| FaultAt(m0, m, x, c, n, s);
    DropMapped(m, Building(x, m.caches[c], s), Building(NOTHING, m.caches[c], s));
    assert FaultAt(m0, m, NOTHING, c, n, s);
    assert FaultIn(m0, m, NOTHING, c);
  }

  /**
   The end of sos_kmem_cache_create, for a minimum of free objects: a first slab, or the cache is destroyed again. The
   first slab of a cache without mapping cannot be built: `fault`.
   */
  method Preallocate(k: Allocator, c: CacheId) returns (ok: bool, fault: bool)
    requires Inv(k.St(), NOTHING) && 2 <= Reserve(k.St()) && c in k.caches && c > CACHE_CACHE
    requires NoObjects(k.St(), c)
    modifies k
    ensures if old(k.caches[c].createMap) then !fault else !ok
    ensures fault ==> !ok && Faulted(k.St())
    ensures UserObjects(k.St()) == old(UserObjects(k.St()))
    ensures !fault ==> Inv(k.St(), NOTHING) && 2 <= Reserve(k.St())
    ensures !fault ==> KeepsMapped(old(k.St()), k.St()) && UserRanges(k.St()) == old(UserRanges(k.St()))
    ensures ok ==> SameDims(old(k.St()), k.St()) && Grown(old(k.St()), k.St(), c)
    ensures !ok && !fault ==> CacheGone(old(k.St()), k.St(), c)
    ensures !fault ==> (EnoughFree(old(k.St()), {c}) ==> EnoughFree(k.St(), {}))
    ensures !fault ==>
      OneGrowth(old(k.grown), k.grown, old(Reserve(k.St())), Reserve(k.St()), ok, GrowNeed(c), GrowUse(c))
    ensures old(k.refused) <= k.refused && (ok ==> k.refused == old(k.refused))
    ensures !ok && !fault ==> k.refused > old(k.refused) || Lacks(old(k.St()), c)
  {
    hide Lacks;
    hide Inv, UserRanges, UserObjects, UserCaches, SameDims, KeepsMapped, NoObjects, OnlyCache, CacheGone, Grown,
      EnoughFree, MinFree, FaultIn, Faulted;
    ghost var m0 := k.St();
    ghost var x := Keeping(m0);
    KeepAll(m0, UserRanges(m0).Keys);
    GrowFacts(m0, NOTHING, c);
    MappedInternal(m0);
    ok, fault := k.CacheGrow(c, x);
    ghost var m1 := k.St();
    if fault {
      FaultedHere(m0, m1, x, c);
      return;
    }
    AllKept(m0, m1, x);
    DimsKeep(m0, m1);
    if ok {
      FirstEnough(m0, m1, c);
    } else {
      NoneStill(m0, m1, c);
      var ret := CacheDestroy(k, Some(c));
      GoneFrom(m0, m1, k.St(), c);
      EnoughGone(m0, k.St(), c);
      KeepsMappedTrans(m0, m1, k.St());
    }
  }

  lemma FirstEnough(m: Mem, m': Mem, c: CacheId)
    requires SameDims(m, m') && Inv(m, NOTHING) && c >= 2 && c in m.caches && Grown(m, m', c)
    ensures EnoughFree(m, {c}) ==> EnoughFree(m', {})
  {
    GrowFacts(m, NOTHING, c);
    CountedCache(m, NOTHING, c);
    hide Inv, EnoughFree, UserCaches;
    EnoughOthers(m, m', c);
  }

  lemma GoneFrom(m0: Mem, m1: Mem, m: Mem, c: CacheId)
    requires SameUser(m0, m1) && SameDims(m0, m1) && UserCaches(m1.caches) == UserCaches(m0.caches)
    requires CACHE_CACHE in m0.caches && CacheGone(m1, m, c)
    ensures CacheGone(m0, m, c) && UserRanges(m1) == UserRanges(m) && UserObjects(m) == UserObjects(m0)
  {
    hide UserRanges, UserObjects;
    forall d | d in m0.caches && d >= 2 ensures m1.caches[d] == m0.caches[d] {
      assert UserCaches(m0.caches)[d] == m0.caches[d] && UserCaches(m1.caches)[d] == m1.caches[d];
    }
  }

  /**
   The first part of sos_kmem_cache_create: a structure for the cache, given back if there cannot be such a cache. The
   size of the objects may be one by which cache_initialize cannot divide.
   */
  method MakeCache(k: Allocator, objSize: int, pages: int, minFree: int, createMap: bool)
    returns (r: Option<CacheId>, trap: Trap)
    requires Inv(k.St(), NOTHING) && 2 <= Reserve(k.St())
    requires 0 <= objSize < WORD && 0 <= pages < WORD && 0 <= minFree < WORD
    modifies k
    ensures !trap.PageFault? && (trap.DivideError? ==> r.None? && objSize > WORD - 4 && pages <= MAX_PAGES_PER_SLAB)
    ensures trap.DivideError? ==> exists a :: Inv(k.St(), Hold(NOTHING, CACHE_CACHE, a))
    ensures UserObjects(k.St()) == old(UserObjects(k.St())) && UserRanges(k.St()) == old(UserRanges(k.St()))
    ensures trap.NoTrap? ==> Inv(k.St(), NOTHING) && 2 <= Reserve(k.St()) && KeepsCaches(old(k.St()), k.St())
    ensures trap.NoTrap? ==> KeepsMapped(old(k.St()), k.St())
    ensures r.None? ==> k.caches.Keys == old(k.caches).Keys
    ensures r.Some? ==>
      && r.value > CACHE_CACHE && r.value !in old(k.caches) && k.caches.Keys == old(k.caches).Keys + {r.value}
      && NoObjects(k.St(), r.value) && EmptyCache(k.caches[r.value], r.value, objSize, pages, minFree, createMap)
    ensures Rejected(objSize, pages, minFree) ==> r.None?
    ensures old(k.refused) <= k.refused && (r.Some? ==> k.refused == old(k.refused))
    ensures trap.NoTrap? && r.None? && old(MinFree(k.St(), CACHE_CACHE)) ==>
      Rejected(objSize, pages, minFree) || k.refused > old(k.refused) || Lacks(old(k.St()), CACHE_CACHE)
    ensures old(Plenty(k.St(), CACHE_CACHE)) ==>
      && k.refused == old(k.refused) && (trap.NoTrap? && r.None? ==> Rejected(objSize, pages, minFree))
      && (r.Some? ==> TookOne(old(k.St()), k.St()))
    ensures OneGrowth(old(k.grown), k.grown, old(Reserve(k.St())), Reserve(k.St()), r.Some?, 6, 4)
    ensures trap.NoTrap? && EnoughFree(old(k.St()), {}) ==> EnoughFree(k.St(), if r.Some? then {r.value} else {})
  {
    hide EnoughFree;
    hide Inv, UserRanges, UserObjects, UserCaches, SameDims, KeepsMapped, OnlyCache, Grown, PushedOnly, MinFree,
      NoObjects, AllocSize, FaultIn, LinksOk, Lacks;
    r, trap := None, NoTrap;
    ghost var m0 := k.St();
    MappedInternal(m0);
    ghost var x := Keeping(m0);
    KeepAll(m0, UserRanges(m0).Keys);
    var a, fault := k.CacheAlloc(CACHE_CACHE, x);
    ghost var m1 := k.St();
    DimsKeep(m0, m1);
    EnoughAfter(m0, m1, CACHE_CACHE);
    if a.None? {
      AllKept(m0, m1, x);
      return;
    }
    ghost var y := Hold(x, CACHE_CACHE, a.value);
    HeldName(m1, x, a.value);
    var i := CacheInitialize(a.value, objSize, pages, minFree, createMap, false);
    RejectedExactly(objSize, pages, minFree);
    if !i.Accepted? {
      if i.DivideError? {
        DropMapped(m1, y, Hold(NOTHING, CACHE_CACHE, a.value));
        trap := Trap.DivideError;
        return;
      }
      HeldIsHome(m1, x, CACHE_CACHE, a.value);
      HomeCounted(m1, y, a.value);
      NotUser(m1, a.value);
      var ret := k.CacheFree(a.value, y);
      AllKept(m0, k.St(), x);
      EnoughFreed(m1, k.St(), y, a.value);
      SteadyFacts(m1, k.St(), 0);
      SameDimsTrans(m0, m1, k.St());
      DimsKeep(m0, k.St());
      return;
    }
    NoneOfNew(m1, y, a.value);
    WithCacheKeeps(m1, x, a.value, i.cache);
    k.caches := k.caches[a.value := i.cache];
    AllKept(m0, k.St(), x);
    WithCacheCaches(m0, m1, a.value, i.cache);
    NoneStill(m1, k.St(), a.value);
    EnoughWith(m1, a.value, i.cache);
    if Plenty(m0, CACHE_CACHE) { TookIt(m0, x, m1, a, i.cache); }
    r := a;
  }

  /** One object of the cache of caches was taken, without a new slab. */
  predicate TookOne(m: Mem, m': Mem) {
    && m'.ranges == m.ranges && m'.freeList == m.freeList
    && CACHE_CACHE in m.caches && CACHE_CACHE in m'.caches
    && m'.caches[CACHE_CACHE].nbFree == m.caches[CACHE_CACHE].nbFree - 1
    && m'.caches[CACHE_CACHE].minFree == m.caches[CACHE_CACHE].minFree
  }

  lemma TookIt(m0: Mem, x: Flight, m1: Mem, a: Option<Ptr>, k: Cache)
    requires Inv(m0, x) && Popped(m0, m1, CACHE_CACHE, a) && a.value > CACHE_CACHE
    ensures TookOne(m0, WithCache(m1, a.value, k))
  {
    hide Inv, SlabOk;
    GrowFacts(m0, x, CACHE_CACHE);
    PopKeeps(m0, x, CACHE_CACHE);
    PopShape(m0, x, CACHE_CACHE);
    DimsOf(m0, m1, CACHE_CACHE);
    hide PopObject, SameDims;
  }

  lemma MappedInternal(m: Mem)
    requires Inv(m, NOTHING)
    ensures CACHE_CACHE in m.caches && m.caches[CACHE_CACHE].createMap
  {
    hide RangesOk, MappedOk, HomeOk, SlabRangesOk, LinksOk;
  }

  /** The structure just taken for a cache lies in the kernel area, and names no cache yet. */
  lemma HeldName(m: Mem, x: Flight, a: Ptr)
    requires Inv(m, Hold(x, CACHE_CACHE, a)) && a !in x.heldCaches
    ensures a > CACHE_CACHE && a !in m.caches
  {
    hide RangesOk, MappedOk, SlabsOk, HomeOk, SlabRangesOk, IsOffSlab, Structs, Named;
    assert AllocatedFrom(m, CACHE_CACHE, a);
    ObjectsAreHigh(m, Hold(x, CACHE_CACHE, a), a);
    hide AllocatedFrom;
    CacheSide(m, Hold(x, CACHE_CACHE, a));
    FreshName(m, x, a);
  }

  /** Dimensions for which sos_kmem_cache_create gives no cache, whatever the memory. */
  predicate Rejected(objSize: int, pages: int, minFree: int) {
    objSize == 0 || AllocSize(objSize) > pages * PAGE_SIZE || pages > MAX_PAGES_PER_SLAB
    || minFree * AllocSize(objSize) > pages * PAGE_SIZE - (if AllocSize(objSize) <= SLAB_STRUCT_SIZE
        then SLAB_STRUCT_SIZE else 0)
  }

  lemma RejectedExactly(objSize: int, pages: int, minFree: int)
    requires 0 <= objSize && 0 <= pages
    ensures objSize > WORD - 4 ==> Rejected(objSize, pages, minFree)
  {
    if objSize > WORD - 4 { SizeFacts(objSize); }
  }

  lemma WithCacheCaches(m0: Mem, m1: Mem, a: CacheId, k: Cache)
    requires SameDims(m0, m1) && a !in m1.caches
    ensures a !in m0.caches && KeepsCaches(m0, WithCache(m1, a, k))
    ensures WithCache(m1, a, k).caches.Keys == m0.caches.Keys + {a}
  {}

  lemma EnoughWith(m: Mem, c: CacheId, k: Cache)
    requires c !in m.caches
    ensures EnoughFree(m, {}) ==> EnoughFree(WithCache(m, c, k), {c})
  {
    if EnoughFree(m, {}) {
      forall d | d in m.caches && d >= 2 ensures MinFree(WithCache(m, c, k), d) { assert MinFree(m, d); }
    }
  }

  predicate EmptyCache(k: Cache, at: Ptr, objSize: int, pages: int, minFree: int, createMap: bool) {
    && k.at == at && k.originalSize == objSize <= k.objSize && k.nbPages == pages && k.minFree == minFree <= k.nbObjects
    && k.createMap == createMap && k.nbFree == 0 && k.slabList == []
  }

  lemma EnoughZero(m: Mem, c: CacheId)
    requires c in m.caches && m.caches[c].nbFree >= m.caches[c].minFree
    ensures EnoughFree(m, {c}) ==> EnoughFree(m, {})
  {
    if EnoughFree(m, {c}) {
      forall d | d in m.caches && d >= 2 ensures MinFree(m, d) { if d != c { assert d !in {c}; } }
    }
  }

  /**
   sos_kmem_cache_create. It gives the name of a new cache of objects of that size, with one slab if it must keep a
   minimum of free objects, or leaves the caches and their objects as they were: the structure it took for a cache that
   cannot be is given back. A cache whose first slab cannot be had is destroyed again, but stays listed. `trap`: the CPU
   takes an exception, because the size is one that wraps around to zero, or because the first slab is not mapped.
   */
  method CacheCreate(k: Allocator, l: CacheList, objSize: int, pages: int, minFree: int, createMap: bool)
    returns (r: Option<CacheId>, trap: Trap)
    requires Inv(k.St(), NOTHING) && 2 <= Reserve(k.St())
    requires 0 <= objSize < WORD && 0 <= pages < WORD && 0 <= minFree < WORD
    modifies k, l
    ensures trap.DivideError? ==> r.None? && objSize > WORD - 4 && pages <= MAX_PAGES_PER_SLAB
    ensures trap.DivideError? ==> exists a :: Inv(k.St(), Hold(NOTHING, CACHE_CACHE, a))
    ensures trap.PageFault? ==> r.None? && !createMap && minFree > 0 && Faulted(k.St())
    ensures UserObjects(k.St()) == old(UserObjects(k.St()))
    ensures trap.NoTrap? ==> Inv(k.St(), NOTHING) && 2 <= Reserve(k.St()) && KeepsCaches(old(k.St()), k.St())
    ensures trap.NoTrap? ==> UserRanges(k.St()) == old(UserRanges(k.St())) && KeepsMapped(old(k.St()), k.St())
    ensures trap.NoTrap? && r.None? ==> k.caches.Keys == old(k.caches).Keys
    ensures r.Some? ==>
      && r.value > CACHE_CACHE && r.value !in old(k.caches) && k.caches.Keys == old(k.caches).Keys + {r.value}
      && NewCache(k.caches[r.value], r.value, objSize, pages, minFree, createMap) && l.all == old(l.all) + [r.value]
    ensures Rejected(objSize, pages, minFree) || (!createMap && minFree > 0) ==> r.None?
    ensures old(k.refused) <= k.refused && (r.Some? ==> k.refused == old(k.refused))
    ensures old(Plenty(k.St(), CACHE_CACHE)) && trap.NoTrap? && r.None? ==>
      Rejected(objSize, pages, minFree)
        || (minFree > 0 && (k.refused > old(k.refused) || LacksFirst(old(k.St()), pages)))
    ensures old(Plenty(k.St(), CACHE_CACHE)) && minFree == 0 && r.Some? ==> TookOne(old(k.St()), k.St())
    ensures trap.NoTrap? ==> old(k.grown) <= k.grown <= old(k.grown) + 1
    ensures trap.NoTrap? && old(l.Live(k.St())) ==> (l.Live(k.St()) <==> r.Some? || l.all == old(l.all))
    ensures trap.NoTrap? && EnoughFree(old(k.St()), {}) ==> EnoughFree(k.St(), {})
  {
    hide EnoughFree, MinFree, Rejected;
    hide Inv, UserRanges, UserObjects, SameDims, KeepsMapped, Grown, CacheGone, NoObjects, AllocSize, KeepsCaches,
      Faulted, Lacks, LacksFirst;
    ghost var m0 := k.St();
    r, trap := MakeCache(k, objSize, pages, minFree, createMap);
    if r.None? { return; }
    l.all := l.all + [r.value];
    if minFree > 0 {
      ghost var m := k.St();
      var ok, fault := Preallocate(k, r.value);
      if fault { return None, PageFault; }
      KeepsMappedTrans(m0, m, k.St());
      if ok {
        FirstSlab(m0, m, k.St(), r.value);
      } else {
        NothingNew(m0, m, k.St(), r.value);
        if Plenty(m0, CACHE_CACHE) { FirstLacks(m0, m, r.value, pages); }
        assert r.value in l.all;
        r := None;
      }
    } else {
      EnoughZero(k.St(), r.value);
    }
  }

  /** No free range has the pages that the first slab of a cache may take. */
  ghost predicate LacksFirst(m: Mem, pages: int) {
    KSLAB_CACHE in m.caches && !HasFree(m, pages + m.caches[KSLAB_CACHE].nbPages + 1)
  }

  lemma FirstLacks(m0: Mem, m: Mem, c: CacheId, pages: int)
    requires TookOne(m0, m) && KeepsCaches(m0, m) && Inv(m0, NOTHING)
    requires c in m.caches && m.caches[c].nbPages == pages
    ensures Lacks(m, c) ==> LacksFirst(m0, pages)
  {
    hide Inv, HasFree;
    InternalMin(m0, NOTHING);
    PagesWanted(m0, NOTHING, KSLAB_CACHE);
    HasFreeLess(m, pages, pages + m0.caches[KSLAB_CACHE].nbPages + 1);
    HasFreeSame(m0, m, pages + m0.caches[KSLAB_CACHE].nbPages + 1);
  }

  /** What sos_kmem_cache_create promises of a new cache. */
  predicate NewCache(k: Cache, at: Ptr, objSize: int, pages: int, minFree: int, createMap: bool) {
    && k.at == at && k.originalSize == objSize <= k.objSize && k.nbPages == pages && k.minFree == minFree
    && k.createMap == createMap && k.nbFree >= minFree
    && (if minFree > 0 then |k.slabList| == 1 && k.nbFree == k.nbObjects else k.slabList == [])
  }

  lemma FirstSlab(m0: Mem, m: Mem, m': Mem, c: CacheId)
    requires KeepsCaches(m0, m) && SameDims(m, m') && c in m.caches && c >= 2 && Grown(m, m', c)
    ensures KeepsCaches(m0, m') && c in m'.caches && m'.caches.Keys == m.caches.Keys
    ensures m'.caches[c].nbFree == m.caches[c].nbFree + m.caches[c].nbObjects
    ensures |m'.caches[c].slabList| == |m.caches[c].slabList| + 1
    ensures m'.caches[c] == m.caches[c].(nbFree := m'.caches[c].nbFree, slabList := m'.caches[c].slabList)
  {
    hide UserCaches;
  }

  lemma NothingNew(m0: Mem, m: Mem, m': Mem, c: CacheId)
    requires KeepsCaches(m0, m) && c !in m0.caches && m.caches.Keys == m0.caches.Keys + {c} && CacheGone(m, m', c)
    ensures KeepsCaches(m0, m') && m'.caches.Keys == m0.caches.Keys && UserObjects(m') == UserObjects(m)
    ensures UserRanges(m') == UserRanges(m)
  {
    hide UserObjects, UserRanges;
  }

  /** Destroying a cache leaves it in the list of caches. */
  lemma DestroyedStays(l: CacheList, m: Mem, m': Mem, c: CacheId)
    requires l.Live(m) && CacheGone(m, m', c)
    ensures l.Live(m') <==> c !in l.all
  {
    hide UserObjects, UserRanges;
  }

  lemma DimsKeep(m: Mem, m': Mem)
    requires SameDims(m, m')
    ensures KeepsCaches(m, m') && m'.caches.Keys == m.caches.Keys
  {}

  /**
   The first allocation from a cache of 64-byte objects created without mapping never gives an object: unless there is
   no memory, the CPU takes a page fault in it.
   */
  method UnmappedCache(k: Allocator, l: CacheList) returns (c: Option<CacheId>, obj: Option<Ptr>, fault: bool)
    requires Inv(k.St(), NOTHING) && 2 <= Reserve(k.St())
    modifies k, l
    ensures obj.None? && (fault ==> c.Some? && Faulted(k.St()))
    ensures old(Plenty(k.St(), CACHE_CACHE)) && !LacksFirst(old(k.St()), 1) && k.refused == old(k.refused) ==> fault
  {
    hide Inv, FaultIn, Faulted, HasFree, Lacks, LacksFirst;
    ghost var m0 := k.St();
    obj, fault := None, false;
    var trap;
    c, trap := CacheCreate(k, l, 64, 1, 0, false);
    if c.None? { return; }
    ghost var m := k.St();
    if Plenty(m0, CACHE_CACHE) { FirstLacks(m0, m, c.value, 1); }
    obj, fault := k.CacheAlloc(c.value, NOTHING);
    if fault { FaultedHere(m, k.St(), NOTHING, c.value); }
  }

  // ---------------------------------------------------------------- the size classes of kmalloc

  /** The entries of the kmalloc table filled in so far. */
  ghost predicate TablePrefix(m: Mem, table: seq<SizeClass>) {
    |table| <= |SIZES| && forall i :: 0 <= i < |table| ==> EntryOk(m, table[i], SIZES[i])
  }

  lemma PrefixKept(m: Mem, m': Mem, table: seq<SizeClass>)
    requires TablePrefix(m, table) && KeepsCaches(m, m')
    ensures TablePrefix(m', table)
  {}

  /** The cache of caches has `n` free structures to give, without growing. */
  predicate Structures(m: Mem, n: int) {
    CACHE_CACHE in m.caches && 0 <= m.caches[CACHE_CACHE].minFree
    && m.caches[CACHE_CACHE].nbFree >= m.caches[CACHE_CACHE].minFree + n
  }

  /** The slabs of all size classes are large enough. */
  lemma ClassSizes(i: nat)
    requires i < |SIZES|
    ensures !Rejected(SIZES[i], PAGES[i], 0)
  {}

  /**
   sos_kmalloc_subsystem_setup: none if a cache cannot be created, where the source halts. It does not halt with as many
   free structures of caches as there are size classes, which the boot leaves.
   */
  method KmallocSetup(k: Allocator, l: CacheList) returns (table: Option<seq<SizeClass>>)
    requires Inv(k.St(), NOTHING) && 2 <= Reserve(k.St())
    modifies k, l
    ensures Inv(k.St(), NOTHING) && 2 <= Reserve(k.St())
    ensures table.Some? ==> TableOk(k.St(), table.value)
    ensures Structures(old(k.St()), |SIZES|) ==> table.Some?
  {
    hide Inv, UserRanges, UserObjects;
    var t: seq<SizeClass> := [];
    var i := 0;
    while i < |SIZES|
      invariant 0 <= i == |t| <= |SIZES| && TablePrefix(k.St(), t)
      invariant Inv(k.St(), NOTHING) && 2 <= Reserve(k.St())
      invariant Structures(old(k.St()), |SIZES|) ==> Structures(k.St(), |SIZES| - i)
    {
      ClassSizes(i);
      hide TablePrefix, KeepsCaches;
      ghost var m := k.St();
      var c, trap := CacheCreate(k, l, SIZES[i], PAGES[i], 0, true);
      if c.None? { return None; }
      PrefixKept(m, k.St(), t);
      PrefixGrows(k.St(), t, SizeClass(SIZES[i], PAGES[i], c.value));
      t := t + [SizeClass(SIZES[i], PAGES[i], c.value)];
      i := i + 1;
    }
    table := Some(t);
  }

  lemma PrefixGrows(m: Mem, table: seq<SizeClass>, e: SizeClass)
    requires TablePrefix(m, table) && |table| < |SIZES| && EntryOk(m, e, SIZES[|table|])
    ensures TablePrefix(m, table + [e])
  {}
}
