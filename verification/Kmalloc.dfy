/**
 os/kmalloc.c: blocks of any size, from the smallest size class that is large enough or as whole pages.
 */
module Kmalloc {
  import opened KmemState
  import opened KmemGeometry
  import opened KmemRangeSteps
  import opened KmemSlabSteps
  import opened KmemFacts
  import opened Kmem

  /** One entry of the kmalloc_cache table. */
  datatype SizeClass = SizeClass(objectSize: int, pagesPerSlab: int, cache: CacheId)

  /** The sizes and slab sizes of the table, in order. */
  const SIZES: seq<int> := [8, 16, 32, 64, 128, 256, 1024, 2048, 4096, 8192, 16384]
  const PAGES: seq<int> := [1, 1, 1, 1, 1, 2, 2, 3, 4, 8, 12]

  predicate EntryOk(m: Mem, e: SizeClass, size: int) {
    e.objectSize == size && e.cache > CACHE_CACHE && e.cache in m.caches
    && m.caches[e.cache].originalSize == size && m.caches[e.cache].createMap
  }

  /** The table is filled in: each entry names a cache of its size whose slabs are mapped. */
  ghost predicate TableOk(m: Mem, table: seq<SizeClass>) {
    && |table| == |SIZES|
    && (forall i :: 0 <= i < |table| ==> EntryOk(m, table[i], SIZES[i]))
  }

  /** The smallest class that holds `size` bytes, if any. */
  predicate IsClass(table: seq<SizeClass>, size: int, i: int) {
    0 <= i < |table| && size <= table[i].objectSize && forall j :: 0 <= j < i ==> table[j].objectSize < size
  }

  /** Bytes rounded up to pages as SOS_PAGE_ALIGN_SUP does on 32-bit words. */
  function PagesFor(size: int): int { (((size - 1) % WORD / PAGE_SIZE * PAGE_SIZE + PAGE_SIZE) % WORD) / PAGE_SIZE }

  /** What a caller got: an object of the right class, of `size` bytes at least, or whole mapped pages. */
  ghost predicate BlockGiven(table: seq<SizeClass>, m: Mem, m': Mem, size: int, a: Ptr) {
    if size <= SIZES[|SIZES| - 1]
    then UserRanges(m') == UserRanges(m) && a !in UserObjects(m)
         && (exists i :: IsClass(table, size, i) && UserObjects(m') == UserObjects(m)[a := table[i].cache])
         && a in UserObjects(m') && UserObjects(m')[a] in m'.caches && m'.caches[UserObjects(m')[a]].objSize >= size
    else UserObjects(m') == UserObjects(m) && GivenAt(m, m', a, PagesFor(size), true)
  }

  /** The objects of cache `c` have the smallest of the sizes that holds `size` bytes. */
  predicate LeastClass(m: Mem, c: CacheId, size: int) {
    c in m.caches && m.caches[c].originalSize in SIZES && size <= m.caches[c].originalSize
    && forall s :: s in SIZES && size <= s ==> m.caches[c].originalSize <= s
  }

  /** The block holds `size` bytes, and no smaller block of its kind would. */
  ghost predicate Fits(m: Mem, m': Mem, size: int, a: Ptr) {
    if size <= SIZES[|SIZES| - 1]
    then a in UserObjects(m') && LeastClass(m', UserObjects(m')[a], size)
    else exists nb :: GivenAt(m, m', a, nb, true) && (nb - 1) * PAGE_SIZE < size <= nb * PAGE_SIZE
  }

  /**
   With physical pages at hand, there is no block only for want of a free range that is large enough, or for a size that
   wraps around.
   */
  ghost predicate NoBlock(table: seq<SizeClass>, m: Mem, size: int) {
    if size <= SIZES[|SIZES| - 1]
    then forall i :: IsClass(table, size, i) && MinFree(m, table[i].cache) ==> Lacks(m, table[i].cache)
    else size > WORD - PAGE_SIZE || forall nb :: (nb - 1) * PAGE_SIZE < size <= nb * PAGE_SIZE ==> !HasFree(m, nb)
  }

  lemma ClassIsLeast(m: Mem, table: seq<SizeClass>, size: int, i: int)
    requires TableOk(m, table) && IsClass(table, size, i)
    ensures LeastClass(m, table[i].cache, size)
  {
    assert EntryOk(m, table[i], SIZES[i]);
    forall s | s in SIZES && size <= s ensures SIZES[i] <= s {
      var j :| 0 <= j < |SIZES| && SIZES[j] == s;
      assert EntryOk(m, table[j], SIZES[j]);
      assert i <= j;
      Rising(i, j);
    }
  }

  lemma Rising(i: nat, j: nat)
    requires i <= j < |SIZES|
    ensures SIZES[i] <= SIZES[j]
  {}

  lemma OneClass(table: seq<SizeClass>, size: int, i: int, j: int)
    requires IsClass(table, size, i) && IsClass(table, size, j)
    ensures i == j
  {}

  lemma ClassLacks(table: seq<SizeClass>, m: Mem, size: int, i: int)
    requires TableOk(m, table) && IsClass(table, size, i) && (MinFree(m, table[i].cache) ==> Lacks(m, table[i].cache))
    ensures NoBlock(table, m, size)
  {
    assert EntryOk(m, table[i], SIZES[i]);
    Rising(i, |SIZES| - 1);
    hide Lacks, MinFree;
    if size <= SIZES[|SIZES| - 1] {
      forall j | IsClass(table, size, j) ensures j == i { OneClass(table, size, i, j); }
    }
  }

  lemma PagesFit(m: Mem, m': Mem, table: seq<SizeClass>, size: int, a: Option<Ptr>, refused: bool)
    requires SIZES[|SIZES| - 1] < size < WORD
    requires a.Some? <==> 1 <= PagesFor(size) && HasFree(m, PagesFor(size)) && !refused
    requires a.Some? ==> GivenAt(m, m', a.value, PagesFor(size), true)
    ensures a.Some? ==> Fits(m, m', size, a.value)
    ensures a.None? ==> refused || NoBlock(table, m, size)
  {
    PagesHold(size);
    hide GivenAt, HasFree;
    forall nb | (nb - 1) * PAGE_SIZE < size <= nb * PAGE_SIZE && size <= WORD - PAGE_SIZE
      ensures nb == PagesFor(size) {}
  }

  /** What sos_kmalloc promises of its result, with physical pages at hand unless `refused`. */
  ghost predicate Served(table: seq<SizeClass>, m: Mem, m': Mem, size: int, a: Option<Ptr>, refused: bool) {
    match a
    case None => SameUser(m, m') && (refused || NoBlock(table, m, size))
    case Some(b) => BlockGiven(table, m, m', size, b) && Fits(m, m', size, b) && !refused
  }

  /** The loop body of sos_kmalloc, for the class that fits. */
  method FromClass(k: Allocator, table: seq<SizeClass>, size: int, i: int) returns (a: Option<Ptr>)
    requires Inv(k.St(), NOTHING) && 2 <= Reserve(k.St()) && TableOk(k.St(), table) && IsClass(table, size, i)
    modifies k
    ensures Inv(k.St(), NOTHING) && 2 <= Reserve(k.St()) && TableOk(k.St(), table)
    ensures Served(table, old(k.St()), k.St(), size, a, k.refused > old(k.refused)) && old(k.refused) <= k.refused
    ensures old(Plenty(k.St(), table[i].cache)) ==> Popped(old(k.St()), k.St(), table[i].cache, a)
    ensures KeepsMapped(old(k.St()), k.St()) && old(k.grown) <= k.grown <= old(k.grown) + 1
    ensures EnoughFree(old(k.St()), {}) ==> EnoughFree(k.St(), {})
  {
    hide Inv, UserRanges, UserObjects, UserCaches, SameDims, KeepsMapped, EnoughFree, MinFree, OnlyCache, Lacks,
      NoBlock,
      LeastClass, Plenty, Popped;
    ghost var m0 := k.St();
    ghost var x := Keeping(m0);
    KeepAll(m0, UserRanges(m0).Keys);
    ghost var c := table[i].cache;
    assert EntryOk(m0, table[i], SIZES[i]);
    Rising(i, |SIZES| - 1);
    var fault;
    a, fault := k.CacheAlloc(table[i].cache, x);
    AllKept(m0, k.St(), x);
    TableKept(m0, k.St(), table);
    ClassHolds(k.St(), c);
    ClassIsLeast(k.St(), table, size, i);
    EnoughAfter(m0, k.St(), c);
    if a.None? && k.refused == old(k.refused) { ClassLacks(table, m0, size, i); }
    assert EntryOk(k.St(), table[i], SIZES[i]);
  }

  /** The end of sos_kmalloc. */
  method FromPages(k: Allocator, table: seq<SizeClass>, size: int) returns (a: Option<Ptr>)
    requires Inv(k.St(), NOTHING) && 2 <= Reserve(k.St()) && TableOk(k.St(), table)
    requires SIZES[|SIZES| - 1] < size < WORD
    modifies k
    ensures Inv(k.St(), NOTHING) && 2 <= Reserve(k.St()) && TableOk(k.St(), table)
    ensures Served(table, old(k.St()), k.St(), size, a, k.refused > old(k.refused)) && old(k.refused) <= k.refused
    ensures KeepsMapped(old(k.St()), k.St()) && old(k.grown) <= k.grown <= old(k.grown) + 1
    ensures EnoughFree(old(k.St()), {}) ==> EnoughFree(k.St(), {})
    ensures size > WORD - PAGE_SIZE ==> a.None?
  {
    hide Inv, UserRanges, UserObjects, UserCaches, SameDims, GivenAt, KeepsMapped, EnoughFree, HasFree;
    ghost var m0 := k.St();
    a := k.VmmAlloc(PagesFor(size), true);
    PagesHold(size);
    PagesFit(m0, k.St(), table, size, a, k.refused > old(k.refused));
    EnoughSame(m0, k.St());
    TableKept(m0, k.St(), table);
  }

  /** sos_kmalloc. */
  method Malloc(k: Allocator, table: seq<SizeClass>, size: int) returns (a: Option<Ptr>)
    requires Inv(k.St(), NOTHING) && 2 <= Reserve(k.St()) && TableOk(k.St(), table) && 0 <= size < WORD
    modifies k
    ensures Inv(k.St(), NOTHING) && 2 <= Reserve(k.St()) && TableOk(k.St(), table)
    ensures Served(table, old(k.St()), k.St(), size, a, k.refused > old(k.refused)) && old(k.refused) <= k.refused
    ensures forall i :: IsClass(table, size, i) && old(Plenty(k.St(), table[i].cache)) ==>
      Popped(old(k.St()), k.St(), table[i].cache, a)
    ensures size > WORD - PAGE_SIZE ==> a.None?
    ensures KeepsMapped(old(k.St()), k.St()) && old(k.grown) <= k.grown <= old(k.grown) + 1
    ensures EnoughFree(old(k.St()), {}) ==> EnoughFree(k.St(), {})
  {
    hide Inv, UserRanges, UserObjects, KeepsMapped, EnoughFree, Served, Plenty, Popped;
    ghost var m0 := k.St();
    var i := 0;
    while i < |table|
      invariant 0 <= i <= |table|
      invariant forall j :: 0 <= j < i ==> table[j].objectSize < size
    {
      if table[i].objectSize >= size {
        assert IsClass(table, size, i);
        assert size <= SIZES[i];
        forall j | IsClass(table, size, j) ensures j == i { OneClass(table, size, i, j); }
        a := FromClass(k, table, size, i);
        Rising(i, |SIZES| - 1);
        return;
      }
      i := i + 1;
    }
    assert table[|table| - 1].objectSize == SIZES[|SIZES| - 1];
    a := FromPages(k, table, size);
  }

  /**
   sos_kfree: the address is first taken for an object, then for the start of a range. It must not be an
   object that is already free, nor one of the allocator's own structures.
   */
  method Free(k: Allocator, table: seq<SizeClass>, a: Ptr) returns (ret: Ret)
    requires Inv(k.St(), NOTHING) && 2 <= Reserve(k.St()) && TableOk(k.St(), table)
    requires a in UserObjects(k.St()) || (a !in k.home && NotFreeObject(k.St(), a))
    modifies k
    ensures Inv(k.St(), NOTHING) && 2 <= Reserve(k.St()) && TableOk(k.St(), table)
    ensures a in old(UserObjects(k.St())) ==>
      ret == OK && UserObjects(k.St()) == old(UserObjects(k.St())) - {a}
        && UserRanges(k.St()) == old(UserRanges(k.St())) && SlabSettled(old(k.St()), k.St(), a)
    ensures a !in old(UserObjects(k.St())) ==> UserObjects(k.St()) == old(UserObjects(k.St()))
    ensures a !in old(UserObjects(k.St())) && ret == OK ==>
      exists n :: StartsAt(old(k.St()), n, a) && UserRanges(k.St()) == old(UserRanges(k.St())) - {n}
        && PagesFree(k.St(), old(k.ranges)[n])
    ensures ret != OK ==> k.St() == old(k.St())
    ensures ret == Halted <==> Unowned(old(k.St()).pages, PageOf(a))
    ensures KeepsMapped(old(k.St()), k.St()) && k.grown == old(k.grown)
    ensures EnoughFree(old(k.St()), {}) ==> EnoughFree(k.St(), {})
    ensures ret == OK
      <==> a in old(UserObjects(k.St())) || exists n :: StartsAt(old(k.St()), n, a) && n in UserRanges(old(k.St()))
  {
    hide Inv, UserRanges, UserCaches, SameDims, IsObject, Steady, KeepsMapped, EnoughFree, MinFree,
      OnlyCache, PushedOnly, SlabSettled, PagesFree;
    ghost var m0 := k.St();
    ghost var x := Keeping(m0);
    KeepAll(m0, UserRanges(m0).Keys);
    if a in k.home { UserObjectFacts(m0, a); HomeOwned(m0, NOTHING, a); }
    ret := k.CacheFree(a, x);
    if a in m0.home { EnoughFreed(m0, k.St(), NOTHING, a); }
    AllKept(m0, k.St(), x);
    SteadyFacts(m0, k.St(), if AllocatedFrom(m0, RANGE_CACHE, a) then 1 else 0);
    TableKept(m0, k.St(), table);
    if ret == OK { return; }
    if ret == Halted {
      StartsOwned(m0, a);
      return;
    }
    ghost var m1 := k.St();
    ret := k.VmmFree(a);
    EnoughSame(m1, k.St());
    TableKept(m1, k.St(), table);
  }

  lemma EnoughFreed(m: Mem, m': Mem, x: Flight, a: Ptr)
    requires Inv(m, x) && a in m.home && m.home[a] in m.slabs && m.slabs[m.home[a]].cache >= 2 && PushedOnly(m, m', a)
    ensures EnoughFree(m, {}) ==> EnoughFree(m', {})
  {
    HomeCounted(m, x, a);
    PushedCaches(m, m', a);
    hide Inv, PushedOnly, OnlyCache, UserCaches;
    EnoughAfter(m, m', m.slabs[m.home[a]].cache);
  }

  lemma TableKept(m: Mem, m': Mem, table: seq<SizeClass>)
    requires TableOk(m, table) && SameDims(m, m')
    ensures TableOk(m', table)
  {}

  /** Where a range starts, the lookup does not halt. */
  lemma StartsOwned(m: Mem, a: Ptr)
    requires Inv(m, NOTHING) && Unowned(m.pages, PageOf(a))
    ensures forall n :: !StartsAt(m, n, a)
  {
    AreaOwned(m, NOTHING, PageOf(a));
    hide MappedOk, SlabsOk, HomeOk, SlabRangesOk, LinksOk;
    RangesUnfold(m, NOTHING);
    hide PlacesOk, Apart, TileOk, SortedUsed, SortedFree;
  }

  /** The objects of a cache are as large as it was created for. */
  lemma ClassHolds(m: Mem, c: CacheId)
    requires Inv(m, NOTHING) && c in m.caches
    ensures m.caches[c].originalSize <= m.caches[c].objSize
  {
    assert CacheOk(m, c);
  }

  lemma UserObjectFacts(m: Mem, a: Ptr)
    requires a in UserObjects(m)
    ensures a in m.home && !AllocatedFrom(m, RANGE_CACHE, a)
    ensures forall x: Flight :: MayFree(m, x, a) && Unhold(x, m.slabs[m.home[a]].cache, a) == x
  {}

  /** A block of pages handed out by Malloc is not an object, so Free gives back the very range it came from. */
  lemma PagesRoundTrip(m: Mem, m': Mem, a: Ptr, nb: int)
    requires Inv(m', NOTHING) && GivenAt(m, m', a, nb, true)
    ensures a !in m'.home && NotFreeObject(m', a)
    ensures exists n :: Given(m, m', n, nb) && StartsAt(m', n, a) && n in UserRanges(m')
                        && UserRanges(m') - {n} == UserRanges(m)
  {
    hide Inv, UserRanges, AllMapped;
    var n :| Given(m, m', n, nb) && m'.ranges[n].base * PAGE_SIZE == a && 1 <= nb && AllMapped(m', n);
    GivenMinus(m, m', n, nb);
    UserRangeFacts(m', NOTHING, n);
    RangeAddressIsNoObject(m', n, a);
    assert StartsAt(m', n, a);
  }

  /**
   The pages asked for hold the bytes asked for, exactly unless rounding up wraps around; then there are none. They are
   the fewest that do.
   */
  lemma PagesHold(size: int)
    requires SIZES[|SIZES| - 1] < size < WORD
    ensures PagesFor(size) * PAGE_SIZE >= size <==> size <= WORD - PAGE_SIZE
    ensures size > WORD - PAGE_SIZE ==> PagesFor(size) == 0
    ensures size <= WORD - PAGE_SIZE ==> (PagesFor(size) - 1) * PAGE_SIZE < size
  {}
}
