/**
 The primitive updates os/kmem_vmm.c makes to the range lists (moving, splitting, unlinking,
 freeing and merging ranges) and what each keeps of the allocator's invariants.
 */
module KmemRangeSteps {
  import opened KmemState
  import opened KmemGeometry

  function InsertAt(l: seq<Ptr>, k: nat, e: Ptr): seq<Ptr>
    requires k <= |l|
  {
    l[..k] + [e] + l[k..]
  }

  function RemoveAt(l: seq<Ptr>, k: nat): seq<Ptr>
    requires k < |l|
  {
    l[..k] + l[k + 1..]
  }

  lemma InsertFacts(l: seq<Ptr>, k: nat, e: Ptr)
    requires k <= |l|
    ensures |InsertAt(l, k, e)| == |l| + 1
    ensures forall i :: 0 <= i <= |l| ==> InsertAt(l, k, e)[i] == if i < k then l[i] else if i == k then e else l[i - 1]
    ensures forall t :: t in InsertAt(l, k, e) <==> t == e || t in l
  {
    var w := InsertAt(l, k, e);
    forall t | t in l ensures t in w {
      var i :| 0 <= i < |l| && l[i] == t;
      assert w[if i < k then i else i + 1] == t;
    }
    assert w[k] == e;
  }

  lemma RemoveFacts(l: seq<Ptr>, k: nat)
    requires k < |l|
    ensures |RemoveAt(l, k)| == |l| - 1
    ensures forall i :: 0 <= i < |l| - 1 ==> RemoveAt(l, k)[i] == if i < k then l[i] else l[i + 1]
    ensures NoDup(l) ==> forall t :: t in RemoveAt(l, k) <==> t in l && t != l[k]
  {
    var w := RemoveAt(l, k);
    assert forall i :: 0 <= i < |l| - 1 ==> w[i] == if i < k then l[i] else l[i + 1];
    if NoDup(l) {
      forall t | t in l && t != l[k] ensures t in w {
        var i :| 0 <= i < |l| && l[i] == t;
        assert w[if i < k then i else i - 1] == t;
      }
    }
  }

  /** Where get_closest_preceding_kmem_range stops: the first range that starts after `p`. */
  ghost predicate IsPosition(m: Mem, l: seq<Ptr>, k: nat, p: int) {
    && k <= |l|
    && (forall i :: 0 <= i < k ==> l[i] in m.ranges && m.ranges[l[i]].base <= p)
    && (forall i :: k <= i < |l| ==> l[i] in m.ranges && p < m.ranges[l[i]].base)
  }

  lemma ListsDistinct(m: Mem, x: Flight)
    requires RangesOk(m, x)
    ensures NoDup(m.freeList) && NoDup(m.usedList)
  {
    hide BoundsOk, Apart, TileOk, End;
    forall i, j | 0 <= i < j < |m.freeList| ensures m.freeList[i] != m.freeList[j] {
      assert m.freeList[i] in m.freeList && m.freeList[j] in m.freeList;
    }
    forall i, j | 0 <= i < j < |m.usedList| ensures m.usedList[i] != m.usedList[j] {
      assert m.usedList[i] in m.usedList && m.usedList[j] in m.usedList;
    }
  }

  // ---------------------------------------------------------------- the slab side does not read the lists

  lemma SlabSideFrame(m: Mem, m': Mem)
    requires m'.slabs == m.slabs && m'.caches == m.caches && m'.home == m.home
    ensures SlabsOk(m) ==> SlabsOk(m')
    ensures HomeOk(m) ==> HomeOk(m')
    ensures UserObjects(m') == UserObjects(m)
    ensures forall c, a :: AllocatedFrom(m', c, a) == AllocatedFrom(m, c, a)
    ensures forall s :: IsOffSlab(m', s) == IsOffSlab(m, s)
  {
    if SlabsOk(m) {
      forall c | c in m'.caches ensures CacheOk(m', c) { assert CacheOk(m, c); hide GeometryOk, NoDup, FullLast; }
      forall s | s in m'.slabs ensures SlabOk(m', s) { assert SlabOk(m, s); hide CacheOk, IsObject, NoDup; }
    }
    if HomeOk(m) {
      hide SlabsOk;
      forall s, a ensures Allocated(m', s, a) == Allocated(m, s, a) { hide IsObject; }
      hide Allocated;
    }
  }

  /** Range `q` covers the same pages in `m` and `m'`. */
  predicate SameSpan(m: Mem, m': Mem, q: Ptr) {
    q in m.ranges && q in m'.ranges && m'.ranges[q].base == m.ranges[q].base
      && m'.ranges[q].npages == m.ranges[q].npages
  }

  /** Ranges that back slabs keep their size and place, so the slabs stay backed. */
  ghost predicate KeepsSlabRanges(m: Mem, m': Mem, x: Flight, x': Flight) {
    && (forall n ::
          (n in m.ranges && n !in m.freeList && n !in x.pending && n !in x.dangling && m.ranges[n].slab.Some?) ==>
          n in m'.ranges && m'.ranges[n] == m.ranges[n] && n !in m'.freeList && n !in x'.pending)
    && (forall n :: n in m'.ranges && m'.ranges[n].slab.Some? ==>
      n in m.ranges && m.ranges[n].slab == m'.ranges[n].slab)
    && (forall n :: n in x.dangling ==>
      n in m'.ranges && n in m.ranges && m'.ranges[n] == m.ranges[n] && n !in m'.freeList && n !in x'.pending)
    && (forall n :: n in x.kept && n in m.ranges && n !in m.freeList && n !in x.pending ==>
          n in m'.ranges && m'.ranges[n] == m.ranges[n] && n !in m'.freeList && n !in x'.pending)
    && (forall n, p ::
          (n in m.ranges && n !in m.freeList && n !in x.pending && (m.ranges[n].slab.Some? || n in x.kept)
           && Covers(m.ranges[n], p) && p in m.mapped) ==> p in m'.mapped)
    && (forall n, p ::
          (n in m.ranges && n !in m.freeList && n !in x.pending && n in x.kept
           && Covers(m.ranges[n], p) && p in m'.mapped) ==> p in m.mapped)
  }

  lemma SlabRangesKept(m: Mem, m': Mem, x: Flight, x': Flight)
    requires SlabRangesOk(m, x) && KeepsSlabRanges(m, m', x, x') && x'.dangling == x.dangling && x'.kept == x.kept
    requires m'.slabs == m.slabs && m'.caches == m.caches
    ensures SlabRangesOk(m', x')
  {
    hide Covers;
    forall s | s in m'.slabs ensures Backed(m', x', s) { assert Backed(m, x, s); }
    hide Backed;
    forall n | n in m'.ranges ensures LabelOk(m', x', n) {
      if n in m.ranges { assert LabelOk(m, x, n); }
    }
  }

  // ---------------------------------------------------------------- sorted lists

  lemma UsedInserted(m: Mem, m': Mem, j: nat, e: Ptr)
    requires SortedUsed(m) && j <= |m.usedList| && m'.usedList == InsertAt(m.usedList, j, e) && e in m'.ranges
    requires forall q :: q in m.usedList ==> SameSpan(m, m', q)
    requires forall i :: 0 <= i < j ==> UsedOrder(m', m.usedList[i], e)
    requires forall i :: j <= i < |m.usedList| ==> UsedOrder(m', e, m.usedList[i])
    ensures SortedUsed(m')
  {
    InsertFacts(m.usedList, j, e);
    hide InsertAt;
    var u, w := m.usedList, m'.usedList;
    assert forall i :: 0 <= i < |u| ==> u[i] in u;
    forall p, q | 0 <= p < q < |w| ensures UsedOrder(m', w[p], w[q]) {
      var p', q' := if p < j then p else p - 1, if q < j then q else q - 1;
      if p != j && q != j { assert UsedOrder(m, u[p'], u[q']); }
    }
  }

  lemma UsedRemoved(m: Mem, m': Mem, j: nat)
    requires SortedUsed(m) && j < |m.usedList| && m'.usedList == RemoveAt(m.usedList, j)
    requires forall q :: q in m.usedList && q != m.usedList[j] ==> SameSpan(m, m', q)
    requires NoDup(m.usedList)
    ensures SortedUsed(m')
  {
    RemoveFacts(m.usedList, j);
    hide RemoveAt;
    var u, w := m.usedList, m'.usedList;
    assert forall i :: 0 <= i < |u| ==> u[i] in u;
    forall p, q | 0 <= p < q < |w| ensures UsedOrder(m', w[p], w[q]) {
      var p', q' := if p < j then p else p + 1, if q < j then q else q + 1;
      assert UsedOrder(m, u[p'], u[q']);
    }
  }

  lemma FreeRemoved(m: Mem, m': Mem, x: Flight, k: nat)
    requires SortedFree(m, x) && k < |m.freeList| && m'.freeList == RemoveAt(m.freeList, k)
    requires forall q :: q in m.freeList && q != m.freeList[k] ==> SameSpan(m, m', q)
    requires NoDup(m.freeList)
    ensures SortedFree(m', x)
  {
    hide SortedFree, FreeOrder, SameSpan, RemoveAt, NoDup;
    RemoveFacts(m.freeList, k);
    forall p, q | 0 <= p < q < |m'.freeList| ensures FreeOrder(m', x, m'.freeList[p], m'.freeList[q]) {
      FreeRemovedAt(m, m', x, k, p, q);
    }
    SortedFold(m', x);
  }

  lemma FreeRemovedAt(m: Mem, m': Mem, x: Flight, k: nat, p: nat, q: nat)
    requires SortedFree(m, x) && k < |m.freeList| && m'.freeList == RemoveAt(m.freeList, k)
    requires forall q :: q in m.freeList && q != m.freeList[k] ==> SameSpan(m, m', q)
    requires NoDup(m.freeList) && p < q < |m'.freeList|
    ensures FreeOrder(m', x, m'.freeList[p], m'.freeList[q])
  {
    hide SortedFree, FreeOrder, SameSpan;
    RemoveFacts(m.freeList, k);
    var p', q' := if p < k then p else p + 1, if q < k then q else q + 1;
    var r, t := m.freeList[p'], m.freeList[q'];
    assert r in m.freeList && t in m.freeList && r != m.freeList[k] && t != m.freeList[k];
    assert m'.freeList[p] == r && m'.freeList[q] == t;
    SortedUse(m, x, p', q');
    FreeOrderKept(m, m', x, r, t);
  }

  lemma FreeOrderKept(m: Mem, m': Mem, x: Flight, r: Ptr, q: Ptr)
    requires FreeOrder(m, x, r, q) && SameSpan(m, m', r) && SameSpan(m, m', q)
    ensures FreeOrder(m', x, r, q)
  {}

  // ---------------------------------------------------------------- moving a whole free range

  /** The range at position `k` of the free list goes to position `j` of the used list. */
  function TakeWhole(m: Mem, k: nat, j: nat): Mem
    requires k < |m.freeList| && j <= |m.usedList| && m.freeList[k] in m.ranges
  {
    var r := m.freeList[k];
    m.(freeList := RemoveAt(m.freeList, k), usedList := InsertAt(m.usedList, j, r),
       ranges := m.ranges[r := m.ranges[r].(slab := None)])
  }

  lemma TakeWholeSpans(m: Mem, k: nat, j: nat)
    requires k < |m.freeList| && j <= |m.usedList| && m.freeList[k] in m.ranges
    ensures TakeWhole(m, k, j).ranges.Keys == m.ranges.Keys
    ensures forall q :: q in m.ranges ==> SameSpan(m, TakeWhole(m, k, j), q)
    ensures forall q :: q in m.ranges && q != m.freeList[k] ==> TakeWhole(m, k, j).ranges[q] == m.ranges[q]
  {
    hide InsertAt, RemoveAt;
  }

  lemma ApartUse(m: Mem, r: Ptr, q: Ptr)
    requires Apart(m) && r in m.ranges && q in m.ranges && r != q
    ensures Disjoint(m.ranges[r], m.ranges[q])
  {}

  /** No span changed: bounds, disjointness and tiling carry over. */
  lemma SpansFrame(m: Mem, m': Mem)
    requires m'.ranges.Keys == m.ranges.Keys && (forall q :: q in m.ranges ==> SameSpan(m, m', q))
    requires m'.tile == m.tile
    ensures BoundsOk(m) ==> BoundsOk(m')
    ensures Apart(m) ==> Apart(m')
    ensures TileOk(m) ==> TileOk(m')
  {
    if BoundsOk(m) {
      forall r | r in m'.ranges
        ensures BASE_PAGE <= m'.ranges[r].base && 0 <= m'.ranges[r].npages && End(m'.ranges[r]) <= TOP_PAGE
      {
        assert SameSpan(m, m', r);
      }
    }
    if Apart(m) {
      forall r, q | r in m'.ranges && q in m'.ranges && r != q ensures Disjoint(m'.ranges[r], m'.ranges[q]) {
        assert SameSpan(m, m', r) && SameSpan(m, m', q);
        ApartUse(m, r, q);
      }
    }
    if TileOk(m) {
      forall p | BASE_PAGE <= p < TOP_PAGE
        ensures p in m'.tile && m'.tile[p] in m'.ranges && Covers(m'.ranges[m'.tile[p]], p)
      {
        assert SameSpan(m, m', m.tile[p]);
      }
    }
  }

  lemma TakeWholePlaces(m: Mem, x: Flight, k: nat, j: nat)
    requires PlacesOk(m, x) && NoDup(m.freeList) && k < |m.freeList| && j <= |m.usedList| && m.freeList[k] in m.ranges
    requires 1 <= m.ranges[m.freeList[k]].npages
    ensures PlacesOk(TakeWhole(m, k, j), x)
  {
    TakeWholeSpans(m, k, j);
    RemoveFacts(m.freeList, k);
    InsertFacts(m.usedList, j, m.freeList[k]);
    assert m.freeList[k] in m.freeList;
    hide InsertAt, RemoveAt, NoDup;
  }

  /** The position found for a non-empty range keeps the used list strictly sorted. */
  lemma UsedPosition(m: Mem, x: Flight, j: nat, r: Ptr)
    requires PlacesOk(m, x) && Apart(m) && r in m.ranges && r !in m.usedList && 1 <= m.ranges[r].npages
    requires IsPosition(m, m.usedList, j, m.ranges[r].base)
    ensures forall i :: 0 <= i < j ==> UsedOrder(m, m.usedList[i], r)
    ensures forall i :: j <= i < |m.usedList| ==> UsedOrder(m, r, m.usedList[i])
  {
    forall i | 0 <= i < j ensures UsedOrder(m, m.usedList[i], r) {
      assert m.usedList[i] in m.usedList;
      hide Apart;
      ApartUse(m, m.usedList[i], r);
    }
  }

  lemma TakeWholeRanges(m: Mem, x: Flight, k: nat, j: nat)
    requires RangesOk(m, x) && MappedOk(m) && k < |m.freeList| && m.freeList[k] in m.ranges
    requires 1 <= m.ranges[m.freeList[k]].npages
    requires IsPosition(m, m.usedList, j, m.ranges[m.freeList[k]].base)
    ensures RangesOk(TakeWhole(m, k, j), x) && MappedOk(TakeWhole(m, k, j))
  {
    var m' := TakeWhole(m, k, j);
    var r := m.freeList[k];
    ListsDistinct(m, x);
    assert r in m.freeList;
    hide SortedUsed, SortedFree, BoundsOk, Apart, TileOk;
    TakeWholeSpans(m, k, j);
    SpansFrame(m, m');
    TakeWholePlaces(m, x, k, j);
    FreeRemoved(m, m', x, k);
    UsedPosition(m, x, j, r);
    UsedInserted(m, m', j, r);
    RemoveFacts(m.freeList, k);
    hide PlacesOk, SameSpan, TakeWhole;
    assert MappedOk(m');
  }

  /** A step that changes only the range fields keeps the invariant if it keeps the range side of it. */
  lemma RangeStepKeeps(m: Mem, m': Mem, x: Flight, x': Flight)
    requires Inv(m, x) && RangesOk(m', x') && MappedOk(m') && KeepsSlabRanges(m, m', x, x')
    requires m'.slabs == m.slabs && m'.caches == m.caches && m'.home == m.home
    requires x'.dangling == x.dangling && x'.heldSlabs == x.heldSlabs && x'.heldCaches == x.heldCaches
    requires x'.kept == x.kept
    requires m'.ranges.Keys + x'.heldRanges == m.ranges.Keys + x.heldRanges
    requires x'.heldRanges == x.heldRanges || m'.ranges.Keys !! x'.heldRanges
    requires x'.heldRanges == x.heldRanges ==> m'.ranges.Keys == m.ranges.Keys
    ensures Inv(m', x') && UserObjects(m') == UserObjects(m)
  {
    hide RangesOk, MappedOk, SlabsOk, HomeOk, SlabRangesOk, LinksOk, UserObjects, KeepsSlabRanges;
    SlabSideFrame(m, m');
    SlabRangesKept(m, m', x, x');
    SameLinks(m, m', x, x');
  }

  /** Moving a whole free range to the used list keeps the invariant; the range is now the caller's. */
  lemma TakeWholeKeeps(m: Mem, x: Flight, k: nat, j: nat)
    requires Inv(m, x) && k < |m.freeList| && m.freeList[k] in m.ranges
    requires 1 <= m.ranges[m.freeList[k]].npages
    requires IsPosition(m, m.usedList, j, m.ranges[m.freeList[k]].base)
    ensures Inv(TakeWhole(m, k, j), x)
    ensures UserRanges(TakeWhole(m, k, j)) == UserRanges(m)[m.freeList[k] := TakeWhole(m, k, j).ranges[m.freeList[k]]]
    ensures UserObjects(TakeWhole(m, k, j)) == UserObjects(m)
  {
    hide RangesOk, MappedOk, SlabsOk, HomeOk, SlabRangesOk, LinksOk, UserRanges, UserObjects;
    TakeWholeRanges(m, x, k, j);
    TakeWholeSpans(m, k, j);
    TakeWholeUser(m, x, k, j);
    TakeWholeKept(m, x, k, j);
    ListsDistinct(m, x);
    TakeWholeRest(m, k, j);
    hide TakeWhole, KeepsSlabRanges, NoDup;
    RangeStepKeeps(m, TakeWhole(m, k, j), x, x);
  }

  lemma TakeWholeRest(m: Mem, k: nat, j: nat)
    requires k < |m.freeList| && j <= |m.usedList| && m.freeList[k] in m.ranges && NoDup(m.freeList)
    ensures var m' := TakeWhole(m, k, j);
      && m'.slabs == m.slabs && m'.caches == m.caches && m'.home == m.home && m'.mapped == m.mapped
        && m'.pages == m.pages
      && m'.ranges[m.freeList[k]].slab.None?
      && (forall q :: q in m'.freeList <==> q in m.freeList && q != m.freeList[k])
      && (forall q :: q in m'.usedList <==> q in m.usedList || q == m.freeList[k])
  {
    RemoveFacts(m.freeList, k);
    InsertFacts(m.usedList, j, m.freeList[k]);
    hide InsertAt, RemoveAt, NoDup;
  }

  lemma TakeWholeUser(m: Mem, x: Flight, k: nat, j: nat)
    requires RangesOk(m, x) && k < |m.freeList| && m.freeList[k] in m.ranges && j <= |m.usedList|
    ensures UserRanges(TakeWhole(m, k, j)) == UserRanges(m)[m.freeList[k] := TakeWhole(m, k, j).ranges[m.freeList[k]]]
  {
    ListsDistinct(m, x);
    TakeWholeSpans(m, k, j);
    TakeWholeRest(m, k, j);
    hide TakeWhole, RangesOk, SameSpan;
  }

  lemma TakeWholeKept(m: Mem, x: Flight, k: nat, j: nat)
    requires RangesOk(m, x) && SlabRangesOk(m, x) && k < |m.freeList| && m.freeList[k] in m.ranges && j <= |m.usedList|
    ensures KeepsSlabRanges(m, TakeWhole(m, k, j), x, x)
  {
    ListsDistinct(m, x);
    TakeWholeSpans(m, k, j);
    TakeWholeRest(m, k, j);
    assert m.freeList[k] in m.freeList;
    hide TakeWhole, RangesOk, SameSpan, Backed, Covers, NoDup;
    forall n | n in x.dangling ensures n in m.ranges && n !in m.freeList && n !in x.pending { assert LabelOk(m, x, n); }
    hide SlabRangesOk, LabelOk;
  }

  lemma SameCacheLinks(m: Mem, m': Mem, x: Flight, x': Flight)
    requires CacheLinks(m, x) && m'.slabs == m.slabs && m'.caches == m.caches && m'.home == m.home
    requires x'.heldCaches == x.heldCaches
    ensures CacheLinks(m', x')
  {
    forall a ensures AllocatedFrom(m', CACHE_CACHE, a) == AllocatedFrom(m, CACHE_CACHE, a) {}
    hide AllocatedFrom, Structs, Named;
  }

  /** The set of range structures and the held objects did not change. */
  lemma SameLinks(m: Mem, m': Mem, x: Flight, x': Flight)
    requires LinksOk(m, x) && m'.slabs == m.slabs && m'.caches == m.caches && m'.home == m.home
    requires m'.ranges.Keys + x'.heldRanges == m.ranges.Keys + x.heldRanges
    requires x'.heldRanges == x.heldRanges || m'.ranges.Keys !! x'.heldRanges
    requires x'.heldRanges == x.heldRanges ==> m'.ranges.Keys == m.ranges.Keys
    requires x'.heldSlabs == x.heldSlabs && x'.heldCaches == x.heldCaches
    ensures LinksOk(m', x')
  {
    hide AllocatedFrom, IsOffSlab, SlabsOk, HomeOk, CacheLinks, UserObjects;
    SameCacheLinks(m, m', x, x');
    SlabSideFrame(m, m');
    forall a: Ptr ensures a in m'.ranges || a in x'.heldRanges <==> a in m.ranges || a in x.heldRanges {
      assert a in m'.ranges.Keys + x'.heldRanges <==> a in m.ranges.Keys + x.heldRanges;
    }
  }

  // ---------------------------------------------------------------- splitting a free range

  function Retile(t: map<int, Ptr>, lo: int, hi: int, r: Ptr): map<int, Ptr> {
    map p | p in t :: if lo <= p < hi then r else t[p]
  }

  /**
   The first `nb` pages of the range at position `k` of the free list become range `a`, put at position `j`
   of the used list. What is left of the free range may be empty.
   */
  function Split(m: Mem, k: nat, a: Ptr, nb: int, j: nat): Mem
    requires k < |m.freeList| && j <= |m.usedList| && m.freeList[k] in m.ranges
  {
    var r := m.freeList[k];
    var b := m.ranges[r].base;
    m.(usedList := InsertAt(m.usedList, j, a),
       ranges := m.ranges[a := Range(b, nb, None)][r := Range(b + nb, m.ranges[r].npages - nb, m.ranges[r].slab)],
       tile := Retile(m.tile, b, b + nb, a))
  }

  function Filled(x: Flight, a: Ptr): Flight { x.(heldRanges := x.heldRanges - {a}) }

  ghost predicate SplitOk(m: Mem, x: Flight, k: nat, a: Ptr, nb: int, j: nat) {
    && k < |m.freeList| && m.freeList[k] in m.ranges && a in x.heldRanges && a !in m.ranges
    && 1 <= nb <= m.ranges[m.freeList[k]].npages
    && IsPosition(m, m.usedList, j, m.ranges[m.freeList[k]].base)
    && x.touchPrev == {} && x.touchNext == {}
  }

  /** The spans after a split: `a` and `r` share what `r` had. */
  lemma SplitSpans(m: Mem, x: Flight, k: nat, a: Ptr, nb: int, j: nat)
    requires SplitOk(m, x, k, a, nb, j)
    ensures var m' := Split(m, k, a, nb, j); var r := m.freeList[k];
      && m'.ranges.Keys == m.ranges.Keys + {a} && a != r
      && m'.ranges[a] == Range(m.ranges[r].base, nb, None)
      && m'.ranges[r] == Range(m.ranges[r].base + nb, m.ranges[r].npages - nb, m.ranges[r].slab)
      && (forall q :: q in m.ranges && q != r ==> m'.ranges[q] == m.ranges[q])
      && m'.freeList == m.freeList && m'.mapped == m.mapped && m'.pages == m.pages
      && (forall q :: q in m'.usedList <==> q in m.usedList || q == a)
      && m'.slabs == m.slabs && m'.caches == m.caches && m'.home == m.home
  {
    InsertFacts(m.usedList, j, a);
    hide InsertAt, Retile, IsPosition;
  }

  lemma SplitApart(m: Mem, x: Flight, k: nat, a: Ptr, nb: int, j: nat)
    requires BoundsOk(m) && Apart(m) && SplitOk(m, x, k, a, nb, j)
    ensures BoundsOk(Split(m, k, a, nb, j)) && Apart(Split(m, k, a, nb, j))
  {
    SplitSpans(m, x, k, a, nb, j);
    var m' := Split(m, k, a, nb, j);
    var r := m.freeList[k];
    hide Split, IsPosition;
    assert BoundsOk(m') by { hide Apart; }
    assert m'.ranges[a].base == m.ranges[r].base && End(m'.ranges[a]) == m'.ranges[r].base;
    assert End(m'.ranges[r]) == End(m.ranges[r]) && m'.ranges[a].npages >= 0 && m'.ranges[r].npages >= 0;
    hide BoundsOk;
    forall p, q | p in m'.ranges && q in m'.ranges && p != q ensures Disjoint(m'.ranges[p], m'.ranges[q]) {
      var p', q' := if p == a then r else p, if q == a then r else q;
      if p' != q' { ApartUse(m, p', q'); }
    }
  }

  lemma SplitTile(m: Mem, x: Flight, k: nat, a: Ptr, nb: int, j: nat)
    requires TileOk(m) && SplitOk(m, x, k, a, nb, j)
    ensures TileOk(Split(m, k, a, nb, j))
  {
    SplitSpans(m, x, k, a, nb, j);
    var m' := Split(m, k, a, nb, j);
    var r := m.freeList[k];
    var b := m.ranges[r].base;
    assert m'.tile == Retile(m.tile, b, b + nb, a);
    hide Split, IsPosition, SplitOk;
    forall p | BASE_PAGE <= p < TOP_PAGE
      ensures p in m'.tile && m'.tile[p] in m'.ranges && Covers(m'.ranges[m'.tile[p]], p)
    {
      assert p in m.tile && Covers(m.ranges[m.tile[p]], p);
    }
  }

  lemma SplitPlaces(m: Mem, x: Flight, k: nat, a: Ptr, nb: int, j: nat)
    requires PlacesOk(m, x) && SplitOk(m, x, k, a, nb, j)
    ensures PlacesOk(Split(m, k, a, nb, j), Filled(x, a))
  {
    SplitSpans(m, x, k, a, nb, j);
    assert m.freeList[k] in m.freeList;
    hide Split, IsPosition;
  }

  lemma SplitSorted(m: Mem, x: Flight, k: nat, a: Ptr, nb: int, j: nat)
    requires RangesOk(m, x) && SplitOk(m, x, k, a, nb, j)
    ensures SortedUsed(Split(m, k, a, nb, j)) && SortedFree(Split(m, k, a, nb, j), Filled(x, a))
  {
    var m' := Split(m, k, a, nb, j);
    var r := m.freeList[k];
    var u, f := m.usedList, m.freeList;
    assert r in f;
    assert m'.usedList == InsertAt(u, j, a);
    SplitSpans(m, x, k, a, nb, j);
    hide Split, TileOk, BoundsOk, SortedFree, SortedUsed;
    UsedPosition(m, x, j, r);
    hide Apart, IsPosition;
    UsedInserted(m, m', j, a);
    hide PlacesOk, InsertAt;
    assert SortedFree(m, x);
    forall p, q | 0 <= p < q < |f| ensures FreeOrder(m', Filled(x, a), f[p], f[q]) {
      SortedUse(m, x, p, q);
    }
    assert SortedFree(m', Filled(x, a)) by { SortedFold(m', Filled(x, a)); }
  }

  lemma SortedUse(m: Mem, x: Flight, p: nat, q: nat)
    requires SortedFree(m, x) && p < q < |m.freeList|
    ensures FreeOrder(m, x, m.freeList[p], m.freeList[q])
  {}

  lemma SortedFold(m: Mem, x: Flight)
    requires forall p, q :: 0 <= p < q < |m.freeList| ==> FreeOrder(m, x, m.freeList[p], m.freeList[q])
    ensures SortedFree(m, x)
  {}

  lemma SplitMapped(m: Mem, x: Flight, k: nat, a: Ptr, nb: int, j: nat)
    requires PlacesOk(m, x) && MappedOk(m) && SplitOk(m, x, k, a, nb, j)
    ensures MappedOk(Split(m, k, a, nb, j))
  {
    SplitSpans(m, x, k, a, nb, j);
    assert m.freeList[k] in m.freeList;
    hide Split, IsPosition;
  }

  lemma SplitKept(m: Mem, x: Flight, k: nat, a: Ptr, nb: int, j: nat)
    requires PlacesOk(m, x) && SlabRangesOk(m, x) && SplitOk(m, x, k, a, nb, j)
    ensures KeepsSlabRanges(m, Split(m, k, a, nb, j), x, Filled(x, a))
    ensures UserRanges(Split(m, k, a, nb, j)) == UserRanges(m)[a := Range(m.ranges[m.freeList[k]].base, nb, None)]
  {
    SplitUser(m, x, k, a, nb, j);
    hide UserRanges;
    SplitSpans(m, x, k, a, nb, j);
    assert m.freeList[k] in m.freeList;
    forall n | n in x.dangling ensures n in m.ranges && n !in m.freeList && n !in x.pending { assert LabelOk(m, x, n); }
    hide Split, IsPosition, SlabRangesOk, Covers;
  }

  lemma SplitUser(m: Mem, x: Flight, k: nat, a: Ptr, nb: int, j: nat)
    requires PlacesOk(m, x) && SplitOk(m, x, k, a, nb, j)
    ensures UserRanges(Split(m, k, a, nb, j)) == UserRanges(m)[a := Range(m.ranges[m.freeList[k]].base, nb, None)]
  {
    SplitSpans(m, x, k, a, nb, j);
    assert m.freeList[k] in m.freeList;
    hide Split, IsPosition;
  }

  lemma SplitRanges(m: Mem, x: Flight, k: nat, a: Ptr, nb: int, j: nat)
    requires RangesOk(m, x) && MappedOk(m) && SplitOk(m, x, k, a, nb, j)
    ensures RangesOk(Split(m, k, a, nb, j), Filled(x, a)) && MappedOk(Split(m, k, a, nb, j))
  {
    var m' := Split(m, k, a, nb, j);
    hide MappedOk, PlacesOk, BoundsOk, Apart, TileOk, SortedUsed, SortedFree, IsPosition;
    SplitApart(m, x, k, a, nb, j);
    SplitTile(m, x, k, a, nb, j);
    SplitPlaces(m, x, k, a, nb, j);
    SplitSorted(m, x, k, a, nb, j);
    SplitMapped(m, x, k, a, nb, j);
    hide Split;
    RangesFold(m', Filled(x, a));
  }

  lemma HeldNotRanges(m: Mem, x: Flight)
    requires LinksOk(m, x)
    ensures m.ranges.Keys !! x.heldRanges
  {
    hide AllocatedFrom, IsOffSlab;
    forall a | a in x.heldRanges ensures a !in m.ranges {}
  }

  lemma SplitHeld(m: Mem, x: Flight, k: nat, a: Ptr, nb: int, j: nat)
    requires SplitOk(m, x, k, a, nb, j) && m.ranges.Keys !! x.heldRanges
    ensures var m', x' := Split(m, k, a, nb, j), Filled(x, a);
      m'.ranges.Keys + x'.heldRanges == m.ranges.Keys + x.heldRanges && m'.ranges.Keys !! x'.heldRanges
        && x'.heldRanges != x.heldRanges
  {
    SplitSpans(m, x, k, a, nb, j);
    hide Split, IsPosition;
    assert a !in Filled(x, a).heldRanges;
  }

  /** A split keeps the invariant; the caller gains exactly the range [base, base + nb). */
  lemma SplitKeeps(m: Mem, x: Flight, k: nat, a: Ptr, nb: int, j: nat)
    requires Inv(m, x) && SplitOk(m, x, k, a, nb, j)
    ensures Inv(Split(m, k, a, nb, j), Filled(x, a))
    ensures UserRanges(Split(m, k, a, nb, j)) == UserRanges(m)[a := Range(m.ranges[m.freeList[k]].base, nb, None)]
    ensures UserObjects(Split(m, k, a, nb, j)) == UserObjects(m)
  {
    var m' := Split(m, k, a, nb, j);
    hide MappedOk, SlabsOk, HomeOk, SlabRangesOk, LinksOk, RangesOk, PlacesOk, UserRanges, UserObjects, KeepsSlabRanges,
      IsPosition;
    HeldNotRanges(m, x);
    SplitHeld(m, x, k, a, nb, j);
    SplitSpans(m, x, k, a, nb, j);
    SplitRanges(m, x, k, a, nb, j);
    assert PlacesOk(m, x) by { RangesUnfold(m, x); }
    SplitKept(m, x, k, a, nb, j);
    hide Split, SplitOk;
    RangeStepKeeps(m, m', x, Filled(x, a));
  }

  lemma RangesUnfold(m: Mem, x: Flight)
    requires RangesOk(m, x)
    ensures BoundsOk(m) && PlacesOk(m, x) && Apart(m) && TileOk(m) && SortedUsed(m) && SortedFree(m, x)
  {}

  lemma RangesFold(m: Mem, x: Flight)
    requires BoundsOk(m) && PlacesOk(m, x) && Apart(m) && TileOk(m) && SortedUsed(m) && SortedFree(m, x)
    ensures RangesOk(m, x)
  {}
}
