/**
 The updates of the freeing path of os/kmem_vmm.c: unlinking a used range, putting it on the free list
 with its pages unmapped, and merging it with its neighbours.
 */
module KmemFreeSteps {
  import opened KmemState
  import opened KmemGeometry
  import opened KmemPages
  import opened KmemRangeSteps

  // ---------------------------------------------------------------- mapping a page

  /**
   Physical page `f` is mapped at page `p`, with a new table `t` if need be, and told that it belongs to range `n`.
   */
  function MapPage(m: Mem, p: int, n: Ptr, f: Frame, t: Option<Frame>): Mem {
    m.(mapped := m.mapped[p := n], pages := WithPage(m.pages, p, n, f, t))
  }

  /** Mapping a page that nothing maps, and recording its owner, keeps the invariant. */
  lemma MapKeeps(m: Mem, x: Flight, p: int, n: Ptr, f: Frame, t: Option<Frame>)
    requires Inv(m, x) && n in m.ranges && n !in m.freeList && Covers(m.ranges[n], p) && n !in x.kept
    requires IsFresh(m.pages, f) && TableReady(m.pages, p, f, t)
    ensures Inv(MapPage(m, p, n, f, t), x)
    ensures UserRanges(MapPage(m, p, n, f, t)) == UserRanges(m) && UserObjects(MapPage(m, p, n, f, t)) == UserObjects(m)
  {
    hide RangesOk, MappedOk, SlabsOk, HomeOk, SlabRangesOk, LinksOk, UserRanges, UserObjects, WithPage, TableReady;
    assert InArea(p) by { RangesUnfold(m, x); }
    MapMapped(m, p, n, f, t);
    forall q | q in x.kept && q in m.ranges ensures !Covers(m.ranges[q], p) {
      if Covers(m.ranges[q], p) { OnePage(m, x, q, n, p); }
    }
    PagesKeeps(m, MapPage(m, p, n, f, t), x);
  }

  lemma MapMapped(m: Mem, p: int, n: Ptr, f: Frame, t: Option<Frame>)
    requires MappedOk(m) && n in m.ranges && n !in m.freeList && Covers(m.ranges[n], p) && InArea(p)
    requires IsFresh(m.pages, f) && TableReady(m.pages, p, f, t)
    ensures MappedOk(MapPage(m, p, n, f, t))
  {
    WithPageOk(m.mapped, m.pages, p, n, f, t);
    hide Covers, FramesOk, WithPage;
  }

  /**
   What is mapped may grow, and whatever is mapped outside the kernel area may change, as long as owners are right.
   */
  lemma PagesKeeps(m: Mem, m': Mem, x: Flight)
    requires Inv(m, x) && m' == m.(mapped := m'.mapped, pages := m'.pages)
    requires MappedOk(m') && forall p :: p in m.mapped ==> p in m'.mapped
    requires forall n, p :: n in x.kept && n in m.ranges && Covers(m.ranges[n], p) && p in m'.mapped ==> p in m.mapped
    ensures Inv(m', x) && UserRanges(m') == UserRanges(m) && UserObjects(m') == UserObjects(m)
  {
    hide RangesOk, MappedOk, SlabsOk, HomeOk, SlabRangesOk, LinksOk, KeepsSlabRanges, Covers, UserRanges, UserObjects;
    PagesRanges(m, m', x);
    PagesKept(m, m', x);
    PagesUser(m, m');
    RangeStepKeeps(m, m', x, x);
  }

  lemma PagesUser(m: Mem, m': Mem)
    requires m' == m.(mapped := m'.mapped, pages := m'.pages)
    ensures UserRanges(m') == UserRanges(m)
  {}

  lemma PagesRanges(m: Mem, m': Mem, x: Flight)
    requires RangesOk(m, x) && m' == m.(mapped := m'.mapped, pages := m'.pages)
    ensures RangesOk(m', x)
  {
    forall q | q in m.ranges ensures SameSpan(m, m', q) {}
    RangesUnfold(m, x);
    hide Apart, BoundsOk, TileOk;
    SpansFrame(m, m');
    hide SameSpan;
    forall i, j | 0 <= i < j < |m.freeList|
      ensures FreeOrder(m', x, m.freeList[i], m.freeList[j])
    {
      SortedUse(m, x, i, j);
    }
    SortedFold(m', x);
    assert SortedUsed(m') by {
      forall i, j | 0 <= i < j < |m.usedList| ensures UsedOrder(m', m.usedList[i], m.usedList[j]) {
        assert UsedOrder(m, m.usedList[i], m.usedList[j]);
      }
    }
    hide SortedUsed, SortedFree;
    assert PlacesOk(m', x);
  }

  lemma PagesKept(m: Mem, m': Mem, x: Flight)
    requires SlabRangesOk(m, x) && m' == m.(mapped := m'.mapped, pages := m'.pages)
    requires forall p :: p in m.mapped ==> p in m'.mapped
    requires forall n, p :: n in x.kept && n in m.ranges && Covers(m.ranges[n], p) && p in m'.mapped ==> p in m.mapped
    ensures KeepsSlabRanges(m, m', x, x)
  {
    hide Covers, Backed;
    forall q | q in x.dangling ensures q in m.ranges && q !in m.freeList && q !in x.pending { assert LabelOk(m, x, q); }
  }

  // ---------------------------------------------------------------- unlinking a used range

  /** The range at position `j` leaves the used list and waits to be freed. */
  function Unlink(m: Mem, j: nat): Mem
    requires j < |m.usedList|
  {
    m.(usedList := RemoveAt(m.usedList, j))
  }

  function Waiting(x: Flight, r: Ptr): Flight { x.(pending := x.pending + {r}) }

  lemma UnlinkPlaces(m: Mem, x: Flight, j: nat)
    requires RangesOk(m, x) && j < |m.usedList| && m.usedList[j] in m.ranges && m.ranges[m.usedList[j]].slab.None?
    ensures PlacesOk(Unlink(m, j), Waiting(x, m.usedList[j]))
    ensures forall q :: q in Unlink(m, j).usedList <==> q in m.usedList && q != m.usedList[j]
    ensures Unlink(m, j).ranges == m.ranges && Unlink(m, j).freeList == m.freeList && Unlink(m, j).mapped == m.mapped
    ensures Unlink(m, j).pages == m.pages
  {
    ListsDistinct(m, x);
    RemoveFacts(m.usedList, j);
    RangesUnfold(m, x);
    assert m.usedList[j] in m.usedList;
    hide RangesOk, RemoveAt, NoDup;
  }

  lemma UnlinkRanges(m: Mem, x: Flight, j: nat)
    requires RangesOk(m, x) && j < |m.usedList| && m.usedList[j] in m.ranges && m.ranges[m.usedList[j]].slab.None?
    ensures RangesOk(Unlink(m, j), Waiting(x, m.usedList[j]))
  {
    var m' := Unlink(m, j);
    var x' := Waiting(x, m.usedList[j]);
    ListsDistinct(m, x);
    UnlinkPlaces(m, x, j);
    RangesUnfold(m, x);
    forall q | q in m.usedList ensures SameSpan(m, m', q) { hide BoundsOk, Apart, TileOk, SortedUsed, SortedFree; }
    hide PlacesOk;
    SpansFrame(m, m');
    hide Apart, BoundsOk, TileOk;
    UsedRemoved(m, m', j);
    hide SortedUsed;
    forall i, j | 0 <= i < j < |m.freeList|
      ensures FreeOrder(m', x', m.freeList[i], m.freeList[j])
    {
      SortedUse(m, x, i, j);
    }
    SortedFold(m', x');
    hide SortedFree;
    RangesFold(m', x');
  }

  lemma UnlinkKept(m: Mem, x: Flight, j: nat)
    requires RangesOk(m, x) && SlabRangesOk(m, x) && j < |m.usedList| && m.usedList[j] in m.ranges
    requires m.ranges[m.usedList[j]].slab.None? && m.usedList[j] !in x.kept
    ensures KeepsSlabRanges(m, Unlink(m, j), x, Waiting(x, m.usedList[j]))
  {
    var m' := Unlink(m, j);
    UnlinkPlaces(m, x, j);
    hide RangesOk, Covers, Backed, PlacesOk, Unlink;
    forall q | q in x.dangling ensures q in m.ranges && q !in m.freeList && q !in x.pending && m.ranges[q].slab.Some? {
      assert LabelOk(m, x, q);
    }
    hide SlabRangesOk, LabelOk;
  }

  lemma UnlinkUser(m: Mem, x: Flight, j: nat)
    requires RangesOk(m, x) && j < |m.usedList| && m.usedList[j] in m.ranges && m.ranges[m.usedList[j]].slab.None?
    ensures UserRanges(Unlink(m, j)) == UserRanges(m) - {m.usedList[j]}
  {
    hide RangesOk, PlacesOk, Unlink;
    UnlinkPlaces(m, x, j);
    SameButOne(m, Unlink(m, j), m.usedList[j]);
  }

  lemma SameButOne(m: Mem, m': Mem, r: Ptr)
    requires m'.ranges == m.ranges && forall q :: q in m'.usedList <==> q in m.usedList && q != r
    ensures UserRanges(m') == UserRanges(m) - {r}
  {
    var u, u' := UserRanges(m), UserRanges(m');
    assert forall q :: q in u' <==> q in u && q != r;
    assert u' == u - {r};
  }

  /** Unlinking a caller's range keeps the invariant, with that range pending. */
  lemma UnlinkKeeps(m: Mem, x: Flight, j: nat)
    requires Inv(m, x) && j < |m.usedList| && m.usedList[j] in m.ranges && m.ranges[m.usedList[j]].slab.None?
    requires m.usedList[j] !in x.kept
    ensures Inv(Unlink(m, j), Waiting(x, m.usedList[j]))
    ensures UserRanges(Unlink(m, j)) == UserRanges(m) - {m.usedList[j]}
    ensures UserObjects(Unlink(m, j)) == UserObjects(m)
  {
    hide RangesOk, MappedOk, SlabsOk, HomeOk, SlabRangesOk, LinksOk, KeepsSlabRanges, UserRanges, UserObjects, RemoveAt;
    var m' := Unlink(m, j);
    UnlinkRanges(m, x, j);
    UnlinkKept(m, x, j);
    UnlinkUser(m, x, j);
    MappedFrame(m, m');
    RangeStepKeeps(m, m', x, Waiting(x, m.usedList[j]));
  }

  lemma MappedFrame(m: Mem, m': Mem)
    requires MappedOk(m) && m'.ranges == m.ranges && m'.freeList == m.freeList && m'.mapped == m.mapped
    requires m'.pages == m.pages
    ensures MappedOk(m')
  {}

  // ---------------------------------------------------------------- putting a range on the free list

  /** Pending range `r` goes to position `k` of the free list and its pages are unmapped. */
  function Release(m: Mem, r: Ptr, k: nat): Mem
    requires k <= |m.freeList| && r in m.ranges
  {
    m.(freeList := InsertAt(m.freeList, k, r),
       mapped := WithoutPages(m.mapped, m.ranges[r].base, End(m.ranges[r])),
       pages := UnmapAll(m.pages, m.ranges[r].base, m.ranges[r].npages))
  }

  function Released(x: Flight, r: Ptr): Flight { x.(pending := x.pending - {r}, touchPrev := {r}, touchNext := {r}) }

  ghost predicate ReleaseOk(m: Mem, x: Flight, r: Ptr, k: nat) {
    && r in x.pending && r in m.ranges && IsPosition(m, m.freeList, k, m.ranges[r].base)
    && x.touchPrev == {} && x.touchNext == {}
  }

  lemma ReleaseLists(m: Mem, x: Flight, r: Ptr, k: nat)
    requires ReleaseOk(m, x, r, k)
    ensures forall q :: q in Release(m, r, k).freeList <==> q in m.freeList || q == r
    ensures Release(m, r, k).ranges == m.ranges && Release(m, r, k).usedList == m.usedList
  {
    InsertFacts(m.freeList, k, r);
  }

  /** The position found for a range puts it between the free ranges below it and those above it. */
  lemma ReleaseNeighbours(m: Mem, x: Flight, r: Ptr, k: nat)
    requires RangesOk(m, x) && ReleaseOk(m, x, r, k)
    ensures k <= |m.freeList| && r !in m.freeList
    ensures forall i :: 0 <= i < k ==> FreeOrder(m, Released(x, r), m.freeList[i], r)
    ensures forall i :: k <= i < |m.freeList| ==> FreeOrder(m, Released(x, r), r, m.freeList[i])
  {
    var u := m.freeList;
    RangesUnfold(m, x);
    hide RangesOk, TileOk, SortedUsed, SortedFree, Apart;
    forall i | 0 <= i < |u|
      ensures u[i] in m.ranges && u[i] != r && 0 <= m.ranges[u[i]].npages && Disjoint(m.ranges[u[i]], m.ranges[r])
    {
      assert u[i] in u;
      ApartUse(m, u[i], r);
    }
    assert 1 <= m.ranges[r].npages;
  }

  lemma FreeInserted(m: Mem, m': Mem, x: Flight, x': Flight, k: nat, e: Ptr)
    requires SortedFree(m, x) && k <= |m.freeList| && m'.freeList == InsertAt(m.freeList, k, e) && m'.ranges == m.ranges
    requires x.touchPrev <= x'.touchPrev && x.touchNext <= x'.touchNext
    requires forall i :: 0 <= i < k ==> FreeOrder(m, x', m.freeList[i], e)
    requires forall i :: k <= i < |m.freeList| ==> FreeOrder(m, x', e, m.freeList[i])
    ensures SortedFree(m', x')
  {
    InsertFacts(m.freeList, k, e);
    hide InsertAt;
    var u, w := m.freeList, m'.freeList;
    forall p, q | 0 <= p < q < |w| ensures FreeOrder(m', x', w[p], w[q]) {
      var p', q' := if p < k then p else p - 1, if q < k then q else q - 1;
      if p != k && q != k { SortedUse(m, x, p', q'); }
    }
  }

  lemma ReleaseSorted(m: Mem, x: Flight, r: Ptr, k: nat)
    requires RangesOk(m, x) && ReleaseOk(m, x, r, k)
    ensures SortedFree(Release(m, r, k), Released(x, r))
  {
    ReleaseNeighbours(m, x, r, k);
    RangesUnfold(m, x);
    hide RangesOk, SortedFree, FreeOrder, TileOk, SortedUsed, Apart, PlacesOk, BoundsOk, IsPosition, InsertAt;
    FreeInserted(m, Release(m, r, k), x, Released(x, r), k, r);
  }

  lemma ReleaseMapped(m: Mem, x: Flight, r: Ptr, k: nat)
    requires RangesOk(m, x) && MappedOk(m) && ReleaseOk(m, x, r, k)
    ensures k <= |m.freeList| && r in m.ranges && MappedOk(Release(m, r, k))
  {
    ReleaseLists(m, x, r, k);
    RangesUnfold(m, x);
    hide RangesOk, SortedFree, InsertAt, FramesOk, PlacesOk, Apart, TileOk, SortedUsed, IsPosition, UnmapAll;
    UnmapAllOk(m.mapped, m.pages, m.ranges[r].base, m.ranges[r].npages);
  }

  lemma ReleaseRanges(m: Mem, x: Flight, r: Ptr, k: nat)
    requires RangesOk(m, x) && MappedOk(m) && ReleaseOk(m, x, r, k)
    ensures RangesOk(Release(m, r, k), Released(x, r)) && MappedOk(Release(m, r, k))
  {
    var m', x' := Release(m, r, k), Released(x, r);
    ReleaseSorted(m, x, r, k);
    ReleaseLists(m, x, r, k);
    assert m'.tile == m.tile;
    ReleaseMapped(m, x, r, k);
    RangesUnfold(m, x);
    hide RangesOk, MappedOk, SortedFree, InsertAt, Release, IsPosition;
    assert SortedUsed(m') by {
      forall i, j | 0 <= i < j < |m.usedList| ensures UsedOrder(m', m.usedList[i], m.usedList[j]) {
        assert UsedOrder(m, m.usedList[i], m.usedList[j]);
      }
    }
    hide SortedUsed;
    SpansFrame(m, m');
    hide Apart, BoundsOk, TileOk;
    assert PlacesOk(m', x');
    RangesFold(m', x');
  }

  lemma ReleaseKept(m: Mem, x: Flight, r: Ptr, k: nat)
    requires RangesOk(m, x) && SlabRangesOk(m, x) && ReleaseOk(m, x, r, k)
    ensures KeepsSlabRanges(m, Release(m, r, k), x, Released(x, r))
    ensures UserRanges(Release(m, r, k)) == UserRanges(m)
  {
    var m', x' := Release(m, r, k), Released(x, r);
    ReleaseLists(m, x, r, k);
    RangesUnfold(m, x);
    assert forall n, p :: n in m.ranges && n != r && Covers(m.ranges[n], p) ==> !Covers(m.ranges[r], p);
    forall q | q in x.dangling ensures q in m.ranges && q !in m.freeList && q !in x.pending { assert LabelOk(m, x, q); }
    hide RangesOk, Covers, Backed, Apart, BoundsOk, TileOk, SortedUsed, SortedFree, SlabRangesOk, LabelOk, InsertAt,
      IsPosition;
    assert forall p :: p in m.mapped && !Covers(m.ranges[r], p) ==> p in m'.mapped;
    hide Release;
  }

  /** Freeing a pending range unmaps its pages and keeps the invariant; it may now touch its neighbours. */
  lemma ReleaseKeeps(m: Mem, x: Flight, r: Ptr, k: nat)
    requires Inv(m, x) && ReleaseOk(m, x, r, k)
    ensures Inv(Release(m, r, k), Released(x, r))
    ensures UserRanges(Release(m, r, k)) == UserRanges(m) && UserObjects(Release(m, r, k)) == UserObjects(m)
  {
    hide RangesOk, MappedOk, SlabsOk, HomeOk, SlabRangesOk, LinksOk, KeepsSlabRanges, UserRanges, UserObjects, InsertAt,
      Covers, IsPosition;
    ReleaseRanges(m, x, r, k);
    ReleaseKept(m, x, r, k);
    RangeStepKeeps(m, Release(m, r, k), x,
      Released(x, r)) by { assert k <= |m.freeList| by { PositionBound(m, m.freeList, k, m.ranges[r].base); } }
  }

  lemma PositionBound(m: Mem, l: seq<Ptr>, k: nat, p: int)
    requires IsPosition(m, l, k, p)
    ensures k <= |l|
  {}

  // ---------------------------------------------------------------- merging two contiguous free ranges

  /** The free range at position `i` absorbs the next one, whose structure holds nothing valid any more. */
  function Merge(m: Mem, i: nat): Mem
    requires i + 1 < |m.freeList| && m.freeList[i] in m.ranges && m.freeList[i + 1] in m.ranges
  {
    var r, q := m.freeList[i], m.freeList[i + 1];
    m.(freeList := RemoveAt(m.freeList, i + 1),
       ranges := (m.ranges - {q})[r := m.ranges[r].(npages := m.ranges[r].npages + m.ranges[q].npages)],
       tile := map p | p in m.tile :: if m.tile[p] == q then r else m.tile[p])
  }

  function Merged(x: Flight, r: Ptr, q: Ptr): Flight {
    x.(heldRanges := x.heldRanges + {q}, touchPrev := x.touchPrev - {q},
       touchNext := x.touchNext - {r, q} + if q in x.touchNext then {r} else {})
  }

  ghost predicate MergeOk(m: Mem, i: nat) {
    && i + 1 < |m.freeList| && m.freeList[i] in m.ranges && m.freeList[i + 1] in m.ranges
    && m.freeList[i] != m.freeList[i + 1]
    && End(m.ranges[m.freeList[i]]) == m.ranges[m.freeList[i + 1]].base
  }

  lemma MergeSpans(m: Mem, i: nat)
    requires MergeOk(m, i)
    ensures var m', r, q := Merge(m, i), m.freeList[i], m.freeList[i + 1];
      && m'.ranges.Keys == m.ranges.Keys - {q}
      && m'.ranges[r] == m.ranges[r].(npages := m.ranges[r].npages + m.ranges[q].npages)
      && (forall n :: n in m.ranges && n != r && n != q ==> m'.ranges[n] == m.ranges[n])
      && m'.usedList == m.usedList && m'.mapped == m.mapped && m'.pages == m.pages
      && m'.slabs == m.slabs && m'.caches == m.caches && m'.home == m.home
  {
    hide RemoveAt;
  }

  lemma MergeLists(m: Mem, x: Flight, i: nat)
    requires RangesOk(m, x) && MergeOk(m, i)
    ensures forall n :: n in Merge(m, i).freeList <==> n in m.freeList && n != m.freeList[i + 1]
    ensures m.freeList[i] in m.freeList && m.freeList[i + 1] in m.freeList
  {
    ListsDistinct(m, x);
    RemoveFacts(m.freeList, i + 1);
    hide RangesOk, NoDup, RemoveAt;
  }

  /** Nothing, not even an empty range, lies between two contiguous neighbours of the free list. */
  lemma NothingBetween(m: Mem, x: Flight, i: nat, o: Ptr)
    requires RangesOk(m, x) && MergeOk(m, i) && o in m.ranges && o != m.freeList[i] && o != m.freeList[i + 1]
    ensures End(m.ranges[o]) <= m.ranges[m.freeList[i]].base || End(m.ranges[m.freeList[i + 1]]) <= m.ranges[o].base
  {
    var r, q := m.freeList[i], m.freeList[i + 1];
    RangesUnfold(m, x);
    assert r in m.freeList && q in m.freeList;
    hide RangesOk, SortedFree, Apart, TileOk, SortedUsed;
    ApartUse(m, o, r);
    ApartUse(m, o, q);
    if o in m.freeList {
      var t :| 0 <= t < |m.freeList| && m.freeList[t] == o;
      if t < i { SortedUse(m, x, t, i); } else { SortedUse(m, x, i + 1, t); }
    }
  }

  lemma MergeApart(m: Mem, x: Flight, i: nat)
    requires RangesOk(m, x) && MergeOk(m, i)
    ensures BoundsOk(Merge(m, i)) && Apart(Merge(m, i))
  {
    MergeSpans(m, i);
    RangesUnfold(m, x);
    var m', r, q := Merge(m, i), m.freeList[i], m.freeList[i + 1];
    hide Merge, RangesOk, SortedFree, TileOk, SortedUsed, PlacesOk;
    forall n, o | n in m'.ranges && o in m'.ranges && n != o ensures Disjoint(m'.ranges[n], m'.ranges[o]) {
      if n == r {
        NothingBetween(m, x, i, o);
      } else if o == r {
        NothingBetween(m, x, i, n);
      } else {
        ApartUse(m, n, o);
      }
    }
  }

  lemma MergeTile(m: Mem, i: nat)
    requires TileOk(m) && BoundsOk(m) && MergeOk(m, i)
    ensures TileOk(Merge(m, i))
  {
    MergeSpans(m, i);
    var m', r, q := Merge(m, i), m.freeList[i], m.freeList[i + 1];
    assert m'.tile.Keys == m.tile.Keys && forall p :: p in m.tile ==> m'.tile[p] == if m.tile[p] == q then r
      else m.tile[p];
    hide Merge;
    forall p | BASE_PAGE <= p < TOP_PAGE
      ensures p in m'.tile && m'.tile[p] in m'.ranges && Covers(m'.ranges[m'.tile[p]], p)
    {
      assert p in m.tile && Covers(m.ranges[m.tile[p]], p);
    }
  }

  lemma MergeSorted(m: Mem, x: Flight, i: nat)
    requires SortedFree(m, x) && MergeOk(m, i) && BoundsOk(m)
    requires forall j :: 0 <= j < |m.freeList| ==> m.freeList[j] in m.ranges
    ensures SortedFree(Merge(m, i), Merged(x, m.freeList[i], m.freeList[i + 1]))
  {
    MergeSpans(m, i);
    RemoveFacts(m.freeList, i + 1);
    var m', r, q := Merge(m, i), m.freeList[i], m.freeList[i + 1];
    var x' := Merged(x, r, q);
    var u, w := m.freeList, m'.freeList;
    assert w == RemoveAt(u, i + 1);
    hide RemoveAt, Merge, NoDup, SortedFree, Merged;
    forall a, b | 0 <= a < b < |w| ensures FreeOrder(m', x', w[a], w[b]) {
      MergePair(m, m', x, i, if a < i + 1 then a else a + 1, if b < i + 1 then b else b + 1);
    }
    SortedFold(m', x');
  }

  lemma MergePair(m: Mem, m': Mem, x: Flight, i: nat, a: nat, b: nat)
    requires SortedFree(m, x) && MergeOk(m, i) && BoundsOk(m) && a < b < |m.freeList| && a != i + 1 && b != i + 1
    requires forall j :: 0 <= j < |m.freeList| ==> m.freeList[j] in m.ranges
    requires m'.ranges == Merge(m, i).ranges
    ensures FreeOrder(m', Merged(x, m.freeList[i], m.freeList[i + 1]), m.freeList[a], m.freeList[b])
  {
    MergeSpans(m, i);
    SortedUse(m, x, i, i + 1);
    if a == i { SortedUse(m, x, i + 1, b); } else { SortedUse(m, x, a, b); }
    if a != i && b != i { NotEndpoints(m, x, i, a, b); }
    hide SortedFree, Merge;
  }

  lemma NotEndpoints(m: Mem, x: Flight, i: nat, a: nat, b: nat)
    requires SortedFree(m, x) && i + 1 < |m.freeList| && a < |m.freeList| && b < |m.freeList|
    requires BoundsOk(m) && forall j :: 0 <= j < |m.freeList| ==> m.freeList[j] in m.ranges
    requires a != i && b != i && a != i + 1 && b != i + 1
    ensures m.freeList[a] != m.freeList[i] && m.freeList[b] != m.freeList[i]
    ensures m.freeList[a] != m.freeList[i + 1] && m.freeList[b] != m.freeList[i + 1]
  {
    if a < i { SortedUse(m, x, a, i); } else { SortedUse(m, x, i, a); }
    if b < i { SortedUse(m, x, b, i); } else { SortedUse(m, x, i, b); }
    if a < i + 1 { SortedUse(m, x, a, i + 1); } else { SortedUse(m, x, i + 1, a); }
    if b < i + 1 { SortedUse(m, x, b, i + 1); } else { SortedUse(m, x, i + 1, b); }
  }

  lemma MergeRanges(m: Mem, x: Flight, i: nat)
    requires RangesOk(m, x) && MappedOk(m) && MergeOk(m, i)
    ensures RangesOk(Merge(m, i), Merged(x, m.freeList[i], m.freeList[i + 1])) && MappedOk(Merge(m, i))
  {
    var m', r, q := Merge(m, i), m.freeList[i], m.freeList[i + 1];
    var x' := Merged(x, r, q);
    RangesUnfold(m, x);
    MergeLists(m, x, i);
    MergeSpans(m, i);
    FreeInRanges(m, x);
    hide Merge;
    MergeApart(m, x, i);
    hide RangesOk;
    assert MappedOk(m') by { hide BoundsOk, Apart, TileOk, SortedUsed, SortedFree, PlacesOk; }
    hide MappedOk;
    assert PlacesOk(m', x') by { hide BoundsOk, Apart, TileOk, SortedUsed, SortedFree; }
    assert SortedUsed(m') by {
      hide BoundsOk, Apart, TileOk, SortedFree;
      forall i, j | 0 <= i < j < |m.usedList| ensures UsedOrder(m', m.usedList[i], m.usedList[j]) {
        assert UsedOrder(m, m.usedList[i], m.usedList[j]);
        assert m.usedList[i] in m.usedList && m.usedList[j] in m.usedList;
      }
    }
    hide PlacesOk, SortedUsed, BoundsOk, Apart, TileOk, SortedFree;
    MergeTile(m, i);
    MergeSorted(m, x, i);
    RangesFold(m', x');
  }

  lemma MergeKept(m: Mem, x: Flight, i: nat)
    requires RangesOk(m, x) && SlabRangesOk(m, x) && MergeOk(m, i)
    ensures KeepsSlabRanges(m, Merge(m, i), x, Merged(x, m.freeList[i], m.freeList[i + 1]))
  {
    var m', r, q := Merge(m, i), m.freeList[i], m.freeList[i + 1];
    MergeLists(m, x, i);
    MergeSpans(m, i);
    hide RangesOk, Covers, Backed, Merge;
    DanglingPlaces(m, x);
    hide SlabRangesOk, LabelOk;
  }

  lemma DanglingPlaces(m: Mem, x: Flight)
    requires SlabRangesOk(m, x)
    ensures forall n :: n in x.dangling ==> n in m.ranges && n !in m.freeList && n !in x.pending
    ensures KeptOk(m, x)
  {
    hide Backed;
    forall n | n in x.dangling ensures n in m.ranges && n !in m.freeList && n !in x.pending { assert LabelOk(m, x, n); }
  }

  lemma MergeUser(m: Mem, x: Flight, i: nat)
    requires RangesOk(m, x) && MergeOk(m, i)
    ensures UserRanges(Merge(m, i)) == UserRanges(m)
  {
    var m', r, q := Merge(m, i), m.freeList[i], m.freeList[i + 1];
    MergeLists(m, x, i);
    MergeSpans(m, i);
    RangesUnfold(m, x);
    hide RangesOk, Merge, Apart, BoundsOk, TileOk, SortedUsed, SortedFree;
  }

  lemma MergeHeld(m: Mem, x: Flight, i: nat)
    requires MergeOk(m, i) && m.ranges.Keys !! x.heldRanges
    ensures var m', x' := Merge(m, i), Merged(x, m.freeList[i], m.freeList[i + 1]);
      m'.ranges.Keys + x'.heldRanges == m.ranges.Keys + x.heldRanges && m'.ranges.Keys !! x'.heldRanges
        && x'.heldRanges != x.heldRanges
  {
    MergeSpans(m, i);
    hide Merge;
    assert m.freeList[i + 1] in Merged(x, m.freeList[i], m.freeList[i + 1]).heldRanges;
  }

  /** Merging keeps the invariant and releases one range structure. */
  lemma MergeKeeps(m: Mem, x: Flight, i: nat)
    requires Inv(m, x) && MergeOk(m, i)
    ensures Inv(Merge(m, i), Merged(x, m.freeList[i], m.freeList[i + 1]))
    ensures UserRanges(Merge(m, i)) == UserRanges(m) && UserObjects(Merge(m, i)) == UserObjects(m)
  {
    hide RangesOk, MappedOk, SlabsOk, HomeOk, SlabRangesOk, LinksOk, KeepsSlabRanges, UserRanges, UserObjects;
    HeldNotRanges(m, x);
    MergeHeld(m, x, i);
    MergeSpans(m, i);
    MergeRanges(m, x, i);
    MergeKept(m, x, i);
    MergeUser(m, x, i);
    hide Merge;
    RangeStepKeeps(m, Merge(m, i), x, Merged(x, m.freeList[i], m.freeList[i + 1]));
  }

  lemma FreeInRanges(m: Mem, x: Flight)
    requires PlacesOk(m, x)
    ensures forall j :: 0 <= j < |m.freeList| ==> m.freeList[j] in m.ranges
  {
    forall j | 0 <= j < |m.freeList| ensures m.freeList[j] in m.ranges {
      var r := m.freeList[j];
      assert r in m.freeList;
      assert r in m.ranges <==> r in m.freeList || r in m.usedList || r in x.pending;
    }
  }

  // ---------------------------------------------------------------- not merging

  function NoTouchPrev(x: Flight): Flight { x.(touchPrev := {}) }
  function NoTouchNext(x: Flight): Flight { x.(touchNext := {}) }

  /** A range that does not touch the one before it in the list touches no range below it. */
  lemma SkipPrev(m: Mem, x: Flight, k: nat)
    requires Inv(m, x) && k < |m.freeList| && x.touchPrev == {m.freeList[k]} && x.touchNext <= {m.freeList[k]}
    requires k > 0 && m.freeList[k - 1] in m.ranges && m.freeList[k] in m.ranges ==>
               End(m.ranges[m.freeList[k - 1]]) != m.ranges[m.freeList[k]].base
    ensures Inv(m, NoTouchPrev(x))
  {
    hide MappedOk, SlabsOk, HomeOk, SlabRangesOk, LinksOk;
    var x' := NoTouchPrev(x);
    var l, r := m.freeList, m.freeList[k];
    RangesUnfold(m, x);
    FreeInRanges(m, x);
    ListsDistinct(m, x);
    hide RangesOk, SortedFree, Apart, TileOk, SortedUsed, PlacesOk, Inv;
    forall p, q | 0 <= p < q < |l| ensures FreeOrder(m, x', l[p], l[q]) {
      SortedUse(m, x, p, q);
      assert l[p] != r || p == k;
      assert l[q] != r || q == k;
      if q == k && p + 1 < k {
        SortedUse(m, x, p, k - 1);
        SortedUse(m, x, k - 1, k);
        assert 0 <= m.ranges[l[k - 1]].npages;
      }
    }
    SortedFold(m, x');
    FlightFold(m, x, x');
  }

  lemma SkipNext(m: Mem, x: Flight, k: nat)
    requires Inv(m, x) && k < |m.freeList| && x.touchPrev == {} && x.touchNext == {m.freeList[k]}
    requires k + 1 < |m.freeList| && m.freeList[k + 1] in m.ranges && m.freeList[k] in m.ranges ==>
               End(m.ranges[m.freeList[k]]) != m.ranges[m.freeList[k + 1]].base
    ensures Inv(m, NoTouchNext(x))
  {
    hide MappedOk, SlabsOk, HomeOk, SlabRangesOk, LinksOk;
    var x' := NoTouchNext(x);
    var l, r := m.freeList, m.freeList[k];
    RangesUnfold(m, x);
    FreeInRanges(m, x);
    ListsDistinct(m, x);
    hide RangesOk, SortedFree, Apart, TileOk, SortedUsed, PlacesOk, Inv;
    forall p, q | 0 <= p < q < |l| ensures FreeOrder(m, x', l[p], l[q]) {
      SortedUse(m, x, p, q);
      if p == k && k + 1 < q {
        SortedUse(m, x, k + 1, q);
        SortedUse(m, x, k, k + 1);
        assert 0 <= m.ranges[l[k + 1]].npages;
      }
    }
    SortedFold(m, x');
    FlightFold(m, x, x');
  }

  lemma FlightFold(m: Mem, x: Flight, x': Flight)
    requires Inv(m, x) && SortedFree(m, x') && x' == x.(touchPrev := x'.touchPrev, touchNext := x'.touchNext)
    ensures Inv(m, x')
  {
    RangesUnfold(m, x);
    hide BoundsOk, Apart, TileOk, SortedUsed, SortedFree, MappedOk, SlabsOk, HomeOk, Backed;
    assert PlacesOk(m, x') by { hide LinksOk, SlabRangesOk; }
    FlightLinks(m, x, x');
    assert SlabRangesOk(m, x') by {
      hide PlacesOk, LinksOk;
      FlightSlabRanges(m, x, x');
    }
  }

  lemma FlightLinks(m: Mem, x: Flight, x': Flight)
    requires LinksOk(m, x)
    requires x'.heldRanges == x.heldRanges && x'.heldSlabs == x.heldSlabs && x'.heldCaches == x.heldCaches
    ensures LinksOk(m, x')
  {
    hide AllocatedFrom, IsOffSlab, Structs, Named;
  }

  lemma FlightSlabRanges(m: Mem, x: Flight, x': Flight)
    requires SlabRangesOk(m, x) && x'.pending == x.pending && x'.dangling == x.dangling && x'.kept == x.kept
    ensures SlabRangesOk(m, x')
  {
    hide AllMapped;
    forall s | s in m.slabs ensures Backed(m, x', s) { assert Backed(m, x, s); }
    forall n | n in m.ranges ensures LabelOk(m, x', n) { assert LabelOk(m, x, n); }
  }
}
