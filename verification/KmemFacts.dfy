/**
 What the allocator's methods say of their results, and the facts their proofs use.
 */
module KmemFacts {
  import opened KmemState
  import opened KmemGeometry
  import opened KmemPages
  import opened KmemSlabSteps
  import opened KmemRangeSteps
  import opened KmemFreeSteps

  /** `Halted`: the assertion of lookup_range failed, and the source halts. */
  datatype Ret = OK | EINVAL | EBUSY | ENOMEM | Halted

  /** What a lookup found: a structure, nothing, or a mapped page without owner. */
  datatype Answer = Yes(at: Ptr) | No | Halt

  /** No range is waiting to be freed and no free range may touch its neighbour. */
  predicate Settled(x: Flight) { x.pending == {} && x.touchPrev == {} && x.touchNext == {} }
  predicate Calm(x: Flight) { Settled(x) && x.dangling == {} }

  /** The reserve gained `d` descriptors, or is at its required level of two anyway. */
  predicate ReserveGrew(m: Mem, m': Mem, d: int) { Reserve(m') >= Reserve(m) + d || Reserve(m') >= 2 }

  /** Page `p` is in a free range. */
  predicate OnFree(m: Mem, p: int) { p in m.tile && m.tile[p] in m.freeList }

  /** Pages went to free ranges only, and no page of a free range was taken. */
  ghost predicate OnlyFreed(m: Mem, m': Mem) {
    forall p :: p in m.tile ==> p in m'.tile && (OnFree(m', p) || (!OnFree(m, p) && m'.tile[p] == m.tile[p]))
  }

  /** All pages of `r` are in free ranges. */
  ghost predicate PagesFree(m: Mem, r: Range) { forall p :: Covers(r, p) ==> OnFree(m, p) }

  /** No cache changed its dimensions or got a slab, pages were only freed, and the reserve gained `d`. */
  ghost predicate Steady(m: Mem, m': Mem, d: int) {
    SameDims(m, m') && ReserveGrew(m, m', d) && m'.slabs.Keys <= m.slabs.Keys && OnlyFreed(m, m')
  }

  /** What callers hold did not change. */
  predicate SameUser(m: Mem, m': Mem) { UserRanges(m') == UserRanges(m) && UserObjects(m') == UserObjects(m) }

  /** Free ranges of two pages or more lost at most one page, at their beginning. */
  ghost predicate KeepsFree(m: Mem, m': Mem) {
    forall f :: f in m.freeList && f in m.ranges && m.ranges[f].npages >= 2 ==>
      f in m'.freeList && f in m'.ranges
      && m'.ranges[f].npages >= m.ranges[f].npages - 1 && End(m'.ranges[f]) == End(m.ranges[f])
  }

  /** Address `a` is not a free object: freeing it is either correct or detected. */
  ghost predicate NotFreeObject(m: Mem, a: Ptr) {
    forall s :: s in m.slabs ==> a !in m.slabs[s].free
  }

  /** Address `a` holds no structure in the making. */
  predicate Idle(x: Flight, a: Ptr) { a !in x.heldRanges && a !in x.heldSlabs && a !in x.heldCaches }

  /** An object of an internal cache may only be given back while nothing valid is stored in it. */
  predicate MayFree(m: Mem, x: Flight, a: Ptr) {
    a in m.home && m.home[a] in m.slabs ==>
      && (m.slabs[m.home[a]].cache == RANGE_CACHE ==> a in x.heldRanges)
      && (m.slabs[m.home[a]].cache == KSLAB_CACHE ==> a in x.heldSlabs)
      && (m.slabs[m.home[a]].cache == CACHE_CACHE ==> a in x.heldCaches)
  }

  /** `n` is a new caller's range of `nb` pages. */
  predicate Given(m: Mem, m': Mem, n: Ptr, nb: int) {
    && n !in UserRanges(m) && n in m'.ranges && n in m'.usedList
    && m'.ranges[n].npages == nb && m'.ranges[n].slab.None?
    && UserRanges(m') == UserRanges(m)[n := m'.ranges[n]]
  }

  lemma InvFacts(m: Mem, x: Flight)
    requires Inv(m, x)
    ensures forall i :: 0 <= i < |m.usedList| ==> m.usedList[i] in m.ranges
    ensures forall i, j :: 0 <= i < j < |m.usedList| ==> m.ranges[m.usedList[i]].base <= m.ranges[m.usedList[j]].base
    ensures forall i :: 0 <= i < |m.freeList| ==> m.freeList[i] in m.ranges
    ensures RANGE_CACHE in m.caches
  {
    hide SlabRangesOk, HomeOk, LinksOk, MappedOk, RangesOk, SlabsOk;
    UsedFacts(m, x);
    FreeFacts(m, x);
    InternalCaches(m);
  }

  ghost function Elems(l: seq<Ptr>): set<Ptr> { set t | t in l }

  predicate NewWaiters(pending: set<Ptr>, e: Option<Ptr>, g: Option<Ptr>) {
    && (e.Some? ==> e.value !in pending)
    && (g.Some? ==> g.value !in pending && e != g)
  }

  /** The ranges of the slabs a round emptied join the ranges to free. */
  function Queue(l: seq<Ptr>, e: Option<Ptr>, g: Option<Ptr>): seq<Ptr> {
    l + (if e.Some? then [e.value] else []) + (if g.Some? then [g.value] else [])
  }

  lemma AppendElem(l: seq<Ptr>, e: Ptr)
    requires NoDup(l) && e !in l
    ensures NoDup(l + [e]) && Elems(l + [e]) == Elems(l) + {e}
  {}

  lemma QueueElems(l: seq<Ptr>, e: Option<Ptr>, g: Option<Ptr>)
    requires NoDup(l) && NewWaiters(Elems(l), e, g)
    ensures NoDup(Queue(l, e, g)) && Elems(Queue(l, e, g)) == Elems(l) + Waiters(e) + Waiters(g)
    ensures |Queue(l, e, g)| == |l| + |Waiters(e)| + |Waiters(g)|
  {
    hide NoDup;
    var k := l + (if e.Some? then [e.value] else []);
    if e.Some? { AppendElem(l, e.value); } else { assert k == l; }
    assert g.Some? ==> g.value !in k;
    if g.Some? { AppendElem(k, g.value); } else { assert Queue(l, e, g) == k; }
  }

  lemma SteadyRound(m0: Mem, m: Mem, m': Mem, first: bool, d: int, e: int)
    requires Steady(m, m', e) && 0 <= d && 0 <= e
    requires if first then SameButUsed(m0, m) && e == d else Steady(m0, m, d)
    ensures Steady(m0, m', d)
  {
    hide SameDims;
    if first { SteadyFirst(m0, m, m', d); } else { SteadySums(m0, m, m', d, e); }
  }

  lemma SteadySlabs(m: Mem, m': Mem, d: int, s: Ptr)
    requires Steady(m, m', d) && s !in m.slabs
    ensures s !in m'.slabs
  {}

  lemma SteadyPages(m: Mem, m': Mem, d: int, r: Range)
    requires Steady(m, m', d) && PagesFree(m, r)
    ensures PagesFree(m', r)
  {
    hide SameDims;
    forall p | Covers(r, p) ensures OnFree(m', p) { assert OnFree(m, p); }
  }

  predicate SameButUsed(m: Mem, m': Mem) {
    m'.caches == m.caches && m'.slabs == m.slabs && m'.freeList == m.freeList && m'.tile == m.tile
      && m'.ranges == m.ranges
  }

  lemma SteadySums(m0: Mem, m1: Mem, m2: Mem, d: int, e: int)
    requires Steady(m0, m1, d) && Steady(m1, m2, e) && d >= 0 && e >= 0
    ensures Steady(m0, m2, d) && Steady(m0, m2, d + e)
  {
    OnlyFreedTrans(m0, m1, m2);
    hide OnlyFreed;
  }

  lemma SteadyFirst(m0: Mem, m: Mem, m': Mem, d: int)
    requires Steady(m, m', d) && SameButUsed(m0, m)
    ensures Steady(m0, m', d)
  {}

  lemma OnlyFreedTrans(m0: Mem, m1: Mem, m2: Mem)
    requires OnlyFreed(m0, m1) && OnlyFreed(m1, m2)
    ensures OnlyFreed(m0, m2)
  {}

  lemma PopElems(l: seq<Ptr>)
    requires l != [] && NoDup(l)
    ensures NoDup(l[1..]) && l[0] !in l[1..] && Elems(l) == Elems(l[1..]) + {l[0]}
  {
    assert l == [l[0]] + l[1..];
  }

  /** Taking the next range to free off the work list. */
  lemma NextToFree(l: seq<Ptr>)
    requires NoDup(l)
    ensures l != [] ==> NoDup(l[1..]) && l[0] !in Elems(l[1..]) && Elems(l) == Elems(l[1..]) + Waiters(Some(l[0]))
    ensures l == [] ==> Elems(l) == {}
  {
    if l != [] { PopElems(l); }
  }

  lemma ElemsOfNone()
    ensures Elems([]) == {} && NoDup<Ptr>([])
  {}

  lemma SteadyZero(m: Mem, m': Mem)
    requires Steady(m, m', 0) || Steady(m, m', 1)
    ensures Steady(m, m', 0)
  {}

  lemma UnlinkShape(m: Mem, j: nat)
    requires j < |m.usedList|
    ensures SameButUsed(m, Unlink(m, j))
    ensures forall r :: FollowedByFree(Unlink(m, j), r) <==> FollowedByFree(m, r)
  {
    hide RemoveAt;
  }

  lemma InsertedRange(m: Mem, x: Flight, r: Ptr, k: nat)
    requires Inv(m, x) && r in x.pending && r in m.ranges && k <= |m.freeList|
    ensures k < |Release(m, r, k).freeList| && Release(m, r, k).freeList[k] == r && 1 <= m.ranges[r].npages
    ensures Release(m, r, k).ranges == m.ranges && Steady(m, Release(m, r, k), 0)
    ensures FollowedByFree(m, r) ==> FollowedByFree(Release(m, r, k), r)
  {
    hide MappedOk, SlabsOk, HomeOk, SlabRangesOk, LinksOk, RangesOk;
    PendingFacts(m, x, r);
    InsertFacts(m.freeList, k, r);
    hide InsertAt, Inv;
  }

  /** The pages of a range that joined the free list are free. */
  lemma ReleasedPages(m: Mem, x: Flight, r: Ptr, k: nat)
    requires Inv(m, x) && r in m.ranges && k <= |m.freeList|
    ensures PagesFree(Release(m, r, k), m.ranges[r])
  {
    hide MappedOk, SlabsOk, HomeOk, SlabRangesOk, LinksOk;
    InsertFacts(m.freeList, k, r);
    hide InsertAt;
    forall p | Covers(m.ranges[r], p) ensures OnFree(Release(m, r, k), p) { TilePage(m, x, r, p); }
  }

  lemma TilePage(m: Mem, x: Flight, r: Ptr, p: int)
    requires RangesOk(m, x) && r in m.ranges
    ensures Covers(m.ranges[r], p) <==> p in m.tile && BASE_PAGE <= p < TOP_PAGE && m.tile[p] == r
  {
    RangesUnfold(m, x);
    if Covers(m.ranges[r], p) { OnlyRange(m, x, r, p); }
  }

  /** The pages of a range from before that lost its label, and then was deleted. */
  lemma SlabPages(m0: Mem, m: Mem, m': Mem, x: Flight, n: Ptr, d: int)
    requires Inv(m0, x) && n in m0.ranges && Steady(m0, m, 0) && Inv(m, x) && n in m.ranges
    requires Steady(m, m', d) && PagesFree(m', m.ranges[n])
    ensures PagesFree(m', m0.ranges[n])
  {
    hide MappedOk, SlabsOk, HomeOk, SlabRangesOk, LinksOk, RangesOk, SameDims;
    forall p | Covers(m0.ranges[n], p) ensures OnFree(m', p) {
      TilePage(m0, x, n, p);
      TilePage(m, x, n, p);
      if !OnFree(m, p) { assert m.tile[p] == n; }
    }
  }

  lemma SlabRange(m: Mem, x: Flight, s: Ptr)
    requires Inv(m, x) && s in m.slabs
    ensures m.slabs[s].range in m.ranges
  {
    hide RangesOk, MappedOk, SlabsOk, HomeOk, LinksOk;
    assert Backed(m, x, s);
  }

  /** A page of the kernel area has an owner, if it is mapped. */
  lemma AreaOwned(m: Mem, x: Flight, p: int)
    requires Inv(m, x)
    ensures Unowned(m.pages, p) <==> p in m.pages.frameOf && p !in m.mapped
    ensures p in m.pages.frameOf && !Unowned(m.pages, p) ==> p in m.mapped && Names(m.pages, p, m.mapped[p])
    ensures InArea(p) ==> !Unowned(m.pages, p)
  {
    hide RangesOk, OwnersOk, SlabsOk, HomeOk, SlabRangesOk, LinksOk;
    if p in m.pages.frameOf && p !in m.mapped { assert Unowned(m.pages, p); }
    if p in m.mapped { assert Names(m.pages, p, m.mapped[p]); }
  }

  lemma DropStale(m: Mem, x: Flight, f: Frame)
    requires Inv(m, x) && IsFresh(m.pages, f)
    ensures var m' := m.(pages := m.pages.(rangeOf := m.pages.rangeOf - {f}));
      Inv(m', x) && SameUser(m, m')
  {
    hide RangesOk, SlabsOk, HomeOk, SlabRangesOk, LinksOk, FramesOk, UserRanges, UserObjects;
    StaleOk(m.mapped, m.pages, f);
    PagesKeeps(m, m.(pages := m.pages.(rangeOf := m.pages.rangeOf - {f})), x);
  }

  /** What an address that is not an object gets from free_object. */
  function Refused(m: Mem, a: Ptr): Ret { if Unowned(m.pages, PageOf(a)) then Halted else EINVAL }

  lemma OwnerFacts(m: Mem, p: int)
    requires MappedOk(m) && p in m.mapped
    ensures m.mapped[p] in m.ranges && m.mapped[p] !in m.freeList && Covers(m.ranges[m.mapped[p]], p)
  {
    hide FramesOk;
  }

  /** The page of an allocated object has an owner. */
  lemma HomeOwned(m: Mem, x: Flight, a: Ptr)
    requires Inv(m, x) && a in m.home
    ensures !Unowned(m.pages, PageOf(a))
  {
    HomeRange(m, x, a);
    AreaOwned(m, x, PageOf(a));
    assert InArea(PageOf(a)) by {
      hide MappedOk, SlabsOk, HomeOk, SlabRangesOk, LinksOk, IsObject;
      RangesUnfold(m, x);
    }
  }

  /** The pending range an operation produced, if any. */
  function Waiters(e: Option<Ptr>): set<Ptr> { if e.Some? then {e.value} else {} }

  /** `x` after the free range `r` absorbed `q`, with the range `e` of an emptied slab waiting. */
  function AfterAbsorb(x: Flight, r: Ptr, q: Ptr, e: Option<Ptr>): Flight {
    x.(pending := x.pending + Waiters(e), touchPrev := x.touchPrev - {q},
       touchNext := x.touchNext - {r, q} + if q in x.touchNext then {r} else {})
  }

  /** Some free range starts exactly where range `r` ends. */
  ghost predicate FollowedByFree(m: Mem, r: Ptr) {
    r in m.ranges && exists f :: f in m.freeList && f in m.ranges && m.ranges[f].base == End(m.ranges[r])
  }

  ghost predicate Absorbed(m: Mem, m': Mem, x: Flight, i: nat, e: Option<Ptr>) {
    && MergeOk(m, i)
    && Inv(m', AfterAbsorb(x, m.freeList[i], m.freeList[i + 1], e))
    && (e.Some? ==> e.value !in x.pending)
    && Coalesced(m, m', i)
  }

  /** The free range at `i` took over the pages of the next one; every other range kept its pages. */
  ghost predicate Coalesced(m: Mem, m': Mem, i: nat)
    requires i + 1 < |m.freeList| && m.freeList[i] in m.ranges && m.freeList[i + 1] in m.ranges
  {
    var r, q := m.freeList[i], m.freeList[i + 1];
    && |m'.freeList| == |m.freeList| - 1 && m'.freeList[i] == r
    && (forall f :: f in m'.freeList <==> f in m.freeList && f != q)
    && r in m'.ranges && m'.ranges[r].base == m.ranges[r].base
    && m'.ranges[r].npages == m.ranges[r].npages + m.ranges[q].npages
    && (forall n :: n in m.ranges && n != r && n != q ==> SameSpan(m, m', n))
  }

  lemma MergeIndices(m: Mem, i: nat)
    requires MergeOk(m, i)
    ensures i + 1 < |m.freeList| && m.freeList[i + 1] in m.ranges && Merge(m, i).usedList == m.usedList
    ensures Merge(m, i).freeList == RemoveAt(m.freeList, i + 1) && Merge(m, i).caches == m.caches
  {
    hide RemoveAt;
  }

  lemma MergeSteady(m: Mem, i: nat)
    requires MergeOk(m, i)
    ensures Steady(m, Merge(m, i), 0)
  {
    MergeSpans(m, i);
    hide Merge;
  }

  lemma SteadySame(m: Mem, m': Mem)
    requires SameButUsed(m, m')
    ensures Steady(m, m', 0)
  {}

  lemma ReleasedWaits(m: Mem, m': Mem, y: Flight, x: Flight, e: Ptr)
    requires Inv(m', x) && StructReleased(m, m', Some(e)) && SlabRangesOk(m, y) && y.kept == x.kept
    ensures e in m'.usedList && e in m'.ranges && m'.ranges[e].slab.None? && e !in x.kept
    ensures UserRanges(m') - {e} == UserRanges(m) && e !in x.pending
  {
    hide SlabsOk, HomeOk, SlabRangesOk, LinksOk, MappedOk, RangesOk;
    LabelledNotKept(m, y, e);
    hide UserRanges;
    NotFree(m', x, e);
  }

  lemma LabelledNotKept(m: Mem, x: Flight, n: Ptr)
    requires SlabRangesOk(m, x) && n in m.ranges && m.ranges[n].slab.Some?
    ensures n !in x.kept
  {
    hide Backed, LabelOk, AllMapped;
  }

  /** `m`, merged at `i`, then `q` given back leaving `n`, then `e` unlinked leaving `m'`. */
  lemma AbsorbDone(m: Mem, n: Mem, m': Mem, x: Flight, i: nat, e: Option<Ptr>)
    requires MergeOk(m, i) && RangesOk(m, x) && LinksOk(m, x) && StructReleased(Merge(m, i), n, e)
    requires m'.freeList == n.freeList && m'.ranges == n.ranges
    requires var z := Unhold(KmemFreeSteps.Merged(x, m.freeList[i], m.freeList[i + 1]), RANGE_CACHE, m.freeList[i + 1]);
      Inv(m', if e.Some? then Waiting(z, e.value) else z)
    requires e.Some? ==> e.value !in x.pending
    ensures Absorbed(m, m', x, i, e)
  {
    HeldNotRanges(m, x);
    MergeIndices(m, i);
    AbsorbFlight(x, m.freeList[i], m.freeList[i + 1], e);
    hide Inv, RangesOk, UserRanges, UserObjects, LinksOk, RemoveAt, Unhold, KmemFreeSteps.Merged, AfterAbsorb,
      Coalesced;
    AbsorbSpans(m, n, m', x, i, e);
  }

  lemma AbsorbSpans(m: Mem, n: Mem, m': Mem, x: Flight, i: nat, e: Option<Ptr>)
    requires MergeOk(m, i) && RangesOk(m, x) && StructReleased(Merge(m, i), n, e)
    requires m'.freeList == n.freeList && m'.ranges == n.ranges
    ensures Coalesced(m, m', i)
  {
    hide StructReleased, RangesOk, Merge, RemoveAt, NoDup;
    StructSpans(Merge(m, i), n, m', e);
    MergeSpans(m, i);
    MergeLists(m, x, i);
    MergeIndices(m, i);
    RemoveFacts(m.freeList, i + 1);
    var r, q := m.freeList[i], m.freeList[i + 1];
    forall k | k in m.ranges && k != q ensures SameSpan(Merge(m, i), m', k) {}
  }

  lemma StructSpans(m: Mem, n: Mem, m': Mem, e: Option<Ptr>)
    requires StructReleased(m, n, e) && m'.ranges == n.ranges
    ensures n.freeList == m.freeList && forall r :: r in m.ranges ==> SameSpan(m, m', r)
  {
    hide UserRanges, UserObjects;
  }

  lemma AbsorbFlight(x: Flight, r: Ptr, q: Ptr, e: Option<Ptr>)
    requires q !in x.heldRanges
    ensures var z := Unhold(KmemFreeSteps.Merged(x, r, q), RANGE_CACHE, q);
      AfterAbsorb(x, r, q, e) == if e.Some? then Waiting(z, e.value) else z
  {
    var z := Unhold(KmemFreeSteps.Merged(x, r, q), RANGE_CACHE, q);
    assert z.heldRanges == x.heldRanges;
    assert x.pending + {} == x.pending;
  }

  /** Slab `s` is gone and its range has no slab link, but is still used. */
  ghost predicate SlabGone(m: Mem, m': Mem, s: Ptr) {
    WholeSlabFree(m, s) && m.slabs[s].range in m.ranges && m' == ClearLabel(RemoveSlab(m, s), m.slabs[s].range)
  }

  /** Object `a` went back to its cache. */
  ghost predicate FreedKeeps(m: Mem, m': Mem, x: Flight, a: Ptr) {
    a in m.home && m.home[a] in m.slabs && Inv(m', Unhold(x, m.slabs[m.home[a]].cache, a))
  }

  /** A range structure was given back; `e` is the range of the slab that became empty, now held by nobody. */
  ghost predicate StructReleased(m: Mem, m': Mem, e: Option<Ptr>) {
    && m'.freeList == m.freeList && m'.usedList == m.usedList && UserObjects(m') == UserObjects(m)
    && (e.None? ==> m'.ranges == m.ranges && UserRanges(m') == UserRanges(m))
    && (e.Some? ==>
          && e.value in m.ranges && e.value in m.usedList && e.value !in UserRanges(m)
          && m'.ranges == m.ranges[e.value := m.ranges[e.value].(slab := None)]
          && UserRanges(m') == UserRanges(m)[e.value := m'.ranges[e.value]])
  }

  lemma InternalCaches(m: Mem)
    requires SlabsOk(m)
    ensures RANGE_CACHE in m.caches && m.caches[RANGE_CACHE].onSlab && m.caches[RANGE_CACHE].minFree == 2
    ensures m.caches[RANGE_CACHE].nbPages == 1 && m.caches[RANGE_CACHE].nbObjects == RANGE_OBJECTS
    ensures KSLAB_CACHE in m.caches && m.caches[KSLAB_CACHE].onSlab && m.caches[KSLAB_CACHE].minFree == 0
    ensures m.caches[RANGE_CACHE].createMap && m.caches[KSLAB_CACHE].createMap
  {
    hide CacheOk, SlabOk;
  }

  lemma RemoveShape(m: Mem, x: Flight, s: Ptr)
    requires MayRelease(m, s) && Inv(m, x)
    ensures Steady(m, RemoveSlab(m, s), 0)
    ensures RemoveSlab(m, s).ranges == m.ranges && RemoveSlab(m, s).freeList == m.freeList
    ensures RemoveSlab(m, s).usedList == m.usedList
    ensures m.slabs[s].cache < 2 ==> UserCaches(RemoveSlab(m, s).caches) == UserCaches(m.caches)
  {
    hide Without, SlabsOk, RangesOk, MappedOk, HomeOk, SlabRangesOk, LinksOk, Steady;
    InternalCaches(m);
    hide Inv;
    RemoveSteady(m, s);
  }

  lemma RemoveSteady(m: Mem, s: Ptr)
    requires MayRelease(m, s) && RANGE_CACHE in m.caches && m.caches[RANGE_CACHE].minFree == 2
    ensures Steady(m, RemoveSlab(m, s), 0)
    ensures m.slabs[s].cache < 2 ==> UserCaches(RemoveSlab(m, s).caches) == UserCaches(m.caches)
  {
    hide Without;
  }

  lemma ClearShape(m: Mem, n: Ptr)
    requires n in m.ranges
    ensures Steady(m, ClearLabel(m, n), 0)
    ensures ClearLabel(m, n).ranges == m.ranges[n := m.ranges[n].(slab := None)]
    ensures ClearLabel(m, n).freeList == m.freeList && ClearLabel(m, n).usedList == m.usedList
  {}

  /** The structure of a removed off-slab slab is an allocated object of the slab cache. */
  lemma HeldStructure(m0: Mem, m: Mem, x0: Flight, x: Flight, s: Ptr)
    requires LinksOk(m0, x0) && LinksOk(m, x) && IsOffSlab(m0, s) && s in x.heldSlabs
    ensures s !in x0.heldSlabs && AllocatedFrom(m, KSLAB_CACHE, s)
  {
    hide AllocatedFrom, IsOffSlab;
  }

  lemma HeldDescriptor(m: Mem, x: Flight, r: Ptr)
    requires LinksOk(m, x) && r in x.heldRanges
    ensures AllocatedFrom(m, RANGE_CACHE, r)
  {
    hide AllocatedFrom, IsOffSlab;
  }

  lemma DanglingElsewhere(m: Mem, x: Flight, a: Ptr)
    requires Inv(m, x) && a in m.home
    ensures forall n :: n in x.dangling && n in m.ranges ==> !Covers(m.ranges[n], PageOf(a))
  {
    HomeRange(m, x, a);
    hide MappedOk, SlabsOk, HomeOk, SlabRangesOk, LinksOk, IsObject, RangesOk;
    OnlyRange(m, x, m.slabs[m.home[a]].range, PageOf(a));
  }

  lemma DanglingUsed(m: Mem, x: Flight, n: Ptr)
    requires Inv(m, x) && n in x.dangling
    ensures n in m.ranges && n in m.usedList && m.ranges[n].slab.Some?
  {
    hide MappedOk, SlabsOk, HomeOk, LinksOk, BoundsOk, Apart, TileOk, SortedUsed, SortedFree;
    assert n in m.ranges && LabelOk(m, x, n);
    hide SlabRangesOk, LabelOk;
    assert PlacesOk(m, x);
  }

  /** A range whose slab link is set is not a caller's. */
  lemma UserNot(m: Mem, n: Ptr, v: Range)
    requires n in m.ranges && m.ranges[n].slab.Some?
    ensures n !in UserRanges(m) && UserRanges(m)[n := v] - {n} == UserRanges(m)
  {}

  lemma RangeOfUser(m: Mem, n: Ptr)
    requires n in m.ranges && n in m.usedList && m.ranges[n].slab.None?
    ensures n in UserRanges(m)
  {}

  /** An object of an internal cache, or an address never allocated, is not a caller's object. */
  lemma NotUser(m: Mem, a: Ptr)
    requires a in m.home && m.home[a] in m.slabs ==> m.slabs[m.home[a]].cache <= CACHE_CACHE
    ensures UserObjects(m) == UserObjects(m) - {a}
  {}

  /** The slab structure at `s` is valid and its slab starts at or before address `a`. */
  predicate SlabAround(m: Mem, s: Ptr, a: Ptr) {
    s in m.slabs && m.slabs[s].cache in m.caches
    && s in m.caches[m.slabs[s].cache].slabList && m.slabs[s].nbFree == |m.slabs[s].free|
    && m.slabs[s].first <= a && 0 < m.caches[m.slabs[s].cache].objSize
  }

  lemma PushShape(m: Mem, s: Ptr, a: Ptr)
    requires s in m.slabs && m.slabs[s].cache in m.caches && s in m.caches[m.slabs[s].cache].slabList
    requires m.slabs[s].nbFree == |m.slabs[s].free|
    ensures var m' := PushAt(m, s, a);
      && s in m'.slabs && m'.slabs[s].cache == m.slabs[s].cache && m'.slabs[s].cache in m'.caches
      && m'.slabs[s].range == m.slabs[s].range && s in m'.caches[m'.slabs[s].cache].slabList
      && m'.ranges == m.ranges && m'.freeList == m.freeList && m'.usedList == m.usedList
    ensures Steady(m, PushAt(m, s, a), if m.slabs[s].cache == RANGE_CACHE then 1 else 0)
    ensures m.slabs[s].cache < 2 ==> UserCaches(PushAt(m, s, a).caches) == UserCaches(m.caches)
  {
    hide Without;
  }

  predicate Pushable(m: Mem, a: Ptr) {
    a in m.home && m.home[a] in m.slabs && m.slabs[m.home[a]].cache in m.caches
    && m.home[a] in m.caches[m.slabs[m.home[a]].cache].slabList
  }

  /**
   Freeing `a` does no more than put it back, unless that leaves a slab that can go. If the slab goes, it leaves its
   cache, and the other caches of callers are as before.
   */
  predicate PushedOnly(m: Mem, m': Mem, a: Ptr) {
    && Pushable(m, a)
    && (!Releasable(PushObject(m, a), m.home[a]) ==> m' == PushObject(m, a))
    && (Releasable(PushObject(m, a), m.home[a]) ==>
          UserCaches(m'.caches) == UserCaches(RemoveSlab(PushObject(m, a), m.home[a]).caches))
  }

  /** Object `a` is one of the structures the allocator itself lives on. */
  predicate Internal(m: Mem, a: Ptr) { AllocatedFrom(m, RANGE_CACHE, a) || AllocatedFrom(m, KSLAB_CACHE, a) }

  /** Removing a slab of an internal cache leaves the caches of callers as they are. */
  lemma RemoveInternal(m: Mem, s: Ptr)
    requires Releasable(m, s) && m.slabs[s].cache < 2
    ensures UserCaches(RemoveSlab(m, s).caches) == UserCaches(m.caches)
  {
    hide Without;
  }

  /** Slab `s` is empty and its cache keeps its minimum of free objects without it. */
  predicate Releasable(m: Mem, s: Ptr) {
    WholeSlabFree(m, s)
    && m.caches[m.slabs[s].cache].nbFree - m.slabs[s].nbFree >= m.caches[m.slabs[s].cache].minFree
  }

  /** Of the callers' caches only cache `c` may have changed. */
  predicate OnlyCache(m: Mem, m': Mem, c: CacheId) {
    c in m.caches && c in m'.caches
    && UserCaches(m'.caches) == if c < 2 then UserCaches(m.caches) else UserCaches(m.caches)[c := m'.caches[c]]
  }

  /** Cache `c` has one slab more, at the head of its list, with all its objects free. */
  predicate Grown(m: Mem, m': Mem, c: CacheId) {
    OnlyCache(m, m', c) && m'.caches[c].nbFree == m.caches[c].nbFree + m.caches[c].nbObjects
    && m'.caches[c].slabList != [] && m'.caches[c].slabList[1..] == m.caches[c].slabList
  }

  predicate Counted(m: Mem, s: Ptr) { s in m.slabs && m.slabs[s].nbFree == |m.slabs[s].free| }

  /** A cache that had its minimum of free objects has it again once an object came back. */
  lemma PushedCaches(m: Mem, m': Mem, a: Ptr)
    requires PushedOnly(m, m', a) && m.slabs[m.home[a]].cache >= 2 && Counted(m, m.home[a])
    ensures var c := m.slabs[m.home[a]].cache;
      OnlyCache(m, m', c) && (m.caches[c].nbFree + 1 >= m.caches[c].minFree ==> MinFree(m', c))
  {
    var s, c, m1 := m.home[a], m.slabs[m.home[a]].cache, PushObject(m, a);
    hide Without, SumFree;
    assert UserCaches(m1.caches) == UserCaches(m.caches)[c := m1.caches[c]];
    if Releasable(m1, s) {
      var m2 := RemoveSlab(m1, s);
      assert UserCaches(m2.caches) == UserCaches(m.caches)[c := m2.caches[c]];
      assert c in UserCaches(m'.caches) && UserCaches(m'.caches)[c] == m2.caches[c];
    }
  }

  lemma GrownFrom(m: Mem, m1: Mem, m': Mem, c: CacheId)
    requires c in m.caches && UserCaches(m1.caches) == UserCaches(m.caches) && Grown(m1, m', c)
    ensures c >= 2 ==> Grown(m, m', c)
    ensures c < 2 ==> UserCaches(m'.caches) == UserCaches(m.caches)
  {
    if c >= 2 { assert UserCaches(m.caches)[c] == UserCaches(m1.caches)[c]; }
  }

  /** Cache `c` has as many free objects as before, or more, and no other cache of callers changed. */
  predicate Room(m: Mem, m': Mem, c: CacheId) {
    OnlyCache(m, m', c)
    && (c >= 2 ==> m'.caches[c].nbFree >= m.caches[c].nbFree && m'.caches[c].minFree == m.caches[c].minFree)
  }

  /** What a growth that succeeded, or a failed one, did. */
  lemma RoomMade(m: Mem, m': Mem, c: CacheId)
    requires SameDims(m, m') && c in m.caches && 0 <= m.caches[c].nbObjects
    requires UserCaches(m'.caches) == UserCaches(m.caches) || (c >= 2 && Grown(m, m', c))
    ensures Room(m, m', c)
  {
    if c >= 2 { assert UserCaches(m'.caches)[c] == m'.caches[c]; }
  }

  /** Every cache of callers, but for those of `but`, has the free objects it was asked to keep. */
  ghost predicate EnoughFree(m: Mem, but: set<CacheId>) {
    forall c :: c in m.caches && c >= 2 && c !in but ==> MinFree(m, c)
  }

  lemma EnoughSame(m: Mem, m': Mem)
    requires UserCaches(m'.caches) == UserCaches(m.caches)
    ensures EnoughFree(m, {}) ==> EnoughFree(m', {})
  {
    if EnoughFree(m, {}) {
      forall c | c in m'.caches && c >= 2 ensures MinFree(m', c) {
        assert UserCaches(m'.caches)[c] == m'.caches[c];
        assert c in UserCaches(m.caches) && UserCaches(m.caches)[c] == m.caches[c] && MinFree(m, c);
      }
    }
  }

  lemma EnoughAfter(m: Mem, m': Mem, c: CacheId)
    requires OnlyCache(m, m', c) && c >= 2 && (MinFree(m, c) ==> MinFree(m', c))
    ensures EnoughFree(m, {}) ==> EnoughFree(m', {})
  {
    if EnoughFree(m, {}) {
      assert MinFree(m, c);
      assert EnoughFree(m, {c});
      EnoughOthers(m, m', c);
    }
  }

  lemma EnoughOthers(m: Mem, m': Mem, c: CacheId)
    requires OnlyCache(m, m', c) && c >= 2 && MinFree(m', c)
    ensures EnoughFree(m, {c}) ==> EnoughFree(m', {})
  {
    if EnoughFree(m, {c}) {
      forall d | d in m'.caches && d >= 2 ensures MinFree(m', d) {
        if d != c {
          assert UserCaches(m'.caches)[d] == m'.caches[d];
          assert d in UserCaches(m.caches) && UserCaches(m.caches)[d] == m.caches[d] && MinFree(m, d);
        }
      }
    }
  }

  lemma RoomMin(m: Mem, m': Mem, c: CacheId)
    requires Room(m, m', c)
    ensures OnlyCache(m, m', c) && (c >= 2 && MinFree(m, c) ==> MinFree(m', c))
  {}

  lemma OnlyInternal(m0: Mem, m2: Mem, m': Mem, c: CacheId)
    requires OnlyCache(m0, m2, c) && c < 2 && c in m'.caches && UserCaches(m'.caches) == UserCaches(m2.caches)
    ensures OnlyCache(m0, m', c)
  {}

  lemma AllocatedUser(m: Mem, c: CacheId, a: Ptr)
    requires AllocatedFrom(m, c, a) && c > CACHE_CACHE
    ensures a in UserObjects(m) && UserObjects(m)[a] == c
  {}

  lemma OnlySelf(m: Mem, c: CacheId)
    requires c in m.caches
    ensures OnlyCache(m, m, c)
  {}

  lemma OnlyTrans(m0: Mem, m1: Mem, m2: Mem, c: CacheId)
    requires OnlyCache(m0, m1, c) && OnlyCache(m1, m2, c)
    ensures OnlyCache(m0, m2, c)
  {}

  lemma HomeCounted(m: Mem, x: Flight, a: Ptr)
    requires Inv(m, x) && a in m.home
    ensures Counted(m, m.home[a])
  {
    HomeRange(m, x, a);
    assert SlabOk(m, m.home[a]);
  }

  lemma CountedCache(m: Mem, x: Flight, c: CacheId)
    requires Inv(m, x) && c in m.caches
    ensures 0 <= m.caches[c].nbFree && m.caches[c].minFree <= m.caches[c].nbObjects
  {
    hide RangesOk, MappedOk, HomeOk, SlabRangesOk, LinksOk;
    assert CacheOk(m, c);
    forall s | s in m.caches[c].slabList ensures s in m.slabs && m.slabs[s].nbFree >= 0 { assert SlabOk(m, s); }
    SumFreeAtLeast(m.caches[c].slabList, m.slabs);
  }

  /** A cache of which nothing was taken too much keeps its minimum. */
  lemma LeftOver(m: Mem, x: Flight, c: CacheId)
    requires Inv(m, x) && c in m.caches
    ensures (m.caches[c].nbFree >= m.caches[c].minFree - 1
             && !(m.caches[c].minFree > 0 && m.caches[c].nbFree == m.caches[c].minFree - 1)) ==> MinFree(m, c)
  {
    CountedCache(m, x, c);
    hide Inv;
  }

  /** One object of cache `c` was taken, which had its minimum. */
  lemma TakenOne(m0: Mem, m1: Mem, m2: Mem, c: CacheId)
    requires Room(m0, m1, c) && HeadNonFull(m1, c) && m1.slabs[m1.caches[c].slabList[0]].cache == c
    requires m2 == PopObject(m1, c) && Counted(m1, m1.caches[c].slabList[0])
    ensures OnlyCache(m0, m2, c)
    ensures c >= 2 && MinFree(m0, c) ==> m2.caches[c].nbFree >= m2.caches[c].minFree - 1
  {
    hide SumFree;
    assert m2.caches == m1.caches[c := m2.caches[c]];
    if c < 2 {
      assert UserCaches(m2.caches) == UserCaches(m1.caches);
    } else {
      assert UserCaches(m2.caches) == UserCaches(m1.caches)[c := m2.caches[c]];
    }
  }

  /** ... and the cache grew for it. */
  lemma TakenGrown(m0: Mem, m2: Mem, m': Mem, c: CacheId)
    requires OnlyCache(m0, m2, c) && c >= 2 && Grown(m2, m', c) && SameDims(m2, m') && 1 <= m2.caches[c].nbObjects
    ensures OnlyCache(m0, m', c)
    ensures m2.caches[c].nbFree >= m2.caches[c].minFree - 1 ==> MinFree(m', c)
  {}

  /** ... or could not grow, and the object went back. */
  lemma TakenBack(m0: Mem, m2: Mem, m3: Mem, m': Mem, c: CacheId, a: Ptr)
    requires OnlyCache(m0, m2, c) && UserCaches(m3.caches) == UserCaches(m2.caches) && c in m3.caches && c in m'.caches
    requires PushedOnly(m3, m', a) && m3.slabs[m3.home[a]].cache == c && Counted(m3, m3.home[a])
    requires c < 2 ==> UserCaches(m'.caches) == UserCaches(m3.caches)
    ensures OnlyCache(m0, m', c)
    ensures c >= 2 && m2.caches[c].nbFree >= m2.caches[c].minFree - 1 ==> MinFree(m', c)
  {
    hide PushedOnly;
    if c >= 2 {
      PushedCaches(m3, m', a);
      assert UserCaches(m3.caches)[c] == UserCaches(m2.caches)[c];
    }
  }

  /** Cache `c` has as many free objects as it was asked to keep. */
  predicate MinFree(m: Mem, c: CacheId) { c in m.caches && m.caches[c].nbFree >= m.caches[c].minFree }

  /** Removing a slab changes its cache only, which has one slab less. */
  lemma RemovedCaches(m: Mem, m': Mem, s: Ptr)
    requires WholeSlabFree(m, s) && m.slabs[s].cache >= 2 && NoDup(m.caches[m.slabs[s].cache].slabList)
    requires UserCaches(m'.caches) == UserCaches(RemoveSlab(m, s).caches)
    ensures var c := m.slabs[s].cache;
      OnlyCache(m, m', c) && |m'.caches[c].slabList| == |m.caches[c].slabList| - 1
  {
    var c, m2 := m.slabs[s].cache, RemoveSlab(m, s);
    WithoutMembers(m.caches[c].slabList, s);
    hide Without, SumFree, NoDup;
    assert UserCaches(m2.caches) == UserCaches(m.caches)[c := m2.caches[c]];
    assert c in UserCaches(m'.caches) && UserCaches(m'.caches)[c] == m2.caches[c];
  }

  /** No object of cache `c` is allocated. */
  ghost predicate NoObjects(m: Mem, c: CacheId) { forall a :: !AllocatedFrom(m, c, a) }

  /** No object of slab `s` is allocated. */
  ghost predicate Unused(m: Mem, s: Ptr) { forall a :: a in m.home ==> m.home[a] != s }

  /** A slab has all its objects free if and only if none of them is allocated. */
  lemma SlabUnused(m: Mem, s: Ptr)
    requires SlabsOk(m) && HomeOk(m) && s in m.slabs
    ensures m.slabs[s].cache in m.caches && m.slabs[s].nbFree <= m.caches[m.slabs[s].cache].nbObjects
    ensures m.slabs[s].nbFree == m.caches[m.slabs[s].cache].nbObjects <==> Unused(m, s)
  {
    assert SlabOk(m, s) && CacheOk(m, m.slabs[s].cache);
    var b, k := m.slabs[s], m.caches[m.slabs[s].cache];
    hide SlabsOk, IsObject;
    AllFreeExactly(k, b.first, b.free);
    assert forall a :: Allocated(m, s, a) <==> IsObject(k, b.first, a) && a !in b.free;
    hide SlabOk, CacheOk, GeometryOk, KmemState.NoDup, Allocated;
    assert (forall a :: IsObject(k, b.first, a) ==> a in b.free) <==> (forall a :: !Allocated(m, s, a));
    assert (forall a :: !Allocated(m, s, a)) <==> Unused(m, s);
  }

  lemma CacheSlabs(m: Mem, c: CacheId)
    requires SlabsOk(m) && c in m.caches
    ensures forall s :: s in m.caches[c].slabList ==> s in m.slabs && m.slabs[s].cache == c
    ensures forall s :: s in m.slabs && m.slabs[s].cache == c ==> s in m.caches[c].slabList
    ensures NoDup(m.caches[c].slabList)
  {
    assert CacheOk(m, c);
    hide GeometryOk, FullLast, SumFree, KmemState.NoDup, IsObject;
    forall s | s in m.slabs && m.slabs[s].cache == c ensures s in m.caches[c].slabList { assert SlabOk(m, s); }
  }

  /** All slabs of a cache are unused if and only if none of its objects is allocated. */
  lemma CacheUnused(m: Mem, x: Flight, c: CacheId)
    requires Inv(m, x) && c in m.caches
    ensures forall s :: s in m.caches[c].slabList ==> s in m.slabs
    ensures (forall s :: s in m.caches[c].slabList && s in m.slabs ==> m.slabs[s].nbFree == m.caches[c].nbObjects)
      <==> NoObjects(m, c)
  {
    hide RangesOk, MappedOk, SlabsOk, HomeOk, SlabRangesOk, LinksOk, NoObjects;
    CacheSlabs(m, c);
    forall s | s in m.slabs && m.slabs[s].cache == c
      ensures m.slabs[s].nbFree == m.caches[c].nbObjects <==> Unused(m, s)
    {
      SlabUnused(m, s);
    }
    NoneHome(m, c);
    hide Inv;
    if NoObjects(m, c) {
      forall s | s in m.caches[c].slabList ensures Unused(m, s) {}
    } else {
      var a :| a in m.home && !(m.home[a] in m.slabs && m.slabs[m.home[a]].cache != c);
      assert !Unused(m, m.home[a]);
    }
  }

  lemma NoneHome(m: Mem, c: CacheId)
    requires HomeOk(m)
    ensures forall a :: a in m.home ==> m.home[a] in m.slabs
    ensures NoObjects(m, c) <==> forall a :: a in m.home ==> m.home[a] in m.slabs && m.slabs[m.home[a]].cache != c
  {
    hide IsObject;
    forall a | a in m.home ensures m.home[a] in m.slabs { assert Allocated(m, m.home[a], a); }
    hide HomeOk;
    if NoObjects(m, c) {
      forall a | a in m.home ensures m.slabs[m.home[a]].cache != c { assert !AllocatedFrom(m, c, a); }
    }
  }

  /** Slab `s` is empty; one of the range cache goes only if the cache keeps its reserve. */
  predicate MayRelease(m: Mem, s: Ptr) {
    WholeSlabFree(m, s) && (m.slabs[s].cache == RANGE_CACHE ==> Releasable(m, s))
  }

  lemma SteadyTrans(m0: Mem, m1: Mem, m2: Mem, d: int, e: int)
    requires Steady(m0, m1, d) && Steady(m1, m2, e) && d >= 0 && e >= 0
    ensures Steady(m0, m2, d + e)
  {
    SteadySums(m0, m1, m2, d, e);
  }

  lemma SteadySelf(m: Mem)
    ensures Steady(m, m, 0)
  {}

  lemma ObjectTest(k: Cache, first: Ptr, a: Ptr)
    requires first <= a && 0 < k.objSize
    ensures IsObject(k, first, a) <==> (a - first) % k.objSize == 0 && (a - first) / k.objSize < k.nbObjects
  {}

  /** An allocated object resolves to its slab through the range that covers it. */
  lemma HomeRange(m: Mem, x: Flight, a: Ptr)
    requires Inv(m, x) && a in m.home
    ensures m.home[a] in m.slabs && m.slabs[m.home[a]].range in m.ranges && m.slabs[m.home[a]].range in m.usedList
    ensures m.ranges[m.slabs[m.home[a]].range].slab == Some(m.home[a])
    ensures Covers(m.ranges[m.slabs[m.home[a]].range], PageOf(a))
    ensures m.slabs[m.home[a]].cache in m.caches
    ensures IsObject(m.caches[m.slabs[m.home[a]].cache], m.slabs[m.home[a]].first, a)
    ensures m.slabs[m.home[a]].range !in x.dangling
  {
    var s := m.home[a];
    assert Allocated(m, s, a) && Backed(m, x, s);
    hide RangesOk, MappedOk, SlabsOk, HomeOk, SlabRangesOk, LinksOk, IsObject, Covers;
    ObjectPage(m, x, s, a);
    BackedUsed(m, x, s);
  }

  lemma LabelFacts(m: Mem, x: Flight, r: Ptr, a: Ptr)
    requires Inv(m, x) && r in m.ranges && m.ranges[r].slab.Some? && r !in x.dangling && Covers(m.ranges[r], PageOf(a))
    ensures var s := m.ranges[r].slab.value;
      SlabAround(m, s, a) && m.slabs[s].range == r
  {
    hide RangesOk, MappedOk, HomeOk, LinksOk, IsObject;
    assert LabelOk(m, x, r);
    var s := m.ranges[r].slab.value;
    assert Backed(m, x, s) && SlabOk(m, s) && CacheOk(m, m.slabs[s].cache);
  }

  /** Address `a` is the start of an object of slab `s`, allocated or free: it passes the test of free_object. */
  predicate Tested(m: Mem, s: Ptr, a: Ptr) {
    s in m.slabs && m.slabs[s].cache in m.caches && s in m.caches[m.slabs[s].cache].slabList
    && IsObject(m.caches[m.slabs[s].cache], m.slabs[s].first, a)
  }

  /** The slab of a tested address is found through the range that covers the address. */
  lemma TestedRange(m: Mem, x: Flight, s: Ptr, a: Ptr)
    requires Inv(m, x) && Tested(m, s, a)
    ensures s in m.slabs && m.slabs[s].range in m.ranges && m.slabs[s].range in m.usedList
    ensures m.ranges[m.slabs[s].range].slab == Some(s)
    ensures Covers(m.ranges[m.slabs[s].range], PageOf(a)) && !Unowned(m.pages, PageOf(a))
  {
    assert Backed(m, x, s);
    hide RangesOk, MappedOk, SlabsOk, HomeOk, SlabRangesOk, LinksOk, IsObject;
    ObjectPage(m, x, s, a);
    BackedUsed(m, x, s);
    AreaOwned(m, x, PageOf(a));
    assert InArea(PageOf(a)) by { RangesUnfold(m, x); }
  }

  lemma HomeTested(m: Mem, x: Flight, a: Ptr)
    requires Inv(m, x) && a in m.home
    ensures Tested(m, m.home[a], a)
  {
    hide RangesOk, MappedOk, HomeOk, SlabRangesOk, LinksOk, IsObject;
    HomeRange(m, x, a);
    assert SlabOk(m, m.home[a]);
  }

  /** An address is tested for one slab only. */
  lemma TestedOnce(m: Mem, x: Flight, s: Ptr, t: Ptr, a: Ptr)
    requires Inv(m, x) && Tested(m, s, a) && Tested(m, t, a)
    ensures s == t
  {
    hide RangesOk, MappedOk, SlabsOk, HomeOk, SlabRangesOk, LinksOk, IsObject;
    SlabsApart(m, x, s, t, a);
  }

  /** An object that is not allocated is free. */
  lemma TestedFree(m: Mem, s: Ptr, a: Ptr)
    requires HomeOk(m) && Tested(m, s, a) && a !in m.home
    ensures a in m.slabs[s].free
  {
    hide IsObject;
    assert Allocated(m, s, a) || a in m.slabs[s].free;
  }

  lemma NotTested(m: Mem, x: Flight, a: Ptr)
    requires Inv(m, x) && a !in m.home && NotFreeObject(m, a)
    ensures forall s :: !Tested(m, s, a)
  {
    hide RangesOk, MappedOk, SlabsOk, HomeOk, SlabRangesOk, LinksOk, IsObject;
    forall s ensures !Tested(m, s, a) {
      if Tested(m, s, a) { TestedFree(m, s, a); }
    }
  }

  lemma OnlyRange(m: Mem, x: Flight, r: Ptr, p: int)
    requires RangesOk(m, x) && r in m.ranges && Covers(m.ranges[r], p)
    ensures forall n :: n in m.ranges && Covers(m.ranges[n], p) ==> n == r
  {
    forall n | n in m.ranges && Covers(m.ranges[n], p) ensures n == r {
      hide RangesOk;
      OnePage(m, x, n, r, p);
    }
  }

  lemma UsedFacts(m: Mem, x: Flight)
    requires RangesOk(m, x)
    ensures forall i :: 0 <= i < |m.usedList| ==> m.usedList[i] in m.ranges
    ensures forall i, j :: 0 <= i < j < |m.usedList| ==> m.ranges[m.usedList[i]].base <= m.ranges[m.usedList[j]].base
  {
    RangesUnfold(m, x);
    hide RangesOk, BoundsOk, Apart, TileOk, SortedFree;
    forall i | 0 <= i < |m.usedList| ensures m.usedList[i] in m.ranges { assert m.usedList[i] in m.usedList; }
    hide PlacesOk;
    forall i, j | 0 <= i < j < |m.usedList| ensures m.ranges[m.usedList[i]].base <= m.ranges[m.usedList[j]].base {
      assert UsedOrder(m, m.usedList[i], m.usedList[j]);
    }
  }

  /** If the last range that starts before the page ends before it too, no used range covers the page. */
  lemma ScanMisses(m: Mem, x: Flight, k: nat, p: int)
    requires RangesOk(m, x) && IsPosition(m, m.usedList, k, p)
    requires k > 0 ==> m.usedList[k - 1] in m.ranges && End(m.ranges[m.usedList[k - 1]]) <= p
    ensures forall n :: n in m.usedList && n in m.ranges ==> !Covers(m.ranges[n], p)
  {
    forall n | n in m.usedList && n in m.ranges ensures !Covers(m.ranges[n], p) {
      var i :| 0 <= i < |m.usedList| && m.usedList[i] == n;
      RangesUnfold(m, x);
      hide RangesOk, BoundsOk, TileOk, SortedFree, Apart;
      if i < k - 1 {
        assert UsedOrder(m, m.usedList[i], m.usedList[k - 1]);
        assert m.usedList[k - 1] in m.usedList;
        ApartUse(m, n, m.usedList[k - 1]);
      }
    }
  }

  lemma SteadyWeaken(m: Mem, m': Mem)
    requires Steady(m, m', 1)
    ensures Steady(m, m', 0)
  {}

  lemma FreeFacts(m: Mem, x: Flight)
    requires RangesOk(m, x)
    ensures forall i :: 0 <= i < |m.freeList| ==> m.freeList[i] in m.ranges && 0 <= m.ranges[m.freeList[i]].npages
    ensures forall i, j :: 0 <= i < j < |m.freeList| ==> m.ranges[m.freeList[i]].base <= m.ranges[m.freeList[j]].base
  {
    RangesUnfold(m, x);
    FreeInRanges(m, x);
    hide RangesOk, PlacesOk, Apart, TileOk, SortedUsed, SortedFree;
    forall i | 0 <= i < |m.freeList| ensures m.freeList[i] in m.ranges && 0 <= m.ranges[m.freeList[i]].npages {
      var r := m.freeList[i];
      assert r in m.ranges;
    }
    forall i, j | 0 <= i < j < |m.freeList| ensures m.ranges[m.freeList[i]].base <= m.ranges[m.freeList[j]].base {
      SortedUse(m, x, i, j);
    }
  }

  lemma PendingFacts(m: Mem, x: Flight, r: Ptr)
    requires RangesOk(m, x) && r in x.pending
    ensures r in m.ranges && 1 <= m.ranges[r].npages
  {
    hide BoundsOk, Apart, TileOk, SortedUsed, SortedFree;
    assert r in m.ranges;
  }

  lemma FreeDistinct(m: Mem, x: Flight, i: nat)
    requires RangesOk(m, x) && i + 1 < |m.freeList|
    ensures m.freeList[i] != m.freeList[i + 1]
  {
    ListsDistinct(m, x);
    hide RangesOk;
  }

  /** The list is circular, but the range before the first one never ends where it starts. */
  lemma FirstIsLowest(m: Mem, x: Flight, k: nat)
    requires RangesOk(m, x) && k < |m.freeList| && m.freeList[k] in m.ranges && 1 <= m.ranges[m.freeList[k]].npages
    ensures k == 0 ==> m.freeList[|m.freeList| - 1] in m.ranges
                       && End(m.ranges[m.freeList[|m.freeList| - 1]]) != m.ranges[m.freeList[k]].base
  {
    FreeFacts(m, x);
    RangesUnfold(m, x);
    hide RangesOk, PlacesOk, BoundsOk, Apart, TileOk, SortedUsed, SortedFree;
    if k == 0 && |m.freeList| > 1 { SortedUse(m, x, 0, |m.freeList| - 1); }
  }

  lemma LastIsHighest(m: Mem, x: Flight, k: nat)
    requires RangesOk(m, x) && k < |m.freeList| && m.freeList[k] in m.ranges && 1 <= m.ranges[m.freeList[k]].npages
    ensures k + 1 == |m.freeList| ==>
      m.freeList[0] in m.ranges && End(m.ranges[m.freeList[k]]) != m.ranges[m.freeList[0]].base
  {
    FreeFacts(m, x);
    RangesUnfold(m, x);
    hide RangesOk, PlacesOk, BoundsOk, Apart, TileOk, SortedUsed, SortedFree;
    if k > 0 { SortedUse(m, x, 0, k); }
  }

  /**
   If a free range starts where the range at `at` ends, it is the next one of the list, or the next one is empty and
   does too.
   */
  lemma NextTouches(m: Mem, x: Flight, at: nat)
    requires RangesOk(m, x) && at < |m.freeList| && FollowedByFree(m, m.freeList[at])
    requires 1 <= m.ranges[m.freeList[at]].npages
    ensures at + 1 < |m.freeList| && m.freeList[at + 1] in m.ranges
    ensures m.ranges[m.freeList[at + 1]].base == End(m.ranges[m.freeList[at]])
  {
    var f :| f in m.freeList && f in m.ranges && m.ranges[f].base == End(m.ranges[m.freeList[at]]);
    var t :| 0 <= t < |m.freeList| && m.freeList[t] == f;
    FreeFacts(m, x);
    RangesUnfold(m, x);
    hide RangesOk, PlacesOk, BoundsOk, Apart, TileOk, SortedUsed, SortedFree;
    if t > at { SortedUse(m, x, at, at + 1); }
    if t > at + 1 { SortedUse(m, x, at + 1, t); }
  }

  lemma AbsorbedPrev(m: Mem, m': Mem, x: Flight, i: nat, e: Option<Ptr>)
    requires Absorbed(m, m', x, i, e) && RangesOk(m, x) && 1 <= m.ranges[m.freeList[i + 1]].npages
    requires x.touchPrev == {m.freeList[i + 1]} && x.touchNext == {m.freeList[i + 1]}
    ensures i < |m'.freeList| && m'.freeList[i] == m.freeList[i] && m.freeList[i] in m'.ranges
    ensures 1 <= m'.ranges[m.freeList[i]].npages
    ensures AfterAbsorb(x, m.freeList[i], m.freeList[i + 1], e)
            == x.(pending := x.pending + Waiters(e), touchPrev := {}, touchNext := {m.freeList[i]})
    ensures FollowedByFree(m, m.freeList[i + 1]) ==> FollowedByFree(m', m.freeList[i])
  {
    FreeFacts(m, x);
    AfterPrev(x, m.freeList[i], m.freeList[i + 1], e);
    hide Inv, RangesOk, FollowedByFree, AfterAbsorb;
    assert 0 <= m.ranges[m.freeList[i]].npages;
    if FollowedByFree(m, m.freeList[i + 1]) { StillFollowed(m, m', x, i, e); }
  }

  lemma AfterPrev(x: Flight, r: Ptr, q: Ptr, e: Option<Ptr>)
    requires x.touchPrev == {q} && x.touchNext == {q} && r != q
    ensures AfterAbsorb(x, r, q, e) == x.(pending := x.pending + Waiters(e), touchPrev := {}, touchNext := {r})
  {}

  lemma StillFollowed(m: Mem, m': Mem, x: Flight, i: nat, e: Option<Ptr>)
    requires Absorbed(m, m', x, i, e) && RangesOk(m, x) && 1 <= m.ranges[m.freeList[i + 1]].npages
    requires FollowedByFree(m, m.freeList[i + 1])
    ensures FollowedByFree(m', m.freeList[i])
  {
    var r, q := m.freeList[i], m.freeList[i + 1];
    FreeFacts(m, x);
    var f :| f in m.freeList && f in m.ranges && m.ranges[f].base == End(m.ranges[q]);
    hide Inv, RangesOk, FollowedByFree;
    assert 0 <= m.ranges[r].npages;
    assert f != q && f != r && SameSpan(m, m', f);
    FollowedBy(m', r, f);
  }

  lemma FollowedBy(m: Mem, r: Ptr, f: Ptr)
    requires r in m.ranges && f in m.freeList && f in m.ranges && m.ranges[f].base == End(m.ranges[r])
    ensures FollowedByFree(m, r)
  {}

  lemma AbsorbedNext(m: Mem, m': Mem, x: Flight, i: nat, e: Option<Ptr>)
    requires Absorbed(m, m', x, i, e) && x.touchPrev == {} && x.touchNext == {m.freeList[i]}
    ensures AfterAbsorb(x, m.freeList[i], m.freeList[i + 1], e)
      == x.(pending := x.pending + Waiters(e), touchNext := {})
  {
    hide Inv, Merge, RemoveAt;
  }

  // ---------------------------------------------------------------- lemmas of the allocation path

  lemma SameDimsSelf(m: Mem)
    ensures SameDims(m, m)
  {}

  lemma SameDimsTrans(m0: Mem, m1: Mem, m2: Mem)
    requires SameDims(m0, m1) && SameDims(m1, m2)
    ensures SameDims(m0, m2)
  {}

  lemma SameDimsFrame(m: Mem, m': Mem)
    requires m'.caches == m.caches
    ensures SameDims(m, m')
  {}

  lemma DimsOf(m: Mem, m': Mem, c: CacheId)
    requires SameDims(m, m') && c in m.caches
    ensures c in m'.caches
    ensures m'.caches[c] == m.caches[c].(nbFree := m'.caches[c].nbFree, slabList := m'.caches[c].slabList)
  {}

  lemma SteadyFacts(m: Mem, m': Mem, d: int)
    requires Steady(m, m', d)
    ensures SameDims(m, m') && ReserveGrew(m, m', d)
  {}

  lemma FollowedFrame(m: Mem, m': Mem, n: Ptr)
    requires m'.ranges == m.ranges && m'.freeList == m.freeList
    ensures FollowedByFree(m', n) <==> FollowedByFree(m, n)
  {}

  lemma UserRangeFacts(m: Mem, x: Flight, n: Ptr)
    requires Inv(m, x) && n in UserRanges(m)
    ensures n in m.ranges && n in m.usedList && n !in m.freeList && m.ranges[n].slab.None? && 1 <= m.ranges[n].npages
  {
    hide MappedOk, SlabsOk, HomeOk, SlabRangesOk, LinksOk, RangesOk;
    NotFree(m, x, n);
    UsedNonEmpty(m, x, n);
  }

  lemma UsedNonEmpty(m: Mem, x: Flight, n: Ptr)
    requires RangesOk(m, x) && n in m.usedList && n in m.ranges
    ensures 1 <= m.ranges[n].npages
  {
    hide BoundsOk, Apart, TileOk, SortedUsed, SortedFree;
  }

  /** The range chosen before a descriptor was allocated is still free afterwards, and still big enough. */
  lemma StillFree(m0: Mem, m: Mem, f: Ptr, nb: int)
    requires KeepsFree(m0, m) && f in m0.freeList && f in m0.ranges && m0.ranges[f].npages > nb >= 1
    ensures f in m.freeList && f in m.ranges && m.ranges[f].npages >= nb
  {}

  lemma GivenShift(m0: Mem, m: Mem, m': Mem, n: Ptr, nb: int)
    requires Given(m, m', n, nb) && UserRanges(m) == UserRanges(m0)
    ensures Given(m0, m', n, nb)
  {
    hide UserRanges;
  }

  lemma InvLinks(m: Mem, x: Flight)
    requires Inv(m, x)
    ensures m.ranges.Keys !! x.heldRanges
  {
    hide RangesOk, MappedOk, SlabsOk, HomeOk, SlabRangesOk, LinksOk;
    HeldNotRanges(m, x);
  }

  lemma TakenWhole(m: Mem, x: Flight, k: nat, j: nat)
    requires Inv(m, x) && k < |m.freeList| && m.freeList[k] in m.ranges && j <= |m.usedList|
    requires 1 <= m.ranges[m.freeList[k]].npages
    requires UserRanges(TakeWhole(m, k, j)) == UserRanges(m)[m.freeList[k] := TakeWhole(m, k, j).ranges[m.freeList[k]]]
    ensures Given(m, TakeWhole(m, k, j), m.freeList[k], m.ranges[m.freeList[k]].npages)
    ensures SameDims(m, TakeWhole(m, k, j)) && Reserve(TakeWhole(m, k, j)) == Reserve(m)
    ensures m.ranges[m.freeList[k]].npages == 1 ==> KeepsFree(m, TakeWhole(m, k, j))
    ensures m.freeList[k] !in x.kept && m.freeList[k] !in x.heldRanges
  {
    hide MappedOk, SlabsOk, HomeOk, LinksOk, RangesOk, SlabRangesOk;
    var f := m.freeList[k];
    InvLinks(m, x);
    ListsDistinct(m, x);
    TakeWholeRest(m, k, j);
    TakeWholeSpans(m, k, j);
    assert f in m.freeList;
    FreeNotUser(m, x, f);
    hide NoDup, Inv;
    SameDimsFrame(m, TakeWhole(m, k, j));
    hide TakeWhole, SameDims, SameSpan;
    if m.ranges[f].npages == 1 { TakeKeepsFree(m, TakeWhole(m, k, j), f); }
  }

  lemma TakeKeepsFree(m: Mem, m': Mem, f: Ptr)
    requires f in m.ranges && m.ranges[f].npages == 1
    requires forall q :: q in m'.freeList <==> q in m.freeList && q != f
    requires forall q :: q in m.ranges ==> SameSpan(m, m', q)
    ensures KeepsFree(m, m')
  {
    forall g | g in m.freeList && g in m.ranges && m.ranges[g].npages >= 2
      ensures g in m'.freeList && g in m'.ranges && m'.ranges[g].npages >= m.ranges[g].npages - 1
      ensures End(m'.ranges[g]) == End(m.ranges[g])
    {
      assert SameSpan(m, m', g);
    }
  }

  lemma FreeNotUser(m: Mem, x: Flight, f: Ptr)
    requires RangesOk(m, x) && SlabRangesOk(m, x) && f in m.freeList
    ensures f !in UserRanges(m) && f !in x.kept && f in m.ranges
  {
    hide BoundsOk, Apart, TileOk, SortedUsed, SortedFree, Backed, LabelOk, AllMapped;
  }

  /** After the split the caller holds the new range, and the rest of the free range follows it. */
  lemma SplitDone(m: Mem, x: Flight, i: nat, a: Ptr, nb: int, j: nat)
    requires Inv(m, Hold(x, RANGE_CACHE, a)) && SplitOk(m, Hold(x, RANGE_CACHE, a), i, a, nb, j)
    requires UserRanges(Split(m, i, a, nb, j)) == UserRanges(m)[a := Range(m.ranges[m.freeList[i]].base, nb, None)]
    ensures Given(m, Split(m, i, a, nb, j), a, nb) && SameDims(m, Split(m, i, a, nb, j))
    ensures Reserve(Split(m, i, a, nb, j)) == Reserve(m) && FollowedByFree(Split(m, i, a, nb, j), a)
    ensures nb == 1 ==> KeepsFree(m, Split(m, i, a, nb, j))
    ensures a !in x.kept
  {
    var y := Hold(x, RANGE_CACHE, a);
    SplitSpans(m, y, i, a, nb, j);
    var m' := Split(m, i, a, nb, j);
    KeptNotHeld(m, y, a);
    hide Inv, Split, IsPosition, UserRanges;
    assert m.freeList[i] in m'.freeList;
    FollowedBy(m', a, m.freeList[i]);
    SameDimsFrame(m, m');
    hide FollowedByFree, SameDims;
    if nb == 1 { ShrinkKeepsFree(m, m', m.freeList[i]); }
    hide KeepsFree;
  }

  lemma ShrinkKeepsFree(m: Mem, m': Mem, f: Ptr)
    requires f in m.ranges && f in m'.ranges && m'.freeList == m.freeList
    requires End(m'.ranges[f]) == End(m.ranges[f]) && m'.ranges[f].npages == m.ranges[f].npages - 1
    requires forall q :: q in m.ranges && q != f ==> q in m'.ranges && m'.ranges[q] == m.ranges[q]
    ensures KeepsFree(m, m')
  {}

  lemma KeptNotHeld(m: Mem, x: Flight, a: Ptr)
    requires Inv(m, x) && a !in m.ranges
    ensures a !in x.kept && a !in UserRanges(m)
  {
    hide RangesOk, MappedOk, SlabsOk, HomeOk, LinksOk, Backed, LabelOk, AllMapped;
  }

  /** Deleting the range just given leaves the caller with what it had. */
  lemma GivenBack(m0: Mem, m1: Mem, m': Mem, n: Ptr, nb: int)
    requires Given(m0, m1, n, nb) && UserRanges(m') == UserRanges(m1) - {n}
    ensures UserRanges(m') == UserRanges(m0)
  {
    hide UserRanges;
  }

  lemma GivenIn(m0: Mem, m1: Mem, n: Ptr, nb: int)
    requires Given(m0, m1, n, nb)
    ensures n in UserRanges(m1)
  {}

  lemma UserRangesIn(m: Mem, m': Mem, n: Ptr)
    requires n in UserRanges(m) && UserRanges(m') == UserRanges(m)
    ensures n in m'.ranges && n in UserRanges(m')
  {}

  lemma GivenFacts(m0: Mem, m1: Mem, m: Mem, n: Ptr)
    requires n in UserRanges(m1) && UserRanges(m) == UserRanges(m1) && n in m1.ranges
    ensures n in m.ranges && n in m.usedList && m.ranges[n].slab.None? && m.ranges[n] == m1.ranges[n]
  {
    assert n in UserRanges(m) && UserRanges(m)[n] == UserRanges(m1)[n];
  }

  lemma FreeListFull(k: Cache, first: Ptr, f: seq<Ptr>)
    requires GeometryOk(k) && |f| == k.nbObjects && forall i :: 0 <= i < |f| ==> f[i] == first + i * k.objSize
    ensures FullFreeList(k, first, f)
  {
    forall i | 0 <= i < |f| ensures IsObject(k, first, f[i]) { NthObject(k, first, i); }
    forall i, j | 0 <= i < j < |f|
      ensures f[i] != f[j]
    {
      MulMono(i + 1, j, k.objSize);
      assert (i + 1) * k.objSize == i * k.objSize + k.objSize;
    }
    hide IsObject;
    AllFree(k, first, f);
  }

  lemma GrowFacts(m: Mem, x: Flight, c: CacheId)
    requires Inv(m, x) && c in m.caches
    ensures GeometryOk(m.caches[c])
    ensures RANGE_CACHE in m.caches && m.caches[RANGE_CACHE].onSlab && m.caches[RANGE_CACHE].minFree == 2
    ensures m.caches[RANGE_CACHE].nbPages == 1 && m.caches[RANGE_CACHE].nbObjects == RANGE_OBJECTS
    ensures KSLAB_CACHE in m.caches && m.caches[KSLAB_CACHE].onSlab && m.caches[KSLAB_CACHE].minFree == 0
    ensures m.caches[RANGE_CACHE].createMap && m.caches[KSLAB_CACHE].createMap
    ensures m.caches[c].slabList != [] ==> m.caches[c].slabList[0] in m.slabs && SlabOk(m, m.caches[c].slabList[0])
                                           && m.slabs[m.caches[c].slabList[0]].cache == c
  {
    hide RangesOk, MappedOk, HomeOk, SlabRangesOk, LinksOk, GeometryOk;
    InternalCaches(m);
    assert CacheOk(m, c);
    if m.caches[c].slabList != [] {
      var s := m.caches[c].slabList[0];
      assert s in m.caches[c].slabList;
      assert SlabOk(m, s);
    }
  }

  // ---------------------------------------------------------------- how often the range cache grows

  /**
   Of a call that takes at most `use` descriptors, when `r` were in reserve: the range cache got one slab at most, none
   if the reserve was `need`; and if the call succeeds, what it leaves in reserve is enough for the calls that follow it
   in the nest, so that none of them makes the range cache grow again.
   */
  predicate OneGrowth(grown: nat, grown': nat, r: int, r': int, ok: bool, need: int, use: int) {
    && grown <= grown' <= grown + 1
    && (r >= need ==> grown' == grown)
    && (r >= need && ok ==> r' >= r - use)
    && (grown' > grown && ok ==> r' >= RANGE_OBJECTS - use)
  }

  /** Descriptors that cache_grow and sos_kmem_cache_alloc need and take, for cache `c`. */
  function GrowNeed(c: CacheId): int { if c < 2 then 3 else 4 }
  function GrowUse(c: CacheId): int { if c < 2 then 1 else 2 }
  function AllocNeed(c: CacheId): int { if c < 2 then 3 else 6 }
  function AllocUse(c: CacheId): int { if c < 2 then 1 else 4 }

  /** The two halves of sos_kmem_cache_alloc, the first of which succeeded. */
  lemma GrowthTrans(c: CacheId, g0: nat, g1: nat, g2: nat, r0: int, r1: int, r2: int, ok: bool)
    requires OneGrowth(g0, g1, r0, r1, true, GrowNeed(c), GrowUse(c))
    requires OneGrowth(g1, g2, r1, r2, ok, GrowNeed(c), GrowUse(c))
    requires c == RANGE_CACHE ==> g1 == g0 && r1 == r0
    requires c == KSLAB_CACHE ==> g2 == g1 && r2 == r1
    requires c < 2 ==> c == RANGE_CACHE || c == KSLAB_CACHE
    ensures OneGrowth(g0, g2, r0, r2, ok, AllocNeed(c), AllocUse(c))
  {}

  lemma GrowthFailed(c: CacheId, g0: nat, g1: nat, r0: int, r1: int)
    requires OneGrowth(g0, g1, r0, r1, false, GrowNeed(c), GrowUse(c))
    ensures OneGrowth(g0, g1, r0, r1, false, AllocNeed(c), AllocUse(c))
  {}

  // ---------------------------------------------------------------- ranges that stay mapped

  /** What is to stay as it is: the mapped pages of the ranges `k` of callers. */
  ghost function KeepingOf(m: Mem, k: set<Ptr>): Flight { NOTHING.(kept := map n | n in k :: m.mapped.Keys) }

  ghost function Keeping(m: Mem): Flight { KeepingOf(m, UserRanges(m).Keys) }

  /** Exactly the pages of range `n` that were mapped are mapped. */
  ghost predicate SamePages(m: Mem, m': Mem, n: Ptr) { n in m'.ranges && Shows(m', n, m.mapped.Keys) }

  /** A caller's range that is still the caller's has the same pages mapped. */
  ghost predicate KeepsMapped(m: Mem, m': Mem) {
    forall n :: n in UserRanges(m) && n in UserRanges(m') ==> SamePages(m, m', n)
  }

  lemma KeepsMappedSelf(m: Mem)
    ensures KeepsMapped(m, m)
  {}

  lemma KeepAll(m: Mem, k: set<Ptr>)
    requires Inv(m, NOTHING) && k <= UserRanges(m).Keys
    ensures Inv(m, KeepingOf(m, k))
  {
    hide AllMapped, Backed, LabelOk, SlabsOk, HomeOk, MappedOk, RangesOk, LinksOk, UserRanges, SlabRangesOk;
    var z := KeepingOf(m, k);
    forall n | n in k
      ensures n in m.ranges && m.ranges[n].slab.None? && n !in m.freeList && n !in z.pending && Shows(m, n, z.kept[n])
    {
      UserRangeFacts(m, NOTHING, n);
      NotFree(m, NOTHING, n);
    }
    KeptRanges(m, NOTHING, z);
    KeptLinks(m, NOTHING, z);
    KeptSlabRanges(m, NOTHING, z);
  }

  lemma AllKept(m: Mem, m': Mem, x: Flight)
    requires Inv(m', x) && x == NOTHING.(kept := x.kept)
    requires forall n :: n in UserRanges(m) && n in UserRanges(m') ==> n in x.kept && x.kept[n] == m.mapped.Keys
    ensures Inv(m', NOTHING) && KeepsMapped(m, m')
  {
    hide Inv, Shows, UserRanges;
    DropMapped(m', x, NOTHING);
    forall n | n in UserRanges(m) && n in UserRanges(m') ensures SamePages(m, m', n) { StillMapped(m', x, n); }
  }

  lemma KeepMapped(m: Mem, x: Flight, n: Ptr)
    requires Inv(m, x) && n in UserRanges(m) && n in m.ranges
    ensures Inv(m, x.(kept := x.kept[n := m.mapped.Keys]))
  {
    hide Backed, LabelOk, SlabsOk, HomeOk, MappedOk, RangesOk, LinksOk, UserRanges, SlabRangesOk;
    var z := x.(kept := x.kept[n := m.mapped.Keys]);
    UserRangeFacts(m, x, n);
    NotFree(m, x, n);
    KeptOf(m, x);
    KeptRanges(m, x, z);
    KeptLinks(m, x, z);
    KeptSlabRanges(m, x, z);
  }

  lemma KeptOf(m: Mem, x: Flight)
    requires SlabRangesOk(m, x)
    ensures KeptOk(m, x)
  {
    hide Backed, LabelOk, Shows;
  }

  lemma KeptLinks(m: Mem, x: Flight, z: Flight)
    requires LinksOk(m, x) && z == x.(kept := z.kept)
    ensures LinksOk(m, z)
  {
    hide AllocatedFrom, IsOffSlab;
  }

  lemma KeptRanges(m: Mem, x: Flight, z: Flight)
    requires RangesOk(m, x) && z == x.(kept := z.kept)
    ensures RangesOk(m, z)
  {
    RangesUnfold(m, x);
    hide BoundsOk, Apart, TileOk, SortedUsed, SortedFree;
    assert PlacesOk(m, z);
    forall i, j | 0 <= i < j < |m.freeList|
      ensures FreeOrder(m, z, m.freeList[i], m.freeList[j])
    {
      SortedUse(m, x, i, j);
    }
    SortedFold(m, z);
  }

  lemma KeptSlabRanges(m: Mem, x: Flight, z: Flight)
    requires SlabRangesOk(m, x) && z == x.(kept := z.kept) && KeptOk(m, z)
    ensures SlabRangesOk(m, z)
  {
    hide AllMapped, KeptOk;
    forall s | s in m.slabs ensures Backed(m, z, s) { assert Backed(m, x, s); }
    forall n | n in m.ranges ensures LabelOk(m, z, n) { assert LabelOk(m, x, n); }
  }

  /** No page of a free range is mapped. */
  lemma FreeBare(m: Mem, x: Flight, f: Ptr)
    requires Inv(m, x) && f in m.freeList && f in m.ranges
    ensures Bare(m, f)
  {
    hide SlabsOk, HomeOk, SlabRangesOk, LinksOk, RangesOk, FramesOk, Covers;
    forall p | Covers(m.ranges[f], p) ensures p !in m.mapped {
      if p in m.mapped { OnePage(m, x, m.mapped[p], f, p); }
    }
  }

  /** Pages of one range that are none of another's. */
  lemma PartBare(m: Mem, m': Mem, f: Ptr, n: Ptr)
    requires f in m.ranges && n in m'.ranges && Bare(m, f) && m'.mapped == m.mapped
    requires m.ranges[f].base <= m'.ranges[n].base && End(m'.ranges[n]) <= End(m.ranges[f])
    ensures Bare(m', n)
  {}

  /** Whether the first page of a new slab that is written to is mapped. */
  lemma FirstWrite(m: Mem, x: Flight, c: CacheId, n: Ptr, s: Ptr)
    requires Inv(m, x) && SlabSite(m, x, c, n, s) && (m.caches[c].createMap || Bare(m, n))
    ensures var p := PageOf(if m.caches[c].onSlab then s else m.ranges[n].base * PAGE_SIZE);
      Covers(m.ranges[n], p) && InArea(p) && (p in m.pages.frameOf <==> m.caches[c].createMap)
  {
    assert CacheOk(m, c);
    hide SlabsOk, HomeOk, SlabRangesOk, LinksOk, IsObject, FullLast, SumFree;
    RangesUnfold(m, x);
    hide RangesOk, Apart, TileOk, PlacesOk, SortedUsed, SortedFree, OwnersOk, CacheOk;
  }

  /** The flight while a slab of cache `k` is built, with its structure at `s`. */
  function Building(x: Flight, k: Cache, s: Ptr): Flight { if k.onSlab then x else Hold(x, KSLAB_CACHE, s) }

  /** The CPU took a page fault on the slab about to be built on the new range `n`, none of whose pages is mapped. */
  ghost predicate FaultAt(m: Mem, m': Mem, x: Flight, c: CacheId, n: Ptr, s: Ptr) {
    && c in m.caches && c in m'.caches && !m'.caches[c].createMap
    && Given(m, m', n, m.caches[c].nbPages) && UserObjects(m') == UserObjects(m) && Bare(m', n)
    && Inv(m', Building(x, m'.caches[c], s)) && SlabSite(m', Building(x, m'.caches[c], s), c, n, s)
  }

  ghost predicate FaultIn(m: Mem, m': Mem, x: Flight, c: CacheId) { exists n, s :: FaultAt(m, m', x, c, n, s) }

  lemma FaultMade(m0: Mem, m1: Mem, m: Mem, x: Flight, y: Flight, c: CacheId, n: Ptr, s: Ptr)
    requires c in m0.caches && c in m1.caches && Given(m0, m1, n, m0.caches[c].nbPages)
    requires UserRanges(m) == UserRanges(m1) && n in m1.ranges && UserObjects(m) == UserObjects(m0)
    requires Inv(m, y) && SlabSite(m, y, c, n, s) && Bare(m, n) && !m.caches[c].createMap
    requires m.ranges[n] == m1.ranges[n] && y == Building(x, m.caches[c], s)
    ensures FaultIn(m0, m, x, c)
  {
    hide Inv, Bare, AllMapped, UserRanges, UserObjects;
    assert Given(m0, m, n, m0.caches[c].nbPages);
    assert FaultAt(m0, m, x, c, n, s);
  }

  lemma PagesStay(m: Mem, m': Mem, n: Ptr)
    requires n in m.ranges && SamePages(m, m', n) && m'.ranges[n].base == m.ranges[n].base
    requires m'.ranges[n].npages == m.ranges[n].npages
    ensures AllMapped(m, n) ==> AllMapped(m', n)
    ensures Bare(m, n) ==> Bare(m', n)
  {}

  /** A cache without mapping has no slabs. */
  lemma NoSlabs(m: Mem, x: Flight, c: CacheId)
    requires Inv(m, x) && c in m.caches
    ensures m.caches[c].slabList != [] ==> m.caches[c].createMap
    ensures c <= CACHE_CACHE ==> m.caches[c].createMap
  {
    assert CacheOk(m, c);
  }

  lemma DropMapped(m: Mem, z: Flight, x: Flight)
    requires Inv(m, z) && z == x.(kept := z.kept)
    requires forall n :: n in x.kept ==> n in z.kept && z.kept[n] == x.kept[n]
    ensures Inv(m, x)
  {
    hide Shows, Backed, LabelOk, SlabsOk, HomeOk, MappedOk, RangesOk, LinksOk;
    KeptRanges(m, z, x);
    KeptLinks(m, z, x);
    KeptSlabRanges(m, z, x);
  }

  lemma StillMapped(m: Mem, z: Flight, n: Ptr)
    requires Inv(m, z) && n in z.kept
    ensures n in m.ranges && Shows(m, n, z.kept[n])
  {
    hide RangesOk, MappedOk, SlabsOk, HomeOk, LinksOk, Backed, LabelOk, Shows;
  }

  lemma AddShape(m: Mem, x: Flight, y: Flight, c: CacheId, n: Ptr, s: Ptr, f: seq<Ptr>)
    requires c in m.caches && n in m.ranges && GeometryOk(m.caches[c]) && |f| == m.caches[c].nbObjects
    requires if m.caches[c].onSlab then y == x else y == Hold(x, KSLAB_CACHE, s) && s !in x.heldSlabs
    ensures HeadNonFull(AddSlab(m, c, n, s, f), c) && SameDims(m, AddSlab(m, c, n, s, f))
    ensures Grown(m, AddSlab(m, c, n, s, f), c)
    ensures Reserve(AddSlab(m, c, n, s, f)) == Reserve(m) + if c == RANGE_CACHE then |f| else 0
    ensures Placed(y, m.caches[c], s) == x
  {}

  lemma KeepsFreeFrame(m0: Mem, m: Mem, m': Mem, n: Ptr)
    requires m'.freeList == m.freeList && n in m.ranges && n in m'.ranges
    requires m'.ranges == m.ranges[n := m.ranges[n].(slab := m'.ranges[n].slab)]
    ensures KeepsFree(m0, m) ==> KeepsFree(m0, m')
  {}

  /** A cache with a free object has one in its head slab. */
  lemma RoomAtHead(m: Mem, x: Flight, c: CacheId)
    requires Inv(m, x) && c in m.caches && 1 <= m.caches[c].nbFree
    ensures HeadNonFull(m, c)
  {
    hide RangesOk, MappedOk, HomeOk, SlabRangesOk, LinksOk, GeometryOk;
    GrowFacts(m, x, c);
    var l := m.caches[c].slabList;
    if l == [] || m.slabs[l[0]].free == [] {
      assert CacheOk(m, c);
      forall t | t in l ensures t in m.slabs && m.slabs[t].nbFree == 0 {
        assert SlabOk(m, t);
        var i :| 0 <= i < |l| && l[i] == t;
      }
      hide SlabsOk, CacheOk;
      SumFreeZero(l, m.slabs);
    }
  }

  /** With a descriptor in reserve, the head slab of the range cache has a free one. */
  lemma ReserveAtHead(m: Mem, x: Flight)
    requires Inv(m, x) && 1 <= Reserve(m)
    ensures HeadNonFull(m, RANGE_CACHE)
  {
    InvFacts(m, x);
    hide Inv;
    RoomAtHead(m, x, RANGE_CACHE);
  }

  /** The cache keeps its minimum of free objects after one more allocation. */
  predicate Plenty(m: Mem, c: CacheId) {
    c in m.caches && m.caches[c].nbFree > m.caches[c].minFree && m.caches[c].minFree >= 0
  }

  /** The allocation took the object at the head of the head slab, and did nothing else. */
  predicate Popped(m: Mem, m': Mem, c: CacheId, obj: Option<Ptr>) {
    HeadNonFull(m, c) && obj == Some(HeadObject(m, c)) && m' == PopObject(m, c)
  }

  /** The free range at position `i` is the first of at least `nb` pages. */
  predicate IsFirstFit(m: Mem, nb: int, i: int) {
    0 <= i < |m.freeList| && m.freeList[i] in m.ranges && m.ranges[m.freeList[i]].npages >= nb
    && forall j :: 0 <= j < i && m.freeList[j] in m.ranges ==> m.ranges[m.freeList[j]].npages < nb
  }

  /**
   The new range starts where the first free range that is large enough did; there is none only if none is large enough.
   */
  ghost predicate FirstFit(m: Mem, m': Mem, nb: int, r: Option<Ptr>) {
    match r
    case None => forall i :: !IsFirstFit(m, nb, i)
    case Some(n) =>
      exists i :: IsFirstFit(m, nb, i) && n in m'.ranges && m'.ranges[n].base == m.ranges[m.freeList[i]].base
  }

  lemma FirstFitFrame(m0: Mem, m: Mem, m': Mem, nb: int, r: Option<Ptr>)
    requires FirstFit(m0, m, nb, r) && m'.ranges == m.ranges
    ensures FirstFit(m0, m', nb, r)
  {
    hide IsFirstFit;
  }

  // ---------------------------------------------------------------- when a slab goes

  /**
   Nothing but object `a` is allocated in its slab, and the other slabs of its cache have the free objects that the
   cache must keep.
   */
  predicate Goes(m: Mem, a: Ptr) {
    && Pushable(m, a)
    && (forall b :: b in m.home && m.home[b] == m.home[a] ==> b == a)
    && var k := m.caches[m.slabs[m.home[a]].cache];
      SumFree(Without(k.slabList, m.home[a]), m.slabs) >= k.minFree
  }

  /**
   When object `a` is freed, its slab is given up if and only if it may go, with its place in the cache and its pages;
   otherwise the object went to the head of the free list of the slab, and nothing else changed.
   */
  ghost predicate SlabSettled(m: Mem, m': Mem, a: Ptr) {
    && Pushable(m, a)
    && var s, c := m.home[a], m.slabs[m.home[a]].cache;
      && (s !in m'.slabs <==> Goes(m, a)) && (!Goes(m, a) ==> m' == PushObject(m, a))
      && (Goes(m, a) ==> m.slabs[s].range in m.ranges && PagesFree(m', m.ranges[m.slabs[s].range]))
      && (Goes(m, a) && c >= 2 ==> c in m'.caches && SlabOut(m.caches[c], m'.caches[c], s, m.slabs))
  }

  /** Slab `s` is out of the list of its cache. */
  predicate SlabOut(k: Cache, k': Cache, s: Ptr, slabs: map<Ptr, Slab>) {
    s in k.slabList && k'.slabList == Without(k.slabList, s) && k'.nbFree == SumFree(k'.slabList, slabs)
  }

  lemma GoesExactly(m: Mem, x: Flight, a: Ptr)
    requires Inv(m, x) && a in m.home && m.home[a] in m.slabs && MayFree(m, x, a)
    ensures Pushable(m, a) && (Releasable(PushObject(m, a), m.home[a]) <==> Goes(m, a))
  {
    hide Inv, PushAt, Without, SumFree;
    var s, c := m.home[a], m.slabs[m.home[a]].cache;
    HomeRange(m, x, a);
    PushKeeps(m, x, a);
    CacheSums(m, x, s);
    PushedNumbers(m, a);
    var m1 := PushObject(m, a);
    SlabSides(m1, Unhold(x, c, a));
    SlabUnused(m1, s) by { hide PushObject; }
    assert m1.home == m.home - {a};
    forall b | b in m.home && b != a ensures b in m1.home && m1.home[b] == m.home[b] {}
    if !Unused(m1, s) {
      var b :| b in m1.home && m1.home[b] == s;
      assert b in m.home && m.home[b] == s && b != a;
    }
  }

  lemma SlabSides(m: Mem, x: Flight)
    requires Inv(m, x)
    ensures SlabsOk(m) && HomeOk(m)
  {}

  lemma PushedNumbers(m: Mem, a: Ptr)
    requires Pushable(m, a) && Counted(m, m.home[a])
    ensures var s, c, m1 := m.home[a], m.slabs[m.home[a]].cache, PushObject(m, a);
      && s in m1.slabs && m1.slabs[s].cache == c && m1.slabs[s].nbFree == m.slabs[s].nbFree + 1
      && c in m1.caches && s in m1.caches[c].slabList && m1.caches[c].nbFree == m.caches[c].nbFree + 1
      && m1.caches[c].minFree == m.caches[c].minFree && m1.caches[c].nbObjects == m.caches[c].nbObjects
      && m1.home == m.home - {a}
  {
    hide Without;
  }

  lemma CacheSums(m: Mem, x: Flight, s: Ptr)
    requires Inv(m, x) && s in m.slabs
    ensures var c := m.slabs[s].cache;
      && c in m.caches && s in m.caches[c].slabList
      && m.caches[c].nbFree - m.slabs[s].nbFree == SumFree(Without(m.caches[c].slabList, s), m.slabs)
    ensures m.slabs[s].nbFree == |m.slabs[s].free|
  {
    hide RangesOk, MappedOk, HomeOk, SlabRangesOk, LinksOk;
    assert SlabOk(m, s) && CacheOk(m, m.slabs[s].cache);
    WithoutSum(m.caches[m.slabs[s].cache].slabList, s, m.slabs);
  }

  lemma SettledNow(m: Mem, x: Flight, m': Mem, a: Ptr)
    requires Inv(m, x) && a in m.home && m.home[a] in m.slabs && MayFree(m, x, a) && PushedOnly(m, m', a)
    requires m.home[a] in m'.slabs <==> !Releasable(PushObject(m, a), m.home[a])
    requires Releasable(PushObject(m, a), m.home[a]) ==>
      m.slabs[m.home[a]].range in m.ranges && PagesFree(m', m.ranges[m.slabs[m.home[a]].range])
    ensures SlabSettled(m, m', a)
  {
    var s, c := m.home[a], m.slabs[m.home[a]].cache;
    GoesExactly(m, x, a);
    CacheSums(m, x, s);
    hide Inv, PagesFree;
    if Goes(m, a) && c >= 2 { OutOfCache(m, m', a); }
    hide Releasable, Goes, SlabOut;
  }

  lemma OutOfCache(m: Mem, m': Mem, a: Ptr)
    requires PushedOnly(m, m', a) && Releasable(PushObject(m, a), m.home[a])
    requires var s, c := m.home[a], m.slabs[m.home[a]].cache;
      && c >= 2 && m.caches[c].nbFree - m.slabs[s].nbFree == SumFree(Without(m.caches[c].slabList, s), m.slabs)
      && m.slabs[s].nbFree == |m.slabs[s].free|
    ensures var c := m.slabs[m.home[a]].cache;
      c in m'.caches && SlabOut(m.caches[c], m'.caches[c], m.home[a], m.slabs)
  {
    var s, c, m1 := m.home[a], m.slabs[m.home[a]].cache, PushObject(m, a);
    WithoutTwice(m.caches[c].slabList, s);
    hide SumFree, Without;
    assert UserCaches(RemoveSlab(m1, s).caches)[c] == RemoveSlab(m1, s).caches[c];
    assert c in UserCaches(m'.caches) && UserCaches(m'.caches)[c] == m'.caches[c];
  }

  lemma WithoutTwice(l: seq<Ptr>, s: Ptr)
    requires s in l
    ensures Without([s] + Without(l, s), s) == Without(l, s)
  {
    assert IndexOf([s] + Without(l, s), s) == 0;
  }

  // ---------------------------------------------------------------- when an allocation fails

  /** Some free range has at least `nb` pages. */
  ghost predicate HasFree(m: Mem, nb: int) {
    exists f :: f in m.freeList && f in m.ranges && m.ranges[f].npages >= nb
  }

  /** The first free range that is large enough has just `nb` pages, so that no descriptor is needed to split it. */
  ghost predicate ExactFit(m: Mem, nb: int) {
    exists i :: IsFirstFit(m, nb, i) && m.ranges[m.freeList[i]].npages == nb
  }

  /**
   No free range has the pages that growing cache `c` may take: those of the slab, those of a slab of slab structures,
   and one for a slab of range descriptors.
   */
  ghost predicate Lacks(m: Mem, c: CacheId) {
    c in m.caches && KSLAB_CACHE in m.caches
    && (!HasFree(m, m.caches[c].nbPages)
        || (!m.caches[c].onSlab && !HasFree(m, m.caches[c].nbPages + m.caches[KSLAB_CACHE].nbPages + 1)))
  }

  /** What is left free: no free range that was large enough lost more than `d` pages. */
  ghost predicate Leaves(m: Mem, m': Mem, d: int) {
    forall k :: 1 <= k && HasFree(m, k + d) ==> HasFree(m', k)
  }

  lemma Suitable(m: Mem, k: Option<nat>, nb: int)
    requires forall i :: 0 <= i < |m.freeList| ==> m.freeList[i] in m.ranges
    requires k.Some? ==> k.value < |m.freeList| && m.ranges[m.freeList[k.value]].npages >= nb
    requires k.None? ==> forall i :: 0 <= i < |m.freeList| ==> m.ranges[m.freeList[i]].npages < nb
    ensures HasFree(m, nb) <==> k.Some?
  {
    if k.Some? {
      var f := m.freeList[k.value];
      assert f in m.freeList && f in m.ranges && m.ranges[f].npages >= nb;
    }
  }

  lemma TheFit(m: Mem, nb: int, k: nat)
    requires IsFirstFit(m, nb, k)
    ensures ExactFit(m, nb) <==> m.ranges[m.freeList[k]].npages == nb
  {
    forall i | IsFirstFit(m, nb, i) ensures i == k {}
  }

  lemma HasFreeSame(m: Mem, m': Mem, nb: int)
    requires m'.ranges == m.ranges && m'.freeList == m.freeList
    ensures HasFree(m', nb) <==> HasFree(m, nb)
  {}

  lemma HasFreeLess(m: Mem, nb: int, more: int)
    requires nb <= more
    ensures HasFree(m, more) ==> HasFree(m, nb)
  {}

  lemma LeavesMore(m: Mem, m': Mem, d: int, e: int)
    requires Leaves(m, m', d) && d <= e
    ensures Leaves(m, m', e)
  {
    forall k | 1 <= k && HasFree(m, k + e) ensures HasFree(m', k) { assert HasFree(m, k + d); }
  }

  lemma LeavesTrans(m0: Mem, m1: Mem, m2: Mem, d: int, e: int)
    requires Leaves(m0, m1, d) && Leaves(m1, m2, e) && e >= 0
    ensures Leaves(m0, m2, e + d)
  {
    hide HasFree;
    forall k | 1 <= k && HasFree(m0, k + (e + d)) ensures HasFree(m2, k) {
      assert HasFree(m0, (k + e) + d);
      assert HasFree(m1, k + e);
    }
  }

  lemma LeavesSame(m0: Mem, m1: Mem, m2: Mem, d: int)
    requires Leaves(m0, m1, d) && m2.ranges == m1.ranges && m2.freeList == m1.freeList
    ensures Leaves(m0, m2, d)
  {
    hide HasFree;
    forall k | 1 <= k && HasFree(m0, k + d) ensures HasFree(m2, k) { HasFreeSame(m1, m2, k); }
  }

  /** A descriptor was taken: that may have cost one page. */
  lemma DescriptorLeaves(m: Mem, m': Mem)
    requires KeepsFree(m, m') && (Reserve(m) != 2 ==> m'.ranges == m.ranges && m'.freeList == m.freeList)
    ensures Leaves(m, m', if Reserve(m) == 2 then 1 else 0)
  {
    if Reserve(m) == 2 {
      forall k | 1 <= k && HasFree(m, k + 1) ensures HasFree(m', k) {
        var f :| f in m.freeList && f in m.ranges && m.ranges[f].npages >= k + 1;
        assert f in m'.freeList && f in m'.ranges && m'.ranges[f].npages >= k;
      }
    }
  }

  /** Where a range can be split, there is a page for a slab of descriptors. */
  lemma NoDescriptor(m: Mem, f: Ptr, nb: int)
    requires f in m.freeList && f in m.ranges && m.ranges[f].npages > nb >= 1 && RANGE_CACHE in m.caches
    requires m.caches[RANGE_CACHE].onSlab && m.caches[RANGE_CACHE].nbPages == 1
    ensures !Lacks(m, RANGE_CACHE)
  {
    assert HasFree(m, 1);
  }

  lemma TakenLeaves(m: Mem, x: Flight, k: nat, j: nat)
    requires Inv(m, x) && k < |m.freeList| && m.freeList[k] in m.ranges && j <= |m.usedList|
    requires 0 <= m.ranges[m.freeList[k]].npages
    ensures Leaves(m, TakeWhole(m, k, j), m.ranges[m.freeList[k]].npages)
  {
    hide MappedOk, SlabsOk, HomeOk, LinksOk, RangesOk, SlabRangesOk;
    var f, m', d := m.freeList[k], TakeWhole(m, k, j), m.ranges[m.freeList[k]].npages;
    ListsDistinct(m, x);
    RemoveFacts(m.freeList, k);
    TakeWholeSpans(m, k, j);
    hide NoDup, Inv, RemoveAt;
    forall i | 1 <= i && HasFree(m, i + d) ensures HasFree(m', i) {
      var g :| g in m.freeList && g in m.ranges && m.ranges[g].npages >= i + d;
      assert g != f && g in m'.freeList && SameSpan(m, m', g);
    }
  }

  lemma SplitLeaves(m: Mem, x: Flight, k: nat, a: Ptr, nb: int, j: nat)
    requires SplitOk(m, x, k, a, nb, j) && 0 <= nb
    ensures Leaves(m, Split(m, k, a, nb, j), nb)
  {
    SplitSpans(m, x, k, a, nb, j);
    var f, m' := m.freeList[k], Split(m, k, a, nb, j);
    hide Split, IsPosition;
    forall i | 1 <= i && HasFree(m, i + nb) ensures HasFree(m', i) {
      var g :| g in m.freeList && g in m.ranges && m.ranges[g].npages >= i + nb;
      assert g in m'.freeList && g in m'.ranges && m'.ranges[g].npages >= i;
    }
  }

  lemma PagesWanted(m: Mem, x: Flight, c: CacheId)
    requires Inv(m, x) && c in m.caches
    ensures KSLAB_CACHE in m.caches && 1 <= m.caches[c].nbPages && 1 <= m.caches[KSLAB_CACHE].nbPages
    ensures !HasFree(m, m.caches[c].nbPages) ==> Lacks(m, c)
  {
    GrowFacts(m, x, c);
    GrowFacts(m, x, KSLAB_CACHE);
    hide Inv;
  }

  lemma StructureLacks(m: Mem, m': Mem, c: CacheId)
    requires c in m.caches && !m.caches[c].onSlab && KSLAB_CACHE in m.caches && SameDims(m, m')
    requires m.caches[KSLAB_CACHE].onSlab && 1 <= m.caches[KSLAB_CACHE].nbPages
    requires Leaves(m, m', m.caches[c].nbPages + 1) || Leaves(m, m', m.caches[c].nbPages)
    ensures Lacks(m', KSLAB_CACHE) ==> Lacks(m, c)
  {
    var d, e := m.caches[c].nbPages, m.caches[KSLAB_CACHE].nbPages;
    if Leaves(m, m', d) { LeavesMore(m, m', d, d + 1); }
    if Lacks(m', KSLAB_CACHE) {
      assert !HasFree(m', e);
      assert !HasFree(m, e + (d + 1));
    }
  }

  /** A cache that has its minimum, and must keep some free objects, has room in its first slab. */
  lemma MinAtHead(m: Mem, x: Flight, c: CacheId)
    requires Inv(m, x) && MinFree(m, c)
    ensures m.caches[c].minFree > 0 ==> HeadNonFull(m, c)
  {
    if m.caches[c].minFree > 0 { RoomAtHead(m, x, c); }
  }

  lemma InternalMin(m: Mem, x: Flight)
    requires Inv(m, x)
    ensures MinFree(m, KSLAB_CACHE) && (2 <= Reserve(m) ==> MinFree(m, RANGE_CACHE))
  {
    InvFacts(m, x);
    GrowFacts(m, x, RANGE_CACHE);
    CountedCache(m, x, KSLAB_CACHE);
    hide Inv;
  }

  lemma LacksSame(m: Mem, m': Mem, c: CacheId)
    requires SameDims(m, m') && m'.ranges == m.ranges && m'.freeList == m.freeList
    ensures Lacks(m', c) ==> Lacks(m, c)
  {}

  lemma {:induction false} SumFreeAtLeast(l: seq<Ptr>, slabs: map<Ptr, Slab>)
    requires forall t :: t in l ==> t in slabs && 0 <= slabs[t].nbFree
    ensures 0 <= SumFree(l, slabs)
    ensures l != [] ==> l[0] in slabs && slabs[l[0]].nbFree <= SumFree(l, slabs)
  {
    if l == [] {
    } else {
      var s := l[0];
      assert s in l;
      assert 0 <= slabs[s].nbFree;
      SumFreeAtLeast(l[1..], slabs);
    }
  }

  lemma {:induction false} SumFreeZero(l: seq<Ptr>, slabs: map<Ptr, Slab>)
    requires forall t :: t in l ==> t in slabs && slabs[t].nbFree == 0
    ensures SumFree(l, slabs) == 0
  {
    if l == [] {
    } else {
      var s := l[0];
      assert s in l;
      assert slabs[s].nbFree == 0;
      SumFreeZero(l[1..], slabs);
    }
  }

  lemma PopShape(m: Mem, x: Flight, c: CacheId)
    requires Inv(m, x) && HeadNonFull(m, c) && SlabOk(m, m.caches[c].slabList[0]) && HeadObject(m, c) !in m.home
    ensures var m' := PopObject(m, c);
      && SameDims(m, m') && m'.ranges == m.ranges && m'.freeList == m.freeList && KeepsFree(m, m')
      && m'.caches[c].nbFree == m.caches[c].nbFree - 1
      && Reserve(m') == Reserve(m) - (if c == RANGE_CACHE then 1 else 0)
    ensures Idle(x, HeadObject(m, c)) && HeadObject(m, c) !in UserObjects(m)
  {
    hide Inv, IsObject, KeepsFree;
    NotHeld(m, x, HeadObject(m, c));
    KeepsFreeSelf(m, PopObject(m, c));
  }

  lemma KeepsFreeShift(m0: Mem, m: Mem, m': Mem)
    requires m.ranges == m0.ranges && m.freeList == m0.freeList && KeepsFree(m, m')
    ensures KeepsFree(m0, m')
  {}

  lemma KeepsFreeSame(m0: Mem, m: Mem, m': Mem)
    requires m'.ranges == m.ranges && m'.freeList == m.freeList
    ensures KeepsFree(m0, m) ==> KeepsFree(m0, m')
  {}

  lemma KeepsFreeSelf(m: Mem, m': Mem)
    requires m'.ranges == m.ranges && m'.freeList == m.freeList
    ensures KeepsFree(m, m')
  {}

  lemma NotHeld(m: Mem, x: Flight, a: Ptr)
    requires Inv(m, x) && a !in m.home
    ensures Idle(x, a)
  {
    hide RangesOk, MappedOk, SlabsOk, HomeOk, SlabRangesOk, IsOffSlab, Structs, Named;
    assert !AllocatedFrom(m, RANGE_CACHE, a) && !AllocatedFrom(m, KSLAB_CACHE, a) && !AllocatedFrom(m, CACHE_CACHE, a);
  }

  lemma HeldIsHome(m: Mem, x: Flight, c: CacheId, a: Ptr)
    requires Inv(m, Hold(x, c, a)) && Idle(x, a)
    requires c > CACHE_CACHE ==> a in UserObjects(m) && UserObjects(m)[a] == c
    ensures a in m.home && m.home[a] in m.slabs && m.slabs[m.home[a]].cache == c
    ensures MayFree(m, Hold(x, c, a), a) && Unhold(Hold(x, c, a), c, a) == x
    ensures AllocatedFrom(m, RANGE_CACHE, a) <==> c == RANGE_CACHE
  {
    hide RangesOk, MappedOk, SlabsOk, HomeOk, SlabRangesOk, IsOffSlab, Structs, Named;
    assert c <= CACHE_CACHE ==> AllocatedFrom(m, c, a);
    hide LinksOk;
  }

  lemma UndoUser(m0: Mem, m: Mem, c: CacheId, a: Ptr)
    requires a in m.home && m.home[a] in m.slabs && m.slabs[m.home[a]].cache == c
    requires UserObjects(m) == if c > CACHE_CACHE then UserObjects(m0)[a := c] else UserObjects(m0)
    requires a !in UserObjects(m0)
    ensures UserObjects(m) - {a} == UserObjects(m0)
  {
    if c <= CACHE_CACHE { NotUser(m, a); }
    hide UserObjects;
  }

  // ---------------------------------------------------------------- whole pages, for callers

  /** A new caller's range of `nb` pages starts at address `a`. */
  ghost predicate GivenAt(m: Mem, m': Mem, a: Ptr, nb: int, wantMap: bool) {
    exists n :: Given(m, m', n, nb) && m'.ranges[n].base * PAGE_SIZE == a && 1 <= nb
                && if wantMap then AllMapped(m', n) else Bare(m', n)
  }

  predicate StartsAt(m: Mem, n: Ptr, a: Ptr) {
    n in m.ranges && m.ranges[n].base * PAGE_SIZE == a && 1 <= m.ranges[n].npages && n !in m.freeList
  }

  lemma GivenParts(m: Mem, m': Mem, n: Ptr, nb: int)
    requires Given(m, m', n, nb)
    ensures n in m'.ranges
  {}

  lemma GivenWitness(m: Mem, m': Mem, n: Ptr, nb: int, wantMap: bool)
    requires Given(m, m', n, nb) && n in m'.ranges && 1 <= nb && if wantMap then AllMapped(m', n) else Bare(m', n)
    ensures GivenAt(m, m', m'.ranges[n].base * PAGE_SIZE, nb, wantMap)
  {
    hide Given, AllMapped, Bare;
  }

  lemma LabelledNotUser(m: Mem, n: Ptr)
    requires n in m.ranges && m.ranges[n].slab.Some?
    ensures n !in UserRanges(m)
  {}

  /** What a lookup result says about the ranges that start at the address. */
  lemma LookupFacts(m: Mem, r: Answer, a: Ptr)
    requires Inv(m, NOTHING)
    requires r.Yes? ==> r.at in m.ranges && r.at !in m.freeList && Covers(m.ranges[r.at], PageOf(a))
    requires r.Yes? ==> forall n :: n in m.ranges && Covers(m.ranges[n], PageOf(a)) ==> n == r.at
    requires r.No? ==> forall n :: n in m.usedList && n in m.ranges ==> !Covers(m.ranges[n], PageOf(a))
    requires InArea(PageOf(a)) ==> !r.Halt?
    ensures forall n :: StartsAt(m, n, a) ==> r == Yes(n)
    ensures r.Yes? ==> r.at in m.usedList && 1 <= m.ranges[r.at].npages
    ensures forall n :: n in UserRanges(m) ==>
      n in m.usedList && n in m.ranges && n !in m.freeList && 1 <= m.ranges[n].npages
    ensures forall n :: n in m.usedList ==> n in m.ranges && n !in m.freeList
  {
    hide MappedOk, SlabsOk, HomeOk, SlabRangesOk, LinksOk;
    RangesUnfold(m, NOTHING);
    hide Inv, RangesOk, Apart, TileOk, SortedUsed, SortedFree;
    forall n | StartsAt(m, n, a) ensures r == Yes(n) {
      assert n in m.usedList;
      assert Covers(m.ranges[n], PageOf(a));
    }
    if r.Yes? {
      var n := r.at;
      assert n in m.ranges <==> n in m.freeList || n in m.usedList || n in NOTHING.pending;
      assert n in m.usedList;
      assert 1 <= m.ranges[n].npages;
    }
  }

  lemma GivenMinus(m: Mem, m': Mem, n: Ptr, nb: int)
    requires Given(m, m', n, nb)
    ensures UserRanges(m') - {n} == UserRanges(m) && n in UserRanges(m')
  {
    hide UserRanges;
  }

  /** An address inside a caller's range is no object, allocated or free. */
  lemma RangeAddressIsNoObject(m: Mem, n: Ptr, a: Ptr)
    requires Inv(m, NOTHING) && StartsAt(m, n, a) && n in UserRanges(m)
    ensures a !in m.home && NotFreeObject(m, a)
  {
    assert Covers(m.ranges[n], PageOf(a)) && m.ranges[n].slab.None?;
    hide MappedOk, IsObject, Covers, UserRanges;
    if a in m.home {
      HomeRange(m, NOTHING, a);
      hide SlabsOk, HomeOk, SlabRangesOk, LinksOk, RangesOk;
      OnePage(m, NOTHING, n, m.slabs[m.home[a]].range, PageOf(a));
    }
    forall s | s in m.slabs ensures a !in m.slabs[s].free {
      if a in m.slabs[s].free {
        assert SlabOk(m, s) && Backed(m, NOTHING, s);
        hide SlabsOk, HomeOk, SlabRangesOk, LinksOk, RangesOk;
        ObjectPage(m, NOTHING, s, a);
        OnePage(m, NOTHING, n, m.slabs[s].range, PageOf(a));
      }
    }
  }
}
