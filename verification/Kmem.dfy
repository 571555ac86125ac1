/**
 The kernel memory allocator: os/kmem_slab.c and os/kmem_vmm.c as they call each other.

 Each method takes the steps of the C function it is named after, on the fields below. The ghost
 parameter `x` says what the callers have in flight; a call from outside passes NOTHING.
 Whether a physical page can be found and mapped is left open, so every result is covered.
 */
module Kmem {
  import opened KmemState
  import opened KmemGeometry
  import opened KmemPages
  import opened KmemSlabSteps
  import opened KmemRangeSteps
  import opened KmemFreeSteps
  import opened KmemFacts

  class Allocator {
    var ranges: map<Ptr, Range>
    var freeList: seq<Ptr>
    var usedList: seq<Ptr>
    var slabs: map<Ptr, Slab>
    var caches: map<CacheId, Cache>
    /** What sos_paging_get_paddr finds for each page, and field kernel_range of each physical page. */
    var frameOf: map<int, Frame>
    var rangeOf: map<Frame, Ptr>
    ghost var mapped: map<int, Ptr>
    ghost var tile: map<int, Ptr>
    ghost var home: map<Ptr, Ptr>
    /** How many times the range cache was given a slab. */
    ghost var grown: nat
    /** How many times sos_physmem_ref_physpage_new had no physical page to give. */
    ghost var refused: nat

    ghost function St(): Mem
      reads this
    {
      Mem(ranges, freeList, usedList, slabs, caches, Pages(frameOf, rangeOf), mapped, tile, home)
    }

    // -------------------------------------------------------------- scans

    /** get_closest_preceding_kmem_range: the number of ranges of the list that start at or before page `p`. */
    method ClosestPreceding(l: seq<Ptr>, p: int) returns (k: nat)
      requires forall i :: 0 <= i < |l| ==> l[i] in ranges
      requires forall i, j :: 0 <= i < j < |l| ==> ranges[l[i]].base <= ranges[l[j]].base
      ensures IsPosition(St(), l, k, p)
    {
      k := 0;
      while k < |l|
        invariant 0 <= k <= |l|
        invariant forall i :: 0 <= i < k ==> ranges[l[i]].base <= p
      {
        if p < ranges[l[k]].base { return; }
        k := k + 1;
      }
    }

    /** find_suitable_free_range: first fit. */
    method FindSuitable(nb: int) returns (k: Option<nat>)
      requires forall i :: 0 <= i < |freeList| ==> freeList[i] in ranges
      ensures k.Some? ==> k.value < |freeList| && ranges[freeList[k.value]].npages >= nb
                          && forall i :: 0 <= i < k.value ==> ranges[freeList[i]].npages < nb
      ensures k.None? ==> forall i :: 0 <= i < |freeList| ==> ranges[freeList[i]].npages < nb
    {
      var i := 0;
      while i < |freeList|
        invariant 0 <= i <= |freeList|
        invariant forall j :: 0 <= j < i ==> ranges[freeList[j]].npages < nb
      {
        if ranges[freeList[i]].npages >= nb { return Some(i); }
        i := i + 1;
      }
      return None;
    }

    /**
     lookup_range: through the physical page if one is mapped, otherwise by scanning the used list.
     Both ways give the one range that is not free and covers the address. The source asserts that a page that is mapped
     has an owner: it halts exactly for the others, none of which lies in the kernel area.
     */
    method LookupRange(vaddr: Ptr, ghost x: Flight) returns (r: Answer)
      requires Inv(St(), x)
      ensures r.Yes? ==> r.at in ranges && r.at !in freeList && Covers(ranges[r.at], PageOf(vaddr))
      ensures r.Yes? ==> forall n :: n in ranges && Covers(ranges[n], PageOf(vaddr)) ==> n == r.at
      ensures r.No? ==> forall n :: n in usedList && n in ranges ==> !Covers(ranges[n], PageOf(vaddr))
      ensures r.Halt? <==> Unowned(Pages(frameOf, rangeOf), PageOf(vaddr))
      ensures InArea(PageOf(vaddr)) ==> !r.Halt?
    {
      var p := PageOf(vaddr);
      hide SlabsOk, HomeOk, SlabRangesOk, LinksOk, SortedFree;
      AreaOwned(St(), x, p);
      if p in frameOf {
        var f := frameOf[p];
        if f !in rangeOf { return Halt; }
        hide RangesOk, MappedOk;
        OwnerFacts(St(), p);
        OnlyRange(St(), x, mapped[p], p);
        return Yes(rangeOf[f]);
      }
      hide MappedOk;
      UsedFacts(St(), x);
      var k := ClosestPreceding(usedList, p);
      if k > 0 && p < End(ranges[usedList[k - 1]]) {
        r := Yes(usedList[k - 1]);
        assert usedList[k - 1] in usedList;
        NotFree(St(), x, usedList[k - 1]);
        hide RangesOk;
        OnlyRange(St(), x, usedList[k - 1], p);
        return;
      }
      r := No;
      ScanMisses(St(), x, k, p);
    }

    // -------------------------------------------------------------- objects of a slab

    /** Takes the object at the head of the head slab (the middle part of sos_kmem_cache_alloc). */
    method PopHead(c: CacheId) returns (obj: Ptr)
      requires HeadNonFull(St(), c) && SlabOk(St(), caches[c].slabList[0])
      modifies this
      ensures grown == old(grown) && refused == old(refused)
      ensures obj == HeadObject(old(St()), c) && St() == PopObject(old(St()), c)
    {
      var k := caches[c];
      var s := k.slabList[0];
      var b := slabs[s];
      obj := b.free[0];
      slabs := slabs[s := b.(nbFree := b.nbFree - 1, free := b.free[1..])];
      caches := caches[c := k.(nbFree := k.nbFree - 1)];
      if slabs[s].free == [] {
        caches := caches[c := caches[c].(slabList := k.slabList[1..] + [s])];
      }
      home := home[obj := s];
    }

    /** sos_kmem_vmm_resolve_slab: the slab whose range covers the address, if any. */
    method ResolveSlab(vaddr: Ptr, ghost x: Flight) returns (s: Answer)
      requires Inv(St(), x)
      requires forall n :: n in x.dangling && n in ranges ==> !Covers(ranges[n], PageOf(vaddr))
      ensures forall t :: Tested(St(), t, vaddr) ==> s == Yes(t)
      ensures s.Yes? ==> SlabAround(St(), s.at, vaddr)
      ensures s.Halt? <==> Unowned(Pages(frameOf, rangeOf), PageOf(vaddr))
    {
      hide RangesOk, MappedOk, SlabsOk, HomeOk, SlabRangesOk, LinksOk, IsObject, Covers, Tested;
      var r := LookupRange(vaddr, x);
      forall t | Tested(St(), t, vaddr)
        ensures t in slabs && slabs[t].range in ranges && r == Yes(slabs[t].range)
        ensures ranges[slabs[t].range].slab == Some(t)
      {
        TestedRange(St(), x, t, vaddr);
      }
      if !r.Yes? { return r; }
      if ranges[r.at].slab.None? { return No; }
      LabelFacts(St(), x, r.at, vaddr);
      s := Yes(ranges[r.at].slab.value);
    }

    /** The releasing part of free_object. */
    method PushBack(s: Ptr, vaddr: Ptr)
      requires s in slabs && slabs[s].cache in caches && s in caches[slabs[s].cache].slabList
      requires slabs[s].nbFree == |slabs[s].free|
      modifies this
      ensures grown == old(grown) && refused == old(refused)
      ensures St() == PushAt(old(St()), s, vaddr)
    {
      hide Without;
      var b := slabs[s];
      var c := b.cache;
      var l := caches[c].slabList;
      if b.free == [] {
        caches := caches[c := caches[c].(slabList := [s] + Without(l, s))];
      }
      slabs := slabs[s := b.(nbFree := b.nbFree + 1, free := [vaddr] + b.free)];
      caches := caches[c := caches[c].(nbFree := caches[c].nbFree + 1)];
      home := home - {vaddr};
    }

    /**
     free_object. The address goes to the free list of the slab it is an object of, if there is one, whether that object
     was allocated or not: `KmemTheorems.FreeExactly` says when that is right. `empty` is the slab to release, when the
     last object of a slab came back and the cache keeps enough free objects without it.
     */
    method FreeObject(vaddr: Ptr, ghost x: Flight) returns (ret: Ret, empty: Option<Ptr>)
      requires Inv(St(), x)
      requires forall n :: n in x.dangling && n in ranges ==> !Covers(ranges[n], PageOf(vaddr))
      modifies this
      ensures grown == old(grown) && refused == old(refused)
      ensures (forall s :: !Tested(old(St()), s, vaddr)) ==>
        ret == Refused(old(St()), vaddr) && St() == old(St()) && empty.None?
      ensures forall s :: Tested(old(St()), s, vaddr) ==>
        && ret == OK && St() == PushAt(old(St()), s, vaddr)
        && empty == if Releasable(St(), s) then Some(s) else None
    {
      hide RangesOk, MappedOk, SlabsOk, HomeOk, SlabRangesOk, LinksOk, IsObject, Covers;
      empty := None;
      var found := ResolveSlab(vaddr, x);
      if found.Halt? { return Halted, None; }
      if found.No? { return EINVAL, None; }
      var s := found.at;
      var b := slabs[s];
      var c := b.cache;
      ObjectTest(caches[c], b.first, vaddr);
      if (vaddr - b.first) % caches[c].objSize != 0 || (vaddr - b.first) / caches[c].objSize >= caches[c].nbObjects {
        return EINVAL, None;
      }
      ghost var m := St();
      assert Tested(m, s, vaddr);
      PushBack(s, vaddr);
      PushShape(m, s, vaddr);
      if slabs[s].nbFree >= caches[c].nbObjects && caches[c].nbFree - slabs[s].nbFree >= caches[c].minFree {
        empty := Some(s);
      }
      ret := OK;
    }

    // -------------------------------------------------------------- releasing slabs

    /** cache_release_slab. With `delRange` unset, which is only for range slabs, the range is left to the caller. */
    method CacheReleaseSlab(s: Ptr, delRange: bool, ghost x: Flight)
      requires Inv(St(), x) && MayRelease(St(), s)
      requires delRange ==> Settled(x)
      requires !delRange ==> caches[slabs[s].cache].onSlab
      modifies this
      ensures grown == old(grown) && refused == old(refused)
      ensures delRange ==> Inv(St(), x) && SameUser(old(St()), St())
      ensures !delRange ==> SlabGone(old(St()), St(), s)
      ensures Steady(old(St()), St(), 0)
      ensures UserCaches(caches) == UserCaches(RemoveSlab(old(St()), s).caches)
      ensures s !in slabs
      ensures delRange ==> old(slabs[s].range) in old(ranges) && PagesFree(St(), old(ranges[slabs[s].range]))
      decreases if s in slabs && slabs[s].cache in caches
        && caches[slabs[s].cache].onSlab then (if delRange then 4 else 0) else 6
    {
      hide RangesOk, MappedOk, SlabsOk, HomeOk, SlabRangesOk, LinksOk, UserRanges, UserObjects, UserCaches, Without,
        Steady, PagesFree;
      ghost var m0 := St();
      RemoveKeeps(m0, x, s);
      RemoveShape(m0, x, s);
      SlabRange(m0, x, s);
      LabelledNotKept(m0, x, slabs[s].range);
      var c := slabs[s].cache;
      var n := slabs[s].range;
      ghost var x1 := Removed(x, caches[c], n, s);
      ghost var y := x.(dangling := x.dangling + {n});
      var k := caches[c];
      caches := caches[c := k.(slabList := Without(k.slabList, s), nbFree := k.nbFree - slabs[s].nbFree)];
      slabs := slabs - {s};
      ghost var m1 := St();
      assert m1 == RemoveSlab(m0, s);
      if k.onSlab {
        SteadySelf(m1);
      } else {
        HeldStructure(m0, m1, x, x1, s);
        DanglingElsewhere(m1, x1, s);
        NotUser(m1, s);
        InternalCaches(m1);
        var r := CacheFree(s, x1);
        assert Unhold(x1, KSLAB_CACHE, s) == y;
      }
      ghost var m2 := St();
      SteadySlabs(m1, m2, 0, s);
      SteadyTrans(m0, m1, m2, 0, 0);
      DanglingUsed(m2, y, n);
      ClearKeeps(m2, y, n);
      ClearShape(m2, n);
      ranges := ranges[n := ranges[n].(slab := None)];
      ghost var m3 := St();
      assert m3 == ClearLabel(m2, n) && Cleared(y, n) == x;
      SteadyTrans(m0, m2, m3, 0, 0);
      if delRange {
        UserNot(m2, n, m3.ranges[n]);
        RangeOfUser(m3, n);
        DelRange(n, x);
        SlabPages(m0, m3, St(), x, n, if FollowedByFree(m3, n) then 1 else 0);
        SteadySlabs(m3, St(), if FollowedByFree(m3, n) then 1 else 0, s);
        SteadyZero(m3, St());
        SteadyTrans(m0, m3, St(), 0, 0);
      }
    }

    /** sos_kmem_cache_free. */
    method CacheFree(vaddr: Ptr, ghost x: Flight) returns (ret: Ret)
      requires Inv(St(), x) && Settled(x) && MayFree(St(), x, vaddr)
      requires vaddr in home || NotFreeObject(St(), vaddr)
      requires forall n :: n in x.dangling && n in ranges ==> !Covers(ranges[n], PageOf(vaddr))
      modifies this
      ensures grown == old(grown) && refused == old(refused)
      ensures vaddr !in old(home) ==> ret == Refused(old(St()), vaddr) && St() == old(St())
      ensures vaddr in old(home) ==> ret == OK && FreedKeeps(old(St()), St(), x, vaddr)
      ensures vaddr in old(home) ==> PushedOnly(old(St()), St(), vaddr) && SlabSettled(old(St()), St(), vaddr)
      ensures old(Internal(St(), vaddr)) ==> UserCaches(caches) == old(UserCaches(caches))
      ensures UserRanges(St()) == old(UserRanges(St())) && UserObjects(St()) == old(UserObjects(St())) - {vaddr}
      ensures Steady(old(St()), St(), if AllocatedFrom(old(St()), RANGE_CACHE, vaddr) then 1 else 0)
      decreases if vaddr in home && IsOffSlab(St(), home[vaddr]) then 7 else 5
    {
      hide RangesOk, MappedOk, SlabsOk, HomeOk, SlabRangesOk, LinksOk, UserRanges, UserObjects, UserCaches, IsObject,
        Covers, Steady, PagesFree, SlabSettled;
      ghost var m0 := St();
      if vaddr in home { HomeTested(m0, x, vaddr); } else { NotTested(m0, x, vaddr); }
      hide Tested;
      var r, empty := FreeObject(vaddr, x);
      ret := r;
      if ret != OK {
        NotUser(m0, vaddr);
        SteadySelf(m0);
        return;
      }
      HomeRange(m0, x, vaddr);
      PushKeeps(m0, x, vaddr);
      PushShape(m0, m0.home[vaddr], vaddr);
      ghost var m1 := St();
      if empty.Some? {
        if Internal(m0, vaddr) { RemoveInternal(m1, empty.value); }
        CacheReleaseSlab(empty.value, true, Unhold(x, m0.slabs[m0.home[vaddr]].cache, vaddr));
        SteadyTrans(m0, m1, St(), if AllocatedFrom(m0, RANGE_CACHE, vaddr) then 1 else 0, 0);
      }
      SettledNow(m0, x, St(), vaddr);
    }

    /**
     sos_kmem_cache_release_struct_range: gives a range structure back without freeing pages. If that
     empties a slab of ranges, the slab is removed and its range returned.
     */
    method ReleaseStructRange(r: Ptr, ghost x: Flight) returns (e: Option<Ptr>)
      requires Inv(St(), x) && r in x.heldRanges
      modifies this
      ensures grown == old(grown) && refused == old(refused)
      ensures Inv(St(), Unhold(x, RANGE_CACHE, r))
      ensures StructReleased(old(St()), St(), e)
      ensures Steady(old(St()), St(), 1) && UserCaches(caches) == old(UserCaches(caches))
      ensures e == if Goes(old(St()), r) then Some(old(slabs[home[r]].range)) else None
      decreases 1
    {
      hide RangesOk, MappedOk, SlabsOk, HomeOk, SlabRangesOk, LinksOk, UserRanges, UserObjects, UserCaches, IsObject,
        Covers, Steady, RemoveSlab, Goes;
      ghost var m0 := St();
      HeldDescriptor(m0, x, r);
      GoesExactly(m0, x, r);
      DanglingElsewhere(m0, x, r);
      HomeTested(m0, x, r);
      hide Tested;
      var ret, empty := FreeObject(r, x);
      HomeRange(m0, x, r);
      PushKeeps(m0, x, r);
      PushShape(m0, m0.home[r], r);
      NotUser(m0, r);
      ghost var m1 := St();
      ghost var y := Unhold(x, RANGE_CACHE, r);
      hide PushObject;
      e := None;
      if empty.Some? {
        var s := empty.value;
        var n := slabs[s].range;
        InternalCaches(m1);
        RemoveKeeps(m1, y, s);
        RemoveShape(m1, y, s);
        CacheReleaseSlab(s, false, y);
        ghost var m2 := RemoveSlab(m1, s);
        ghost var z := y.(dangling := y.dangling + {n});
        ClearKeeps(m2, z, n);
        ClearShape(m2, n);
        assert Cleared(z, n) == y;
        UserNot(m2, n, ranges[n]);
        SteadyTrans(m0, m1, St(), 1, 0);
        e := Some(n);
      }
    }

    // -------------------------------------------------------------- freeing ranges

    /**
     One merge of sos_kmem_vmm_del_range: the free range at position `i` absorbs the next one, whose
     structure is given back. If that empties a slab of ranges, the slab's own range leaves the used list.
     */
    method Absorb(i: nat, ghost x: Flight) returns (e: Option<Ptr>)
      requires Inv(St(), x) && MergeOk(St(), i)
      modifies this
      ensures grown == old(grown) && refused == old(refused)
      ensures Absorbed(old(St()), St(), x, i, e)
      ensures SameUser(old(St()), St()) && UserCaches(caches) == old(UserCaches(caches))
      ensures Steady(old(St()), St(), 1)
      ensures |usedList| + |Waiters(e)| == |old(usedList)|
      decreases 2, 0
    {
      hide RangesOk, MappedOk, SlabsOk, HomeOk, SlabRangesOk, LinksOk, UserRanges, UserObjects, UserCaches, Steady,
        RemoveAt, Merge, MergeOk;
      ghost var m0 := St();
      MergeKeeps(m0, x, i);
      MergeSteady(m0, i);
      MergeIndices(m0, i);
      var q := freeList[i + 1];
      ghost var y := KmemFreeSteps.Merged(x, freeList[i], q);
      MergeFree(i);
      ghost var m1 := St();
      e := ReleaseStructRange(q, y);
      ghost var m2 := St();
      ghost var z := Unhold(y, RANGE_CACHE, q);
      SteadyTrans(m0, m1, m2, 0, 1);
      if e.Some? {
        ReleasedWaits(m1, m2, y, z, e.value);
        ghost var j := UnlinkUsed(e.value);
        UnlinkKeeps(m2, z, j);
        SteadySame(m2, St());
        SteadyTrans(m0, m2, St(), 1, 0);
      }
      AbsorbDone(m0, m2, St(), x, i, e);
    }

    /** The list part of a merge: the range at `i` grows, the next one leaves the free list. */
    method MergeFree(i: nat)
      requires MergeOk(St(), i)
      modifies this
      ensures grown == old(grown) && refused == old(refused)
      ensures MergeOk(old(St()), i) && St() == Merge(old(St()), i)
    {
      var r := freeList[i];
      var q := freeList[i + 1];
      ranges := ranges[r := ranges[r].(npages := ranges[r].npages + ranges[q].npages)];
      freeList := RemoveAt(freeList, i + 1);
      ranges := ranges - {q};
      tile := map p | p in tile :: if tile[p] == q then r else tile[p];
    }

    /** list_delete on the used list. */
    method UnlinkUsed(r: Ptr) returns (ghost j: nat)
      requires r in usedList
      modifies this
      ensures grown == old(grown) && refused == old(refused)
      ensures j < |old(usedList)| && old(usedList)[j] == r && St() == Unlink(old(St()), j)
      ensures |usedList| == |old(usedList)| - 1
    {
      var k := Position(usedList, r);
      RemoveFacts(usedList, k);
      usedList := RemoveAt(usedList, k);
      j := k;
    }

    /** Position of an element of a list. */
    method Position(l: seq<Ptr>, e: Ptr) returns (j: nat)
      requires e in l
      ensures j < |l| && l[j] == e
    {
      j := 0;
      while l[j] != e
        invariant j < |l| && e in l[j..]
        decreases |l| - j
      {
        j := j + 1;
      }
    }

    /** The start of a round of sos_kmem_vmm_del_range: the range joins the free list and its pages are unmapped. */
    method InsertFree(range: Ptr, ghost x: Flight) returns (k: nat)
      requires Inv(St(), x) && Settled(x.(pending := {})) && range in x.pending
      modifies this
      ensures grown == old(grown) && refused == old(refused)
      ensures range in old(ranges) && k <= |old(freeList)| && St() == Release(old(St()), range, k)
      ensures Inv(St(), Released(x, range)) && SameUser(old(St()), St()) && caches == old(caches)
      ensures PagesFree(St(), old(ranges[range]))
    {
      hide MappedOk, SlabsOk, HomeOk, SlabRangesOk, LinksOk, UserRanges, UserObjects, UserCaches, RangesOk, InsertAt,
        PagesFree;
      ghost var m0 := St();
      FreeFacts(m0, x);
      PendingFacts(m0, x, range);
      k := ClosestPreceding(freeList, ranges[range].base);
      ReleaseKeeps(m0, x, range, k);
      ReleasedPages(m0, x, range, k);
      hide Inv, IsPosition, Release, Released;
      freeList := InsertAt(freeList, k, range);
      UnmapPages(ranges[range].base, ranges[range].npages);
      assert St() == Release(m0, range, k) by { hide InsertAt, UnmapAll, WithoutPages; }
    }

    /** sos_paging_unmap on each page of [base, base + n). */
    method UnmapPages(base: int, n: nat)
      modifies `frameOf, `rangeOf, `mapped
      ensures Pages(frameOf, rangeOf) == UnmapAll(old(Pages(frameOf, rangeOf)), base, n)
      ensures mapped == WithoutPages(old(mapped), base, base + n)
    {
      var i := 0;
      while i < n
        invariant 0 <= i <= n
        invariant Pages(frameOf, rangeOf) == UnmapAll(old(Pages(frameOf, rangeOf)), base, i)
        invariant mapped == WithoutPages(old(mapped), base, base + i)
      {
        UnmapPage(base + i);
        mapped := mapped - {base + i};
        i := i + 1;
      }
    }

    /**
     What sos_paging_unmap changes for this code: the page is gone, the table with it if it was its last one, and the
     physical page, which is free now, has no owner any more.
     */
    method UnmapPage(p: int)
      modifies `frameOf, `rangeOf
      ensures Pages(frameOf, rangeOf) == UnmapOne(old(Pages(frameOf, rangeOf)), p)
    {
      if p !in frameOf { return; }
      var f := frameOf[p];
      var last := LastOfTable(frameOf, p);
      rangeOf := rangeOf - {f};
      frameOf := frameOf - {p};
      frameOf := frameOf - (if last then {MirrorPage(p)} else {});
    }

    /** Merges the range at position `k` of the free list with the one before it, if they are contiguous. */
    method CoalescePrev(k: nat, ghost x: Flight) returns (at: nat, e: Option<Ptr>)
      requires Inv(St(), x) && k < |freeList| && freeList[k] in ranges && 1 <= ranges[freeList[k]].npages
      requires x.touchPrev == {freeList[k]} && x.touchNext == {freeList[k]}
      modifies this
      ensures grown == old(grown) && refused == old(refused)
      ensures at < |freeList| && freeList[at] in ranges && 1 <= ranges[freeList[at]].npages
      ensures Inv(St(), x.(pending := x.pending + Waiters(e), touchPrev := {}, touchNext := {freeList[at]}))
      ensures e.Some? ==> e.value !in x.pending
      ensures SameUser(old(St()), St()) && Steady(old(St()), St(), 0)
      ensures UserCaches(caches) == old(UserCaches(caches))
      ensures |usedList| + |Waiters(e)| == |old(usedList)|
      ensures FollowedByFree(old(St()), old(freeList)[k]) ==> FollowedByFree(St(), freeList[at])
      decreases 2, 1
    {
      hide MappedOk, SlabsOk, HomeOk, SlabRangesOk, LinksOk, UserRanges, UserObjects, UserCaches, RangesOk, Steady;
      ghost var m0 := St();
      FreeFacts(m0, x);
      FirstIsLowest(m0, x, k);
      var range := freeList[k];
      var prev := if k == 0 then freeList[|freeList| - 1] else freeList[k - 1];
      if End(ranges[prev]) == ranges[range].base {
        FreeDistinct(m0, x, k - 1);
        e := Absorb(k - 1, x);
        at := k - 1;
        AbsorbedPrev(m0, St(), x, k - 1, e);
        SteadyWeaken(m0, St());
      } else {
        SkipPrev(m0, x, k);
        at, e := k, None;
        assert x.pending + Waiters(e) == x.pending;
        SteadySelf(m0);
      }
    }

    /** Merges the range at position `at` of the free list with the next one, if they are contiguous. */
    method CoalesceNext(at: nat, ghost x: Flight) returns (e: Option<Ptr>)
      requires Inv(St(), x) && at < |freeList| && freeList[at] in ranges && 1 <= ranges[freeList[at]].npages
      requires x.touchPrev == {} && x.touchNext == {freeList[at]}
      modifies this
      ensures grown == old(grown) && refused == old(refused)
      ensures Inv(St(), x.(pending := x.pending + Waiters(e), touchNext := {}))
      ensures e.Some? ==> e.value !in x.pending
      ensures SameUser(old(St()), St()) && UserCaches(caches) == old(UserCaches(caches))
      ensures Steady(old(St()), St(), if FollowedByFree(old(St()), old(freeList)[at]) then 1 else 0)
      ensures |usedList| + |Waiters(e)| == |old(usedList)|
      decreases 2, 1
    {
      hide MappedOk, SlabsOk, HomeOk, SlabRangesOk, LinksOk, UserRanges, UserObjects, UserCaches, RangesOk, Steady;
      ghost var m0 := St();
      FreeFacts(m0, x);
      LastIsHighest(m0, x, at);
      var range := freeList[at];
      var next := if at + 1 == |freeList| then freeList[0] else freeList[at + 1];
      if End(ranges[range]) == ranges[next].base {
        FreeDistinct(m0, x, at);
        e := Absorb(at, x);
        AbsorbedNext(m0, St(), x, at, e);
        SteadyWeaken(m0, St());
      } else {
        if FollowedByFree(m0, range) { NextTouches(m0, x, at); }
        SkipNext(m0, x, at);
        e := None;
        assert x.pending + Waiters(e) == x.pending;
        SteadySelf(m0);
      }
    }

    /** One round of the do/while loop of sos_kmem_vmm_del_range. */
    method FreeRound(range: Ptr, ghost x: Flight) returns (e: Option<Ptr>, g: Option<Ptr>)
      requires Inv(St(), x) && Settled(x.(pending := {})) && range in x.pending
      modifies this
      ensures grown == old(grown) && refused == old(refused)
      ensures Inv(St(), x.(pending := x.pending - {range} + Waiters(e) + Waiters(g)))
      ensures NewWaiters(x.pending - {range}, e, g)
      ensures SameUser(old(St()), St()) && UserCaches(caches) == old(UserCaches(caches))
      ensures Steady(old(St()), St(), if FollowedByFree(old(St()), range) then 1 else 0)
      ensures |usedList| + |Waiters(e)| + |Waiters(g)| == |old(usedList)|
      ensures range in old(ranges) && PagesFree(St(), old(ranges[range]))
      decreases 2, 2
    {
      hide Inv, UserRanges, UserObjects, UserCaches, Steady, FollowedByFree, PagesFree;
      ghost var m0 := St();
      var k := InsertFree(range, x);
      ghost var m1 := St();
      InsertedRange(m0, x, range, k);
      var at, e0 := CoalescePrev(k, Released(x, range));
      ghost var m2 := St();
      e := e0;
      ghost var y := x.(pending := x.pending - {range} + Waiters(e), touchPrev := {}, touchNext := {freeList[at]});
      assert y == Released(x, range).(pending := Released(x, range).pending + Waiters(e), touchPrev := {},
        touchNext := {freeList[at]});
      ghost var freeList0 := freeList;
      g := CoalesceNext(at, y);
      assert y.(pending := y.pending + Waiters(g), touchNext := {})
        == x.(pending := x.pending - {range} + Waiters(e) + Waiters(g));
      SteadyPages(m1, m2, 0, m0.ranges[range]);
      SteadyPages(m2, St(), if FollowedByFree(m2, freeList0[at]) then 1 else 0, m0.ranges[range]);
      SteadyTrans(m0, m1, m2, 0, 0);
      SteadyTrans(m0, m2, St(), 0, if FollowedByFree(m0, range) then 1 else 0) by {
        if !FollowedByFree(m0, range) { SteadyZero(m2, St()); }
      }
    }

    /** sos_kmem_vmm_del_range. `toFree` is ranges_to_free. */
    method DelRange(range: Ptr, ghost x: Flight)
      requires Inv(St(), x) && Settled(x) && range in UserRanges(St()) && range !in x.kept
      modifies this
      ensures grown == old(grown) && refused == old(refused)
      ensures Inv(St(), x)
      ensures UserRanges(St()) == old(UserRanges(St())) - {range} && UserObjects(St()) == old(UserObjects(St()))
      ensures UserCaches(caches) == old(UserCaches(caches))
      ensures Steady(old(St()), St(), if FollowedByFree(old(St()), range) then 1 else 0)
      ensures range in old(ranges) && PagesFree(St(), old(ranges[range]))
      decreases 3
    {
      hide Inv, UserObjects, UserCaches, Steady, Unlink, FollowedByFree, PagesFree, Queue, KmemState.NoDup, Elems;
      ghost var m0 := St();
      ElemsOfNone();
      ghost var j := UnlinkUsed(range);
      UnlinkKeeps(m0, x, j);
      UnlinkShape(m0, j);
      ghost var m1 := St();
      ghost var d := if FollowedByFree(m0, range) then 1 else 0;
      hide UserRanges;
      var toFree: seq<Ptr> := [];
      var cur := Some(range);
      ghost var first := true;
      assert x.(pending := Elems(toFree) + Waiters(cur)) == Waiting(x, range);
      while cur.Some?
        invariant Inv(St(), x.(pending := Elems(toFree) + Waiters(cur)))
        invariant NoDup(toFree) && (cur.Some? ==> cur.value !in Elems(toFree)) && (cur.None? ==> toFree == [])
        invariant SameUser(m1, St()) && grown == old(grown) && refused == old(refused)
        invariant UserCaches(caches) == UserCaches(m1.caches)
        invariant if first then St() == m1 && cur == Some(range)
          else Steady(m0, St(), d) && range in m0.ranges && PagesFree(St(), m0.ranges[range])
        decreases |usedList| + |toFree| + |Waiters(cur)|
      {
        ghost var m2 := St();
        ghost var y := x.(pending := Elems(toFree) + Waiters(cur));
        var e, g := FreeRound(cur.value, y);
        assert y.pending - {cur.value} == Elems(toFree);
        QueueElems(toFree, e, g);
        SteadyRound(m0, m2, St(), first, d, if FollowedByFree(m2, cur.value) then 1 else 0);
        if !first { SteadyPages(m2, St(), if FollowedByFree(m2, cur.value) then 1 else 0, m0.ranges[range]); }
        first := false;
        toFree := Queue(toFree, e, g);
        NextToFree(toFree);
        if toFree == [] {
          cur := None;
        } else {
          cur := Some(toFree[0]);
          toFree := toFree[1..];
        }
      }
      assert x.(pending := Elems(toFree) + Waiters(cur)) == x;
    }

    // -------------------------------------------------------------- allocating ranges

    /** The exact-fit branch of sos_kmem_vmm_new_range. */
    method TakeExact(k: nat, ghost x: Flight) returns (n: Ptr)
      requires Inv(St(), x) && k < |freeList| && freeList[k] in ranges && 1 <= ranges[freeList[k]].npages
      modifies this
      ensures grown == old(grown) && refused == old(refused)
      ensures Inv(St(), x) && SameDims(old(St()), St())
      ensures UserObjects(St()) == old(UserObjects(St())) && Reserve(St()) == old(Reserve(St()))
      ensures n == old(freeList[k]) && Given(old(St()), St(), n, old(ranges[freeList[k]].npages)) && Bare(St(), n)
      ensures caches == old(caches)
      ensures n in ranges && ranges[n].base == old(ranges[freeList[k]].base)
      ensures old(ranges[freeList[k]].npages) == 1 ==> KeepsFree(old(St()), St())
      ensures Leaves(old(St()), St(), old(ranges[freeList[k]].npages))
      ensures n !in x.kept
    {
      hide Inv, UserRanges, UserObjects, UserCaches, SameDims, KeepsFree, Leaves;
      ghost var m0 := St();
      InvFacts(m0, x);
      var j := ClosestPreceding(usedList, ranges[freeList[k]].base);
      TakeWholeKeeps(m0, x, k, j);
      TakenWhole(m0, x, k, j);
      TakenLeaves(m0, x, k, j);
      n := freeList[k];
      freeList := RemoveAt(freeList, k);
      usedList := InsertAt(usedList, j, n);
      ranges := ranges[n := ranges[n].(slab := None)];
      assert St() == TakeWhole(m0, k, j);
      FreeBare(m0, x, n);
      PartBare(m0, St(), n, n);
    }

    /** The splitting branch of sos_kmem_vmm_new_range, once the new descriptor `a` is allocated. */
    method SplitFree(f: Ptr, a: Ptr, nb: int, ghost x: Flight)
      requires Inv(St(), Hold(x, RANGE_CACHE, a)) && a !in x.heldRanges && Calm(x)
      requires f in freeList && f in ranges && 1 <= nb <= ranges[f].npages
      modifies this
      ensures grown == old(grown) && refused == old(refused)
      ensures Inv(St(), x) && SameDims(old(St()), St())
      ensures UserObjects(St()) == old(UserObjects(St())) && Reserve(St()) == old(Reserve(St()))
      ensures Given(old(St()), St(), a, nb) && FollowedByFree(St(), a) && a !in x.kept && caches == old(caches)
      ensures a in ranges && Bare(St(), a)
      ensures a in ranges && ranges[a].base == old(ranges[f].base)
      ensures nb == 1 ==> KeepsFree(old(St()), St())
      ensures Leaves(old(St()), St(), nb)
    {
      hide Inv, UserRanges, UserObjects, UserCaches, SameDims, FollowedByFree, KeepsFree, Bare, Leaves;
      ghost var m := St();
      ghost var y := Hold(x, RANGE_CACHE, a);
      InvFacts(m, y);
      InvLinks(m, y);
      var j := ClosestPreceding(usedList, ranges[f].base);
      ghost var i :| 0 <= i < |freeList| && freeList[i] == f;
      SplitKeeps(m, y, i, a, nb, j);
      SplitDone(m, x, i, a, nb, j);
      SplitLeaves(m, y, i, a, nb, j);
      var b := ranges[f].base;
      ranges := ranges[a := Range(b, nb, None)];
      ranges := ranges[f := ranges[f].(base := b + nb, npages := ranges[f].npages - nb)];
      usedList := InsertAt(usedList, j, a);
      tile := Retile(tile, b, b + nb, a);
      assert St() == Split(m, i, a, nb, j);
      assert Filled(y, a) == x;
      FreeBare(m, y, f);
      PartBare(m, St(), f, a);
    }

    /** The splitting branch of sos_kmem_vmm_new_range, for the free range at position `k`. */
    method TakePart(k: nat, nb: int, ghost x: Flight) returns (r: Option<Ptr>)
      requires Inv(St(), x) && Calm(x) && 1 <= Reserve(St()) && 1 <= nb
      requires k < |freeList| && freeList[k] in ranges && nb < ranges[freeList[k]].npages
      modifies this
      ensures Inv(St(), x) && SameDims(old(St()), St())
      ensures UserObjects(St()) == old(UserObjects(St())) && UserCaches(caches) == old(UserCaches(caches))
      ensures r.None? ==> UserRanges(St()) == old(UserRanges(St()))
      ensures r.Some? ==> Given(old(St()), St(), r.value, nb) && r.value !in x.kept && Bare(St(), r.value)
      ensures old(Reserve(St())) >= 2 ==> Reserve(St()) >= 2
      ensures old(Reserve(St())) == 1 ==> Reserve(St()) == 1 || (r.Some? && FollowedByFree(St(), r.value))
      ensures Reserve(St()) >= 0
      ensures old(Reserve(St())) == 1 && nb == 1 && r.Some? ==> KeepsFree(old(St()), St())
      ensures old(Reserve(St())) >= 3 ==>
        r.Some? && r.value in ranges && ranges[r.value].base == old(ranges[freeList[k]].base)
      ensures OneGrowth(old(grown), grown, old(Reserve(St())), Reserve(St()), r.Some?, 3, 1)
      ensures old(Reserve(St())) == 1 ==> grown == old(grown)
      ensures old(refused) <= refused && (r.Some? <==> refused == old(refused))
      ensures refused > old(refused) ==> old(Reserve(St())) == 2
      ensures r.Some? ==> Leaves(old(St()), St(), nb + if old(Reserve(St())) == 2 then 1 else 0)
      ensures old(Reserve(St())) == 2 ==> grown == old(grown) + if r.Some? then 1 else 0
      decreases 0, Reserve(St()), 3
    {
      hide Inv, UserRanges, UserObjects, UserCaches, SameDims, FollowedByFree, KeepsFree, Leaves, HasFree, Lacks,
        MinFree, Bare;
      ghost var m0 := St();
      InvFacts(m0, x);
      GrowFacts(m0, x, RANGE_CACHE);
      InternalMin(m0, x);
      var f := freeList[k];
      NoDescriptor(m0, f, nb);
      var a, fault := CacheAlloc(RANGE_CACHE, x);
      if a.None? { return None; }
      ghost var m1 := St();
      DescriptorLeaves(m0, m1);
      StillFree(m0, m1, f, nb);
      SplitFree(f, a.value, nb, x);
      LeavesTrans(m0, m1, St(), if Reserve(m0) == 2 then 1 else 0, nb);
      SameDimsTrans(m0, m1, St());
      GivenShift(m0, m1, St(), a.value, nb);
      if m1.ranges == m0.ranges && m1.freeList == m0.freeList && nb == 1 { KeepsFreeShift(m0, m1, St()); }
      return Some(a.value);
    }

    /** The part of sos_kmem_vmm_new_range that finds the pages, before any of them is mapped. */
    method TakeRange(nb: int, ghost x: Flight) returns (r: Option<Ptr>)
      requires Inv(St(), x) && Calm(x) && 1 <= Reserve(St()) && 1 <= nb
      modifies this
      ensures Inv(St(), x) && SameDims(old(St()), St())
      ensures UserObjects(St()) == old(UserObjects(St())) && UserCaches(caches) == old(UserCaches(caches))
      ensures r.None? ==> UserRanges(St()) == old(UserRanges(St()))
      ensures r.Some? ==> Given(old(St()), St(), r.value, nb) && r.value !in x.kept && Bare(St(), r.value)
      ensures old(Reserve(St())) >= 2 ==> Reserve(St()) >= 2
      ensures old(Reserve(St())) == 1 ==> Reserve(St()) == 1 || (r.Some? && FollowedByFree(St(), r.value))
      ensures Reserve(St()) >= 0
      ensures old(Reserve(St())) == 1 && nb == 1 && r.Some? ==> KeepsFree(old(St()), St())
      ensures old(Reserve(St())) >= 3 ==> FirstFit(old(St()), St(), nb, r)
      ensures OneGrowth(old(grown), grown, old(Reserve(St())), Reserve(St()), r.Some?, 3, 1)
      ensures old(Reserve(St())) == 1 ==> grown == old(grown)
      ensures old(refused) <= refused && (r.Some? <==> HasFree(old(St()), nb) && refused == old(refused))
      ensures refused > old(refused) ==> old(Reserve(St())) == 2
      ensures r.Some? ==> Leaves(old(St()), St(), nb + if old(Reserve(St())) == 2 then 1 else 0)
      ensures old(Reserve(St())) == 2 && r.Some? ==> grown == old(grown) + if ExactFit(old(St()), nb) then 0 else 1
      ensures r.None? ==> grown == old(grown)
      decreases 0, Reserve(St()), 4
    {
      hide Inv, UserRanges, UserObjects, UserCaches, SameDims, FollowedByFree, KeepsFree, Leaves, HasFree, ExactFit,
        Bare, Given;
      ghost var m0 := St();
      InvFacts(m0, x);
      SameDimsSelf(m0);
      var k := FindSuitable(nb);
      Suitable(m0, k, nb);
      if k.None? { return None; }
      var f := freeList[k.value];
      assert IsFirstFit(m0, nb, k.value);
      TheFit(m0, nb, k.value);
      if ranges[f].npages == nb {
        var n := TakeExact(k.value, x);
        LeavesMore(m0, St(), nb, nb + 1);
        r := Some(n);
      } else {
        r := TakePart(k.value, nb, x);
      }
    }

    /** sos_kmem_vmm_new_range. `wantMap` is SOS_KMEM_VMM_MAP. */
    method NewRange(nb: int, wantMap: bool, ghost x: Flight) returns (r: Option<Ptr>)
      requires Inv(St(), x) && Calm(x) && 1 <= Reserve(St())
      modifies this
      ensures Inv(St(), x) && SameDims(old(St()), St())
      ensures UserObjects(St()) == old(UserObjects(St())) && UserCaches(caches) == old(UserCaches(caches))
      ensures r.None? ==> UserRanges(St()) == old(UserRanges(St()))
      ensures r.Some? ==> 1 <= nb && Given(old(St()), St(), r.value, nb) && r.value !in x.kept
      ensures r.Some? ==> if wantMap then AllMapped(St(), r.value) else Bare(St(), r.value)
      ensures old(Reserve(St())) >= 2 ==> Reserve(St()) >= 2
      ensures old(Reserve(St())) == 1 && r.None? ==> Reserve(St()) >= 1
      ensures old(Reserve(St())) == 1 ==> Reserve(St()) >= 0
      ensures old(Reserve(St())) == 1 && nb == 1 && r.Some? ==> KeepsFree(old(St()), St())
      ensures old(Reserve(St())) >= 3 && nb >= 1 && (r.Some? || !wantMap) ==> FirstFit(old(St()), St(), nb, r)
      ensures OneGrowth(old(grown), grown, old(Reserve(St())), Reserve(St()), r.Some?, 3, 1)
      ensures old(Reserve(St())) == 1 ==> grown == old(grown)
      ensures old(refused) <= refused && (r.Some? <==> 1 <= nb && HasFree(old(St()), nb) && refused == old(refused))
      ensures refused > old(refused) ==> wantMap || old(Reserve(St())) == 2
      ensures r.Some? ==> Leaves(old(St()), St(), nb + if old(Reserve(St())) == 2 then 1 else 0)
      ensures old(Reserve(St())) == 2 && r.Some? ==> grown == old(grown) + if ExactFit(old(St()), nb) then 0 else 1
      ensures r.None? && !wantMap ==> grown == old(grown)
      decreases 0, Reserve(St()), 5
    {
      hide Inv, UserRanges, UserObjects, UserCaches, SameDims, FollowedByFree, KeepsFree, AllMapped, Leaves, HasFree,
        ExactFit;
      ghost var m0 := St();
      if nb <= 0 { SameDimsSelf(m0); return None; }
      r := TakeRange(nb, x);
      if r.None? || !wantMap { return; }
      ghost var m1 := St();
      var ok;
      ghost var taken;
      ok, taken := MapRange(r.value, x);
      if ok && Reserve(m0) >= 3 { FirstFitFrame(m0, m1, St(), nb, r); }
      SameDimsTrans(m0, m1, St());
      if ok { LeavesSame(m0, m1, St(), nb + if Reserve(m0) == 2 then 1 else 0); }
      if !ok {
        GivenBack(m0, m1, St(), r.value, nb);
        r := None;
      } else if nb == 1 {
        KeepsFreeSame(m0, m1, St());
      }
    }

    /**
     sos_physmem_ref_physpage_new: a physical page that nothing maps and nobody references, without owner; or none, if
     there is none left. `taken` is a page that is referenced, though nothing maps it yet.
     */
    method NewFrame(taken: Option<Frame>) returns (f: Option<Frame>)
      modifies `rangeOf, `refused
      ensures refused == old(refused) + if f.None? then 1 else 0
      ensures f.Some? ==> IsFresh(Pages(frameOf, rangeOf), f.value) && f != taken && rangeOf == old(rangeOf) - {f.value}
      ensures f.None? ==> rangeOf == old(rangeOf)
    {
      var any: Frame := *;
      if any == 0 || any in frameOf.Values || taken == Some(any) {
        refused := refused + 1;
        return None;
      }
      rangeOf := rangeOf - {any};
      f := Some(any);
    }

    /** What sos_paging_map changes for this code: page `p` is there, its table too, and a page it replaces is free. */
    method MapFrame(p: int, f: Frame, n: Ptr, t: Option<Frame>)
      requires t.Some? ==> t.value !in rangeOf
      modifies `frameOf, `rangeOf
      ensures Pages(frameOf, rangeOf) == WithPage(old(Pages(frameOf, rangeOf)), p, n, f, t)
    {
      if p in frameOf { rangeOf := rangeOf - {frameOf[p]}; }
      if t.Some? { frameOf := frameOf[MirrorPage(p) := t.value]; }
      frameOf := frameOf[p := f];
      rangeOf := rangeOf[f := n];
    }

    /**
     The physical pages that mapping page `p` takes: one to map, and one for its table if there is none. None if there
     are too few.
     */
    method NewFrames(p: int, ghost x: Flight) returns (f: Option<Frame>, t: Option<Frame>)
      requires Inv(St(), x)
      modifies `rangeOf, `refused
      ensures Inv(St(), x) && SameUser(old(St()), St()) && refused == old(refused) + if f.None? then 1 else 0
      ensures St() == old(St()).(pages := Pages(frameOf, rangeOf))
      ensures f.Some? ==> IsFresh(St().pages, f.value) && TableReady(St().pages, p, f.value, t)
      ensures f.Some? ==>
        rangeOf == if t.Some? then old(rangeOf) - {f.value} - {t.value} else old(rangeOf) - {f.value}
    {
      hide Inv, UserRanges, UserObjects, MirrorPage;
      ghost var m0 := St();
      t := None;
      f := NewFrame(None);
      if f.None? { return; }
      DropStale(m0, x, f.value);
      if MirrorPage(p) !in frameOf {
        ghost var m1 := St();
        t := NewFrame(f);
        if t.None? { return None, None; }
        DropStale(m1, x, t.value);
      }
    }

    /**
     The body of the mapping loop of sos_kmem_vmm_new_range: a new physical page is mapped at page `p`, through a new
     table if there is none, and told its owner. It fails for want of a physical page or of a page for the table.
     */
    method MapOne(p: int, n: Ptr, ghost x: Flight) returns (ok: bool, ghost last: Taken)
      requires Inv(St(), x) && n in ranges && n !in freeList && Covers(ranges[n], p) && n !in x.kept
      modifies `frameOf, `rangeOf, `mapped, `refused
      ensures refused == old(refused) + if ok then 0 else 1
      ensures Inv(St(), x) && SameUser(old(St()), St())
      ensures St() == old(St()).(mapped := mapped, pages := Pages(frameOf, rangeOf))
      ensures mapped == if ok then old(mapped)[p := n] else old(mapped)
      ensures ok ==> NewPage(old(St()).pages, Pages(frameOf, rangeOf), p, n, last.page, last.table)
      ensures !ok ==> frameOf == old(frameOf)
    {
      hide Inv, UserRanges, UserObjects, UserCaches, Covers, WithPage, NewPage;
      ghost var m0 := St();
      var f, t := NewFrames(p, x);
      last := Taken(0, None);
      if f.None? { return false, last; }
      ghost var m2 := St();
      last := Taken(f.value, t);
      NewPageStale(m0.pages, m2.pages, p, n, f.value, t);
      MapKeeps(m2, x, p, n, f.value, t);
      MapFrame(p, f.value, n, t);
      mapped := mapped[p := n];
      assert St() == MapPage(m2, p, n, f.value, t);
      ok := true;
    }

    /**
     The mapping loop of sos_kmem_vmm_new_range. When a page cannot be mapped, the whole range is deleted. `taken` are
     the physical pages it took.
     */
    method MapRange(n: Ptr, ghost x: Flight) returns (ok: bool, ghost taken: seq<Taken>)
      requires Inv(St(), x) && Settled(x) && n in UserRanges(St()) && n !in x.kept && n in ranges
      modifies this
      ensures grown == old(grown) && refused == old(refused) + if ok then 0 else 1
      ensures Inv(St(), x) && SameDims(old(St()), St()) && UserCaches(caches) == old(UserCaches(caches))
      ensures ok ==> n in ranges && AllMapped(St(), n) && SameUser(old(St()), St())
      ensures ok ==> St() == old(St()).(mapped := mapped, pages := Pages(frameOf, rangeOf))
      ensures ok ==> n in ranges && |taken| == ranges[n].npages
      ensures ok ==> NewPages(old(St()).pages, St().pages, ranges[n].base, taken, n)
      ensures !ok ==> UserRanges(St()) == old(UserRanges(St())) - {n} && UserObjects(St()) == old(UserObjects(St()))
      ensures !ok ==> ReserveGrew(old(St()), St(), if FollowedByFree(old(St()), n) then 1 else 0)
    {
      hide Inv, UserRanges, UserObjects, UserCaches, SameDims, FollowedByFree, NewPage, NewPages;
      ghost var m0 := St();
      var i := 0;
      taken := [];
      NoPages(m0.pages, ranges[n].base, n);
      UserRangeFacts(m0, x, n);
      SameDimsSelf(m0);
      while i < ranges[n].npages
        invariant n in ranges && 0 <= i <= ranges[n].npages
        invariant St() == m0.(mapped := mapped, pages := Pages(frameOf, rangeOf)) && Inv(St(), x) && SameUser(m0, St())
        invariant forall p :: ranges[n].base <= p < ranges[n].base + i ==> p in mapped
        invariant grown == old(grown) && refused == old(refused)
        invariant |taken| == i && NewPages(m0.pages, St().pages, ranges[n].base, taken, n)
      {
        ghost var m1 := St();
        var one;
        ghost var last;
        one, last := MapOne(ranges[n].base + i, n, x);
        SameDimsFrame(m0, St());
        if !one {
          ghost var m2 := St();
          FollowedFrame(m0, m2, n);
          DelRange(n, x);
          SteadyFacts(m2, St(), if FollowedByFree(m2, n) then 1 else 0);
          SameDimsTrans(m0, m2, St());
          return false, taken;
        }
        NewPagesStep(m0.pages, m1.pages, St().pages, ranges[n].base, taken, n, last);
        taken := taken + [last];
        i := i + 1;
      }
      SameDimsFrame(m0, St());
      ok := true;
    }

    // -------------------------------------------------------------- allocating objects

    /** The loop of cache_add_slab: the addresses of the objects of a slab, in order. */
    method BuildFreeList(k: Cache, first: Ptr) returns (f: seq<Ptr>)
      requires GeometryOk(k)
      ensures FullFreeList(k, first, f)
      ensures forall i :: 0 <= i < |f| ==> f[i] == first + i * k.objSize
    {
      f := [];
      var i := 0;
      while i < k.nbObjects
        invariant 0 <= i <= k.nbObjects && |f| == i
        invariant forall j :: 0 <= j < i ==> f[j] == first + j * k.objSize
      {
        f := f + [first + i * k.objSize];
        i := i + 1;
      }
      FreeListFull(k, first, f);
    }

    /** The off-slab branch of cache_grow: a slab structure, or the range just obtained is deleted. */
    method NewStructure(c: CacheId, n: Ptr, ghost x: Flight) returns (s: Option<Ptr>)
      requires Inv(St(), x) && Calm(x) && c in caches && !caches[c].onSlab && 2 <= Reserve(St())
      requires n in UserRanges(St()) && n in ranges && n !in x.kept
      modifies this
      ensures SameDims(old(St()), St()) && UserObjects(St()) == old(UserObjects(St())) && Reserve(St()) >= 2
      ensures UserCaches(caches) == old(UserCaches(caches))
      ensures s.Some? ==> Inv(St(), Hold(x, KSLAB_CACHE, s.value)) && s.value !in x.heldSlabs
      ensures s.Some? ==> UserRanges(St()) == old(UserRanges(St()))
      ensures s.Some? ==> SamePages(old(St()), St(), n)
      ensures s.None? ==> Inv(St(), x) && UserRanges(St()) == old(UserRanges(St())) - {n}
      ensures OneGrowth(old(grown), grown, old(Reserve(St())), Reserve(St()), s.Some?, AllocNeed(KSLAB_CACHE),
        AllocUse(KSLAB_CACHE))
      ensures if s.Some? then refused == old(refused) else refused > old(refused) || Lacks(old(St()), KSLAB_CACHE)
      ensures old(refused) <= refused
      decreases Rank(KSLAB_CACHE), 1, 3
    {
      hide Inv, UserRanges, UserObjects, UserCaches, SameDims, FollowedByFree, KeepsFree, AllMapped, Lacks;
      ghost var m1 := St();
      ghost var z := x.(kept := x.kept[n := m1.mapped.Keys]);
      KeepMapped(m1, x, n);
      GrowFacts(m1, x, c);
      var fault;
      InternalMin(m1, z);
      s, fault := CacheAlloc(KSLAB_CACHE, z);
      ghost var m2 := St();
      UserRangesIn(m1, m2, n);
      if s.None? {
        DropMapped(m2, z, x);
        DelRange(n, x);
        SteadyFacts(m2, St(), if FollowedByFree(m2, n) then 1 else 0);
        SameDimsTrans(m1, m2, St());
        return;
      }
      StillMapped(m2, Hold(z, KSLAB_CACHE, s.value), n);
      DropMapped(m2, Hold(z, KSLAB_CACHE, s.value), Hold(x, KSLAB_CACHE, s.value));
    }

    /**
     The end of cache_grow: cache_add_slab and the links between the slab and its range. The first write to the slab is
     to its structure, if that is on it, or else to the first free object: the CPU takes a page fault exactly if the
     pages of the slab were not asked to be mapped.
     */
    method AddSlabOn(c: CacheId, n: Ptr, s: Ptr, ghost x: Flight, ghost y: Flight) returns (fault: bool)
      requires Inv(St(), y) && Calm(x) && SlabSite(St(), y, c, n, s) && (caches[c].createMap || Bare(St(), n))
      requires if caches[c].onSlab then y == x else y == Hold(x, KSLAB_CACHE, s) && s !in x.heldSlabs
      modifies this
      ensures fault <==> !old(caches[c].createMap)
      ensures fault ==> St() == old(St()) && grown == old(grown)
      ensures refused == old(refused)
      ensures !fault ==> Inv(St(), x) && SameDims(old(St()), St())
      ensures !fault ==>
        UserRanges(St()) == old(UserRanges(St())) - {n} && UserObjects(St()) == old(UserObjects(St()))
      ensures !fault ==> HeadNonFull(St(), c) && Grown(old(St()), St(), c)
      ensures !fault ==>
        Reserve(St()) == old(Reserve(St())) + (if c == RANGE_CACHE then old(caches[c].nbObjects) else 0)
      ensures c == RANGE_CACHE ==> old(caches[c].nbObjects) >= 2
      ensures !fault ==> forall m0 :: KeepsFree(m0, old(St())) ==> KeepsFree(m0, St())
      ensures !fault ==> grown == old(grown) + if c == RANGE_CACHE then 1 else 0
    {
      hide Inv, UserRanges, UserObjects, UserCaches, SameDims, KeepsFree, AllMapped, Bare;
      ghost var m2 := St();
      GrowFacts(m2, y, c);
      var first := ranges[n].base * PAGE_SIZE;
      FirstWrite(m2, y, c, n, s);
      if PageOf(if caches[c].onSlab then s else first) !in frameOf { return true; }
      var f := BuildFreeList(caches[c], first);
      AddKeeps(m2, y, c, n, s, f);
      AddShape(m2, x, y, c, n, s, f);
      slabs := slabs[s := Slab(|f|, f, n, first, c)];
      caches := caches[c := caches[c].(nbFree := caches[c].nbFree + |f|, slabList := [s] + caches[c].slabList)];
      ranges := ranges[n := ranges[n].(slab := Some(s))];
      if c == RANGE_CACHE { grown := grown + 1; }
      assert St() == AddSlab(m2, c, n, s, f);
      forall m0 | KeepsFree(m0, m2) ensures KeepsFree(m0, St()) { KeepsFreeFrame(m0, m2, St(), n); }
      fault := false;
    }

    /**
     cache_grow. `fault`: the CPU takes a page fault, which it does exactly on new slabs of caches without mapping.
     */
    method CacheGrow(c: CacheId, ghost x: Flight) returns (ok: bool, fault: bool)
      requires Inv(St(), x) && Calm(x) && c in caches
      requires if c == RANGE_CACHE then 1 <= Reserve(St()) else 2 <= Reserve(St())
      modifies this
      ensures SameDims(old(St()), St()) && UserObjects(St()) == old(UserObjects(St()))
      ensures !fault ==> Inv(St(), x) && UserRanges(St()) == old(UserRanges(St()))
      ensures if old(caches[c].createMap) then !fault else !ok
      ensures fault ==> !ok && FaultIn(old(St()), St(), x, c)
      ensures ok ==> HeadNonFull(St(), c) && (c >= 2 ==> Grown(old(St()), St(), c))
      ensures !ok || c < 2 ==> UserCaches(caches) == old(UserCaches(caches))
      ensures c != RANGE_CACHE || ok ==> Reserve(St()) >= 2
      ensures c == RANGE_CACHE && !ok ==> Reserve(St()) >= 1
      ensures c == RANGE_CACHE && old(Reserve(St())) == 1 && ok ==> KeepsFree(old(St()), St())
      ensures c != RANGE_CACHE ==>
        OneGrowth(old(grown), grown, old(Reserve(St())), Reserve(St()), ok, GrowNeed(c), GrowUse(c))
      ensures c == RANGE_CACHE && old(Reserve(St())) == 1 ==>
        grown == old(grown) + (if ok then 1 else 0) && (ok ==> Reserve(St()) >= RANGE_OBJECTS)
      ensures old(refused) <= refused && (ok || fault ==> refused == old(refused))
      ensures !ok && !fault ==> refused > old(refused) || Lacks(old(St()), c)
      ensures ok || fault ==> HasFree(old(St()), old(caches[c].nbPages))
      decreases Rank(c), if c == RANGE_CACHE then Reserve(St()) else 0, 6
    {
      hide Inv, UserRanges, UserObjects, UserCaches, SameDims, KeepsFree, AllMapped, Bare, SamePages, FaultIn,
        Leaves, HasFree, Lacks, ExactFit, FirstFit;
      ok, fault := false, false;
      ghost var m0 := St();
      GrowFacts(m0, x, c);
      PagesWanted(m0, x, c);
      var r := NewRange(caches[c].nbPages, caches[c].createMap, x);
      if r.None? { return; }
      var n := r.value;
      ghost var m1 := St();
      DimsOf(m0, m1, c);
      var s := HeaderAddress(caches[c], ranges[n].base * PAGE_SIZE);
      ghost var y := x;
      if !caches[c].onSlab {
        GivenIn(m0, m1, n, m0.caches[c].nbPages);
        var a := NewStructure(c, n, x);
        SameDimsTrans(m0, m1, St());
        if a.None? {
          StructureLacks(m0, m1, c);
          GivenBack(m0, m1, St(), n, m0.caches[c].nbPages);
          return;
        }
        s := a.value;
        y := Hold(x, KSLAB_CACHE, s);
      }
      ghost var m2 := St();
      DimsOf(m0, m2, c);
      GivenFacts(m0, m1, m2, n);
      if !caches[c].onSlab { PagesStay(m1, m2, n); }
      fault := AddSlabOn(c, n, s, x, y);
      if fault {
        FaultMade(m0, m1, m2, x, y, c, n, s);
        return;
      }
      GrownFrom(m0, m2, St(), c);
      SameDimsTrans(m0, m2, St());
      GivenBack(m0, m1, St(), n, m0.caches[c].nbPages);
      ok := true;
    }

    /**
     The end of sos_kmem_cache_alloc, when the object taken was one of the free objects the cache must keep: the cache
     grows, or the object goes back.
     */
    method Refill(c: CacheId, a: Ptr, ghost x: Flight) returns (ok: bool)
      requires Inv(St(), Hold(x, c, a)) && Calm(x) && c in caches && Idle(x, a)
      requires caches[c].minFree > 0 && caches[c].nbFree == caches[c].minFree - 1 && AllocatedFrom(St(), c, a)
      requires caches[c].createMap
      requires if c == RANGE_CACHE then 1 == Reserve(St()) else 2 <= Reserve(St())
      modifies this
      ensures Inv(St(), if ok then Hold(x, c, a) else x) && SameDims(old(St()), St()) && 2 <= Reserve(St())
      ensures UserRanges(St()) == old(UserRanges(St()))
      ensures UserObjects(St()) == if ok then old(UserObjects(St())) else old(UserObjects(St())) - {a}
      ensures OnlyCache(old(St()), St(), c) && (c >= 2 ==> MinFree(St(), c))
      ensures c == RANGE_CACHE && ok ==> KeepsFree(old(St()), St())
      ensures c != RANGE_CACHE ==>
        OneGrowth(old(grown), grown, old(Reserve(St())), Reserve(St()), ok, GrowNeed(c), GrowUse(c))
      ensures c == RANGE_CACHE ==>
        grown == old(grown) + (if ok then 1 else 0) && (ok ==> Reserve(St()) >= RANGE_OBJECTS)
      ensures old(refused) <= refused
      ensures if ok then refused == old(refused) else refused > old(refused) || Lacks(old(St()), c)
      decreases Rank(c), if c == RANGE_CACHE then Reserve(St()) else 0, 7
    {
      hide Inv, UserRanges, UserObjects, UserCaches, SameDims, KeepsFree, OnlyCache, Grown, MinFree, PushedOnly, Lacks,
        HasFree;
      ghost var m2 := St();
      ghost var y := Hold(x, c, a);
      GrowFacts(m2, y, c);
      OnlySelf(m2, c);
      if c > CACHE_CACHE { AllocatedUser(m2, c, a); }
      var fault;
      ok, fault := CacheGrow(c, y);
      ghost var m3 := St();
      if ok {
        if c >= 2 { TakenGrown(m2, m2, m3, c); } else { OnlyInternal(m2, m2, m3, c); }
      } else {
        HeldIsHome(m3, x, c, a);
        HomeCounted(m3, y, a);
        var r := CacheFree(a, y);
        SteadyFacts(m3, St(), if AllocatedFrom(m3, RANGE_CACHE, a) then 1 else 0);
        SameDimsTrans(m2, m3, St());
        TakenBack(m2, m2, m3, St(), c, a);
      }
    }

    /**
     The beginning of sos_kmem_cache_alloc: if the first slab has no free object, the cache grows, which the range cache
     never has to.
     */
    method MakeRoom(c: CacheId, ghost x: Flight) returns (ok: bool, fault: bool)
      requires Inv(St(), x) && Calm(x) && c in caches
      requires if c == RANGE_CACHE then 1 <= Reserve(St()) else 2 <= Reserve(St())
      modifies this
      ensures SameDims(old(St()), St()) && UserObjects(St()) == old(UserObjects(St())) && Room(old(St()), St(), c)
      ensures !fault ==> Inv(St(), x) && UserRanges(St()) == old(UserRanges(St()))
      ensures ok ==> HeadNonFull(St(), c) && !fault
      ensures !old(caches[c].createMap) ==> !ok
      ensures fault ==> !old(caches[c].createMap) && FaultIn(old(St()), St(), x, c)
      ensures HeadNonFull(old(St()), c) ==> ok && St() == old(St())
      ensures c == RANGE_CACHE ==> ok
      ensures c != RANGE_CACHE ==> Reserve(St()) >= 2
      ensures OneGrowth(old(grown), grown, old(Reserve(St())), Reserve(St()), ok, GrowNeed(c), GrowUse(c))
      ensures c == RANGE_CACHE ==> grown == old(grown)
      ensures old(refused) <= refused && (ok || fault ==> refused == old(refused))
      ensures !ok && !fault ==> refused > old(refused) || Lacks(old(St()), c)
      decreases Rank(c), if c == RANGE_CACHE then Reserve(St()) else 1, 1
    {
      hide Inv, UserRanges, UserObjects, UserCaches, SameDims, Grown, Room, FaultIn, Lacks;
      ok, fault := true, false;
      ghost var m0 := St();
      GrowFacts(m0, x, c);
      NoSlabs(m0, x, c);
      SameDimsSelf(m0);
      if c == RANGE_CACHE { ReserveAtHead(m0, x); }
      if caches[c].slabList == [] || slabs[caches[c].slabList[0]].free == [] {
        ok, fault := CacheGrow(c, x);
        RoomMade(m0, St(), c);
      } else {
        RoomMade(m0, m0, c);
      }
    }

    /**
     The rest of sos_kmem_cache_alloc: the first object of the first slab is taken, and given back if the cache cannot
     keep its minimum without it.
     */
    method TakeObject(c: CacheId, ghost x: Flight) returns (obj: Option<Ptr>)
      requires Inv(St(), x) && Calm(x) && HeadNonFull(St(), c) && c in caches && caches[c].createMap
      requires if c == RANGE_CACHE then 1 <= Reserve(St()) else 2 <= Reserve(St())
      modifies this
      ensures obj.Some? ==> Inv(St(), Hold(x, c, obj.value)) && Idle(x, obj.value)
      ensures obj.None? ==> Inv(St(), x)
      ensures SameDims(old(St()), St()) && UserRanges(St()) == old(UserRanges(St()))
      ensures obj.Some? && c > CACHE_CACHE ==>
        UserObjects(St()) == old(UserObjects(St()))[obj.value := c] && obj.value !in old(UserObjects(St()))
      ensures obj.None? || c <= CACHE_CACHE ==> UserObjects(St()) == old(UserObjects(St()))
      ensures OnlyCache(old(St()), St(), c)
      ensures c >= 2 && old(MinFree(St(), c)) ==> MinFree(St(), c)
      ensures old(Reserve(St())) >= 2 ==> Reserve(St()) >= 2
      ensures c == RANGE_CACHE && old(Reserve(St())) == 1 ==>
        obj.Some? && Reserve(St()) == 0 && ranges == old(ranges) && freeList == old(freeList)
      ensures c == RANGE_CACHE && old(Reserve(St())) >= 3 ==>
        obj.Some? && ranges == old(ranges) && freeList == old(freeList)
      ensures c == RANGE_CACHE && obj.Some? ==> KeepsFree(old(St()), St())
      ensures old(Plenty(St(), c)) ==> Popped(old(St()), St(), c, obj) && grown == old(grown)
      ensures OneGrowth(old(grown), grown, old(Reserve(St())), Reserve(St()), obj.Some?, GrowNeed(c), GrowUse(c))
      ensures c == RANGE_CACHE ==> grown == old(grown) + if obj.Some? && old(Reserve(St())) == 2 then 1 else 0
      ensures old(refused) <= refused
      ensures if obj.Some? then refused == old(refused) else refused > old(refused) || Lacks(old(St()), c)
      ensures old(caches[c].minFree) <= 0 ==> obj.Some?
      ensures c == KSLAB_CACHE ==> obj.Some? && grown == old(grown) && Reserve(St()) == old(Reserve(St()))
      decreases Rank(c), if c == RANGE_CACHE then Reserve(St()) else 1, 1
    {
      hide Inv, UserRanges, UserObjects, UserCaches, SameDims, KeepsFree, PopObject, OnlyCache, Room, MinFree,
        PushedOnly, Lacks;
      ghost var m1 := St();
      GrowFacts(m1, x, c);
      RoomMade(m1, m1, c) by { SameDimsSelf(m1); }
      PopKeeps(m1, x, c);
      PopShape(m1, x, c);
      var a := PopHead(c);
      ghost var m2 := St();
      DimsOf(m1, m2, c);
      TakenOne(m1, m1, m2, c);
      LeftOver(m2, Hold(x, c, a), c);
      if caches[c].minFree > 0 && caches[c].nbFree == caches[c].minFree - 1 {
        var ok := Refill(c, a, x);
        LacksSame(m1, m2, c);
        SameDimsTrans(m1, m2, St());
        OnlyTrans(m1, m2, St(), c);
        if !ok {
          UndoUser(m1, m2, c, a);
          return None;
        }
        if c == RANGE_CACHE { KeepsFreeShift(m1, m2, St()); }
      }
      obj := Some(a);
    }

    /** sos_kmem_cache_alloc. `fault`: the CPU takes a page fault, see CacheGrow. */
    method CacheAlloc(c: CacheId, ghost x: Flight) returns (obj: Option<Ptr>, fault: bool)
      requires Inv(St(), x) && Calm(x) && c in caches
      requires if c == RANGE_CACHE then 1 <= Reserve(St()) else 2 <= Reserve(St())
      modifies this
      ensures obj.Some? ==> Inv(St(), Hold(x, c, obj.value)) && Idle(x, obj.value)
      ensures obj.None? && !fault ==> Inv(St(), x)
      ensures SameDims(old(St()), St()) && (!fault ==> UserRanges(St()) == old(UserRanges(St())))
      ensures if old(caches[c].createMap) then !fault else obj.None?
      ensures fault ==> obj.None? && FaultIn(old(St()), St(), x, c)
      ensures obj.Some? && c > CACHE_CACHE ==>
        UserObjects(St()) == old(UserObjects(St()))[obj.value := c] && obj.value !in old(UserObjects(St()))
      ensures obj.None? || c <= CACHE_CACHE ==> UserObjects(St()) == old(UserObjects(St()))
      ensures OnlyCache(old(St()), St(), c) && (c >= 2 && MinFree(old(St()), c) ==> MinFree(St(), c))
      ensures old(Reserve(St())) >= 2 ==> Reserve(St()) >= 2
      ensures c == RANGE_CACHE && old(Reserve(St())) == 1 ==>
        obj.Some? && Reserve(St()) == 0 && ranges == old(ranges) && freeList == old(freeList)
      ensures c == RANGE_CACHE && old(Reserve(St())) >= 3 ==>
        obj.Some? && ranges == old(ranges) && freeList == old(freeList)
      ensures c == RANGE_CACHE && obj.Some? ==> KeepsFree(old(St()), St())
      ensures old(Plenty(St(), c)) ==> Popped(old(St()), St(), c, obj)
      ensures OneGrowth(old(grown), grown, old(Reserve(St())), Reserve(St()), obj.Some?, AllocNeed(c), AllocUse(c))
      ensures c == RANGE_CACHE ==> grown == old(grown) + if obj.Some? && old(Reserve(St())) == 2 then 1 else 0
      ensures old(refused) <= refused && (obj.Some? || fault ==> refused == old(refused))
      ensures obj.None? && !fault && old(MinFree(St(), c)) ==> refused > old(refused) || Lacks(old(St()), c)
      decreases Rank(c), if c == RANGE_CACHE then Reserve(St()) else 1, 2
    {
      hide Inv, UserRanges, UserObjects, UserCaches, SameDims, KeepsFree, OnlyCache, FaultIn, Lacks, PopObject,
        HeadNonFull, HeadObject, OneGrowth, Room;
      obj, fault := None, false;
      ghost var m0 := St();
      NoSlabs(m0, x, c);
      if Plenty(m0, c) { RoomAtHead(m0, x, c); }
      if MinFree(m0, c) { MinAtHead(m0, x, c); }
      if c == RANGE_CACHE { ReserveAtHead(m0, x); }
      ghost var g0 := grown;
      var room;
      room, fault := MakeRoom(c, x);
      ghost var m1 := St();
      DimsOf(m0, m1, c);
      RoomMin(m0, m1, c);
      if !room {
        GrowthFailed(c, g0, grown, Reserve(m0), Reserve(m1));
        return;
      }
      ghost var g1 := grown;
      obj := TakeObject(c, x);
      GrowthTrans(c, g0, g1, grown, Reserve(m0), Reserve(m1), Reserve(St()), obj.Some?);
      SameDimsTrans(m0, m1, St());
      OnlyTrans(m0, m1, St(), c);
    }

    // -------------------------------------------------------------- whole pages, for callers

    /** sos_kmem_vmm_alloc: the address of a new range, or none. */
    method VmmAlloc(nb: int, wantMap: bool) returns (vaddr: Option<Ptr>)
      requires Inv(St(), NOTHING) && 2 <= Reserve(St())
      modifies this
      ensures Inv(St(), NOTHING) && 2 <= Reserve(St()) && SameDims(old(St()), St())
      ensures UserObjects(St()) == old(UserObjects(St())) && KeepsMapped(old(St()), St())
      ensures UserCaches(caches) == old(UserCaches(caches))
      ensures vaddr.None? ==> UserRanges(St()) == old(UserRanges(St()))
      ensures vaddr.Some? ==> GivenAt(old(St()), St(), vaddr.value, nb, wantMap)
      ensures nb <= 0 ==> vaddr.None?
      ensures old(Reserve(St())) >= 3 && nb >= 1 && !wantMap ==>
        (vaddr.None? <==> forall i :: !IsFirstFit(old(St()), nb, i))
      ensures old(Reserve(St())) >= 3 && vaddr.Some? ==>
        exists i :: IsFirstFit(old(St()), nb, i) && vaddr.value == old(ranges[freeList[i]].base) * PAGE_SIZE
      ensures OneGrowth(old(grown), grown, old(Reserve(St())), Reserve(St()), vaddr.Some?, 3, 1)
      ensures old(refused) <= refused
      ensures vaddr.Some? <==> 1 <= nb && HasFree(old(St()), nb) && refused == old(refused)
      ensures refused > old(refused) ==> wantMap || old(Reserve(St())) == 2
      ensures old(Reserve(St())) == 2 && vaddr.Some? ==> grown == old(grown) + if ExactFit(old(St()), nb) then 0 else 1
    {
      hide Inv, UserRanges, UserObjects, UserCaches, SameDims, AllMapped, Bare, Given, KeepsMapped;
      ghost var m0 := St();
      ghost var x := Keeping(m0);
      KeepAll(m0, UserRanges(m0).Keys);
      var r := NewRange(nb, wantMap, x);
      AllKept(m0, St(), x);
      if r.None? { return None; }
      assert r.value in ranges by { assert Given(m0, St(), r.value, nb); GivenParts(m0, St(), r.value, nb); }
      GivenWitness(m0, St(), r.value, nb, wantMap);
      return Some(ranges[r.value].base * PAGE_SIZE);
    }

    /** sos_kmem_vmm_free: `vaddr` must be the first address of a range that backs no slab. */
    method VmmFree(vaddr: Ptr) returns (ret: Ret)
      requires Inv(St(), NOTHING) && 2 <= Reserve(St())
      modifies this
      ensures Inv(St(), NOTHING) && 2 <= Reserve(St()) && SameDims(old(St()), St())
      ensures UserObjects(St()) == old(UserObjects(St())) && KeepsMapped(old(St()), St()) && grown == old(grown)
      ensures UserCaches(caches) == old(UserCaches(caches))
      ensures ret == OK ==> exists n :: StartsAt(old(St()), n, vaddr) && UserRanges(St()) == old(UserRanges(St())) - {n}
                                        && PagesFree(St(), old(ranges)[n])
      ensures ret == OK <==> exists n :: StartsAt(old(St()), n, vaddr) && n in UserRanges(old(St()))
      ensures ret == EBUSY
        <==> exists n :: StartsAt(old(St()), n, vaddr) && n in old(usedList) && n !in UserRanges(old(St()))
      ensures ret == Halted <==> Unowned(old(St()).pages, PageOf(vaddr))
      ensures ret != ENOMEM
      ensures ret != OK ==> St() == old(St())
    {
      hide Inv, UserRanges, UserObjects, UserCaches, SameDims, AllMapped, Covers, KeepsMapped;
      ghost var m0 := St();
      var r := LookupRange(vaddr, NOTHING);
      LookupFacts(m0, r, vaddr);
      KeepsMappedSelf(m0);
      SameDimsSelf(m0);
      if r.Halt? { return Halted; }
      if r.No? || ranges[r.at].base * PAGE_SIZE != vaddr { return EINVAL; }
      var n := r.at;
      assert StartsAt(m0, n, vaddr);
      if ranges[n].slab.Some? {
        LabelledNotUser(m0, n);
        return EBUSY;
      }
      RangeOfUser(m0, n);
      ghost var x := KeepingOf(m0, UserRanges(m0).Keys - {n});
      KeepAll(m0, UserRanges(m0).Keys - {n});
      DelRange(n, x);
      AllKept(m0, St(), x);
      SteadyFacts(m0, St(), if FollowedByFree(m0, n) then 1 else 0);
      return OK;
    }
  }
}
