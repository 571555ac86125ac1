/**
 The primitive updates os/kmem_slab.c makes to a cache (taking an object, giving one back, adding a
 slab, removing one) and what each keeps of the allocator's invariants.
 */
module KmemSlabSteps {
  import opened KmemState
  import opened KmemGeometry

  // ---------------------------------------------------------------- sums over slab lists

  lemma {:induction false} SumFreeConcat(l: seq<Ptr>, k: seq<Ptr>, slabs: map<Ptr, Slab>)
    ensures SumFree(l + k, slabs) == SumFree(l, slabs) + SumFree(k, slabs)
  {
    if l == [] {
      assert l + k == k;
    } else {
      assert (l + k)[1..] == l[1..] + k;
      SumFreeConcat(l[1..], k, slabs);
    }
  }

  lemma {:induction false} SumFreeFrame(l: seq<Ptr>, slabs: map<Ptr, Slab>, slabs': map<Ptr, Slab>)
    requires forall s :: s in l ==> s in slabs && s in slabs' && slabs[s].nbFree == slabs'[s].nbFree
    ensures SumFree(l, slabs) == SumFree(l, slabs')
  {
    if l == [] {
    } else {
      var s := l[0];
      assert s in l;
      assert slabs[s].nbFree == slabs'[s].nbFree;
      SumFreeFrame(l[1..], slabs, slabs');
    }
  }

  lemma {:induction false} SumFreeUpdate(l: seq<Ptr>, slabs: map<Ptr, Slab>, s: Ptr, b: Slab)
    requires NoDup(l) && s in l && s in slabs
    requires forall t :: t in l ==> t in slabs
    ensures SumFree(l, slabs[s := b]) == SumFree(l, slabs) + b.nbFree - slabs[s].nbFree
  {
    if l[0] == s {
      SumFreeFrame(l[1..], slabs, slabs[s := b]);
    } else {
      SumFreeUpdate(l[1..], slabs, s, b);
    }
  }

  /** Position of an element known to be in the list. */
  function IndexOf(l: seq<Ptr>, s: Ptr): (i: nat)
    requires s in l
    ensures i < |l| && l[i] == s
  {
    if l[0] == s then 0 else 1 + IndexOf(l[1..], s)
  }

  /** list_delete of `s`. */
  function Without(l: seq<Ptr>, s: Ptr): seq<Ptr>
    requires s in l
  {
    l[..IndexOf(l, s)] + l[IndexOf(l, s) + 1..]
  }

  lemma WithoutMembers(l: seq<Ptr>, s: Ptr)
    requires s in l && NoDup(l)
    ensures NoDup(Without(l, s)) && |Without(l, s)| == |l| - 1
    ensures forall t :: t in Without(l, s) <==> t in l && t != s
  {
    var i := IndexOf(l, s);
    var w := Without(l, s);
    assert forall q :: 0 <= q < |w| ==> w[q] == l[if q < i then q else q + 1];
    forall t | t in l && t != s ensures t in w {
      var j := IndexOf(l, t);
      assert w[if j < i then j else j - 1] == t;
    }
  }

  lemma WithoutSum(l: seq<Ptr>, s: Ptr, slabs: map<Ptr, Slab>)
    requires s in l && s in slabs
    ensures SumFree(l, slabs) == slabs[s].nbFree + SumFree(Without(l, s), slabs)
  {
    var i := IndexOf(l, s);
    assert l == l[..i] + ([s] + l[i + 1..]);
    SumFreeConcat(l[..i], [s] + l[i + 1..], slabs);
    SumFreeConcat([s], l[i + 1..], slabs);
    SumFreeConcat(l[..i], l[i + 1..], slabs);
    assert SumFree([s], slabs) == slabs[s].nbFree + SumFree([], slabs);
  }

  lemma WithoutFullLast(l: seq<Ptr>, s: Ptr, slabs: map<Ptr, Slab>)
    requires s in l && FullLast(l, slabs)
    ensures FullLast(Without(l, s), slabs)
  {
    var i := IndexOf(l, s);
    forall p, q | 0 <= p < q < |l| - 1
      ensures var w := Without(l, s);
              w[p] in slabs && w[q] in slabs && slabs[w[p]].free == [] ==> slabs[w[q]].free == []
    {
      var w := Without(l, s);
      assert w[p] == l[if p < i then p else p + 1] && w[q] == l[if q < i then q else q + 1];
    }
  }

  // ---------------------------------------------------------------- free objects of one slab

  /** Slab `s` gets free list `f`, its cache slab list `l`, and the allocated objects become `h`. */
  function SetFree(m: Mem, s: Ptr, f: seq<Ptr>, l: seq<Ptr>, h: map<Ptr, Ptr>): Mem
    requires s in m.slabs && m.slabs[s].cache in m.caches
  {
    var b := m.slabs[s];
    var k := m.caches[b.cache];
    m.(slabs := m.slabs[s := b.(nbFree := |f|, free := f)],
       caches := m.caches[b.cache := k.(nbFree := k.nbFree + |f| - b.nbFree, slabList := l)],
       home := h)
  }

  lemma SetFreeOwnCache(m: Mem, s: Ptr, f: seq<Ptr>, l: seq<Ptr>, h: map<Ptr, Ptr>)
    requires s in m.slabs && m.slabs[s].cache in m.caches
    requires CacheOk(m, m.slabs[s].cache) && SlabOk(m, s)
    requires NoDup(l) && forall t :: t in l <==> t in m.caches[m.slabs[s].cache].slabList
    requires SumFree(l, SetFree(m, s, f, l, h).slabs)
      == SumFree(m.caches[m.slabs[s].cache].slabList, SetFree(m, s, f, l, h).slabs)
    requires FullLast(l, SetFree(m, s, f, l, h).slabs)
    ensures CacheOk(SetFree(m, s, f, l, h), m.slabs[s].cache)
  {
    hide IsObject;
    var m' := SetFree(m, s, f, l, h);
    var c := m.slabs[s].cache;
    SameGeometry(m.caches[c], m'.caches[c]);
    hide GeometryOk;
    SumFreeUpdate(m.caches[c].slabList, m.slabs, s, m'.slabs[s]);
  }

  lemma SetFreeOtherCache(m: Mem, s: Ptr, f: seq<Ptr>, l: seq<Ptr>, h: map<Ptr, Ptr>, d: CacheId)
    requires s in m.slabs && m.slabs[s].cache in m.caches && d in m.caches && d != m.slabs[s].cache
    requires CacheOk(m, d)
    ensures CacheOk(SetFree(m, s, f, l, h), d)
  {
    hide IsObject, GeometryOk;
    var m' := SetFree(m, s, f, l, h);
    SumFreeFrame(m.caches[d].slabList, m.slabs, m'.slabs);
    assert forall t :: t in m.caches[d].slabList ==> m'.slabs[t] == m.slabs[t];
  }

  lemma SetFreeSlab(m: Mem, s: Ptr, f: seq<Ptr>, l: seq<Ptr>, h: map<Ptr, Ptr>, t: Ptr)
    requires s in m.slabs && m.slabs[s].cache in m.caches && t in m.slabs
    requires SlabOk(m, t)
    requires NoDup(f) && forall a :: a in f ==> IsObject(m.caches[m.slabs[s].cache], m.slabs[s].first, a)
    requires forall t :: t in l <==> t in m.caches[m.slabs[s].cache].slabList
    ensures SlabOk(SetFree(m, s, f, l, h), t)
  {
    var m' := SetFree(m, s, f, l, h);
    SameObjects(m, m');
    hide IsObject, NoDup;
  }

  lemma SetFreeSlabs(m: Mem, s: Ptr, f: seq<Ptr>, l: seq<Ptr>, h: map<Ptr, Ptr>)
    requires SlabsOk(m) && s in m.slabs && m.slabs[s].cache in m.caches
    requires NoDup(f) && forall a :: a in f ==> IsObject(m.caches[m.slabs[s].cache], m.slabs[s].first, a)
    requires NoDup(l) && forall t :: t in l <==> t in m.caches[m.slabs[s].cache].slabList
    requires SumFree(l, SetFree(m, s, f, l, h).slabs)
      == SumFree(m.caches[m.slabs[s].cache].slabList, SetFree(m, s, f, l, h).slabs)
    requires FullLast(l, SetFree(m, s, f, l, h).slabs)
    ensures SlabsOk(SetFree(m, s, f, l, h))
  {
    hide IsObject, NoDup, FullLast, CacheOk, SlabOk;
    var m' := SetFree(m, s, f, l, h);
    var c := m.slabs[s].cache;
    forall d | d in m'.caches ensures CacheOk(m', d) {
      assert SlabOk(m, s) && CacheOk(m, d);
      if d == c { SetFreeOwnCache(m, s, f, l, h); } else { SetFreeOtherCache(m, s, f, l, h, d); }
    }
    forall t | t in m'.slabs ensures SlabOk(m', t) {
      SetFreeSlab(m, s, f, l, h, t);
    }
  }

  lemma SameGeometry(k: Cache, k': Cache)
    requires k' == k.(nbFree := k'.nbFree, slabList := k'.slabList)
    ensures GeometryOk(k') == GeometryOk(k)
  {}

  /** The caches of `m'` have the same dimensions as those of `m`. */
  ghost predicate SameDims(m: Mem, m': Mem) {
    m'.caches.Keys == m.caches.Keys
    && forall c :: c in m.caches ==>
      m'.caches[c] == m.caches[c].(nbFree := m'.caches[c].nbFree, slabList := m'.caches[c].slabList)
  }

  lemma SameStructs(m: Mem, m': Mem)
    requires SameDims(m, m')
    ensures Structs(m'.caches) == Structs(m.caches) && (Named(m.caches) ==> Named(m'.caches))
  {
    forall c | c in m.caches ensures m'.caches[c].at == m.caches[c].at {}
  }

  lemma SameObjects(m: Mem, m': Mem)
    requires SameDims(m, m')
    ensures forall c, first, a :: c in m.caches ==> IsObject(m'.caches[c], first, a) == IsObject(m.caches[c], first, a)
  {}

  /** `m'` differs from `m` only in the free lists of slabs, the slab lists and the set of allocated objects. */
  ghost predicate SameButFree(m: Mem, m': Mem) {
    && m' == m.(slabs := m'.slabs, caches := m'.caches, home := m'.home)
    && SameDims(m, m')
    && m'.slabs.Keys == m.slabs.Keys
    && forall s :: s in m.slabs ==>
         m'.slabs[s].range == m.slabs[s].range && m'.slabs[s].first == m.slabs[s].first
           && m'.slabs[s].cache == m.slabs[s].cache
  }

  /** The range side of the invariant reads only the range fields. */
  lemma RangesFrame(m: Mem, m': Mem, x: Flight, x': Flight)
    requires m'.ranges == m.ranges && m'.freeList == m.freeList && m'.usedList == m.usedList
    requires m'.mapped == m.mapped && m'.pages == m.pages && m'.tile == m.tile
    requires x'.pending == x.pending && x'.touchPrev == x.touchPrev && x'.touchNext == x.touchNext
    ensures RangesOk(m, x) ==> RangesOk(m', x')
    ensures MappedOk(m) ==> MappedOk(m')
    ensures UserRanges(m') == UserRanges(m)
  {
    hide Covers, End;
  }

  lemma SlabRangesFrame(m: Mem, m': Mem, x: Flight, x': Flight)
    requires SameButFree(m, m') && SlabRangesOk(m, x)
    requires x'.pending == x.pending && x'.dangling == x.dangling && x'.kept == x.kept
    ensures SlabRangesOk(m', x')
  {
    hide Covers;
    forall s | s in m'.slabs ensures Backed(m', x', s) { assert Backed(m, x, s); }
    forall n | n in m'.ranges ensures LabelOk(m', x', n) {
      assert LabelOk(m, x, n);
      if m.ranges[n].slab.Some? && n !in x.dangling {
        var s := m.ranges[n].slab.value;
        assert m'.slabs[s].range == m.slabs[s].range;
      }
    }
  }

  lemma CacheLinksFrame(m: Mem, m': Mem, x: Flight, x': Flight)
    requires CacheLinks(m, x) && SameDims(m, m') && x'.heldCaches == x.heldCaches
    requires forall a :: AllocatedFrom(m', CACHE_CACHE, a) <==> AllocatedFrom(m, CACHE_CACHE, a)
    ensures CacheLinks(m', x')
  {
    SameStructs(m, m');
    hide SameDims, AllocatedFrom, Structs, Named;
  }

  // ---------------------------------------------------------------- taking and giving back an object

  /** `x` after object `a` of cache `c` left its free list with nothing valid in it yet. */
  function Hold(x: Flight, c: CacheId, a: Ptr): Flight {
    if c == RANGE_CACHE then x.(heldRanges := x.heldRanges + {a})
    else if c == KSLAB_CACHE then x.(heldSlabs := x.heldSlabs + {a})
    else if c == CACHE_CACHE then x.(heldCaches := x.heldCaches + {a})
    else x
  }

  function Unhold(x: Flight, c: CacheId, a: Ptr): Flight {
    if c == RANGE_CACHE then x.(heldRanges := x.heldRanges - {a})
    else if c == KSLAB_CACHE then x.(heldSlabs := x.heldSlabs - {a})
    else if c == CACHE_CACHE then x.(heldCaches := x.heldCaches - {a})
    else x
  }

  predicate HeadNonFull(m: Mem, c: CacheId) {
    c in m.caches && m.caches[c].slabList != [] && m.caches[c].slabList[0] in m.slabs
    && m.slabs[m.caches[c].slabList[0]].cache == c
    && m.slabs[m.caches[c].slabList[0]].free != []
  }

  function HeadObject(m: Mem, c: CacheId): Ptr
    requires HeadNonFull(m, c)
  {
    m.slabs[m.caches[c].slabList[0]].free[0]
  }

  /** The head object of the head slab is taken; a slab left full goes to the tail. */
  function PopObject(m: Mem, c: CacheId): Mem
    requires HeadNonFull(m, c)
  {
    var l := m.caches[c].slabList;
    var s := l[0];
    var f := m.slabs[s].free;
    SetFree(m, s, f[1..], if |f| == 1 then l[1..] + [s] else l, m.home[f[0] := s])
  }

  /** Address `a` goes to the head of the free list of slab `s`; a slab that was full goes to the head of its cache. */
  function PushAt(m: Mem, s: Ptr, a: Ptr): Mem
    requires s in m.slabs && m.slabs[s].cache in m.caches && s in m.caches[m.slabs[s].cache].slabList
  {
    var f := m.slabs[s].free;
    var l := m.caches[m.slabs[s].cache].slabList;
    SetFree(m, s, [a] + f, if f == [] then [s] + Without(l, s) else l, m.home - {a})
  }

  /** Object `a` goes back to its slab. */
  function PushObject(m: Mem, a: Ptr): Mem
    requires a in m.home && m.home[a] in m.slabs && m.slabs[m.home[a]].cache in m.caches
    requires m.home[a] in m.caches[m.slabs[m.home[a]].cache].slabList
  {
    PushAt(m, m.home[a], a)
  }

  /** The slab list after its head slab lost an object. */
  lemma PopOrder(l: seq<Ptr>, slabs: map<Ptr, Slab>, b: Slab)
    requires l != [] && l[0] in slabs && slabs[l[0]].free != [] && NoDup(l) && FullLast(l, slabs)
    ensures b.free == [] ==> FullLast(l[1..] + [l[0]], slabs[l[0] := b])
    ensures b.free != [] ==> FullLast(l, slabs[l[0] := b])
  {}

  lemma PopList(l: seq<Ptr>, slabs: map<Ptr, Slab>)
    requires l != [] && NoDup(l)
    ensures NoDup(l[1..] + [l[0]])
    ensures forall t :: t in l[1..] + [l[0]] <==> t in l
    ensures SumFree(l[1..] + [l[0]], slabs) == SumFree(l, slabs)
  {
    assert l == [l[0]] + l[1..];
    SumFreeConcat([l[0]], l[1..], slabs);
    SumFreeConcat(l[1..], [l[0]], slabs);
  }

  lemma PopSlabs(m: Mem, c: CacheId)
    requires SlabsOk(m) && HeadNonFull(m, c)
    ensures SlabsOk(PopObject(m, c))
  {
    hide IsObject, GeometryOk, FullLast;
    var l := m.caches[c].slabList;
    var s := l[0];
    var f := m.slabs[s].free;
    var l' := if |f| == 1 then l[1..] + [s] else l;
    var m' := PopObject(m, c);
    assert CacheOk(m, c) && SlabOk(m, s);
    assert NoDup(f[1..]) && forall a :: a in f[1..] ==> a in f;
    hide CacheOk, SlabOk;
    PopList(l, m'.slabs);
    PopOrder(l, m.slabs, m'.slabs[s]) by { assert CacheOk(m, c); }
    assert NoDup(l) by { assert CacheOk(m, c); }
    hide NoDup, SlabsOk;
    SetFreeSlabs(m, s, f[1..], l', m'.home);
  }

  lemma PushSlabs(m: Mem, a: Ptr)
    requires SlabsOk(m) && HomeOk(m) && a in m.home
    ensures m.home[a] in m.slabs && SlabOk(m, m.home[a])
    ensures SlabsOk(PushObject(m, a))
  {
    hide IsObject, GeometryOk;
    var s := m.home[a];
    assert Allocated(m, s, a);
    assert SlabOk(m, s) && CacheOk(m, m.slabs[s].cache);
    var l := m.caches[m.slabs[s].cache].slabList;
    var f := m.slabs[s].free;
    var m' := PushObject(m, a);
    if f == [] {
      WithoutMembers(l, s);
      WithoutSum(l, s, m'.slabs);
      SumFreeConcat([s], Without(l, s), m'.slabs);
      WithoutFullLast(l, s, m.slabs);
    }
    SetFreeSlabs(m, s, [a] + f, if f == [] then [s] + Without(l, s) else l, m'.home);
  }

  /** Object `a` of slab `s` leaves the free list. */
  ghost predicate Takes(m: Mem, m': Mem, s: Ptr, a: Ptr) {
    && SameButFree(m, m') && s in m.slabs && a in m.slabs[s].free
    && m'.home == m.home[a := s]
    && (forall t, b :: t in m.slabs ==> (b in m'.slabs[t].free <==> b in m.slabs[t].free && !(t == s && b == a)))
  }

  /** Object `a` of slab `s` joins the free list. */
  ghost predicate Gives(m: Mem, m': Mem, s: Ptr, a: Ptr) {
    && SameButFree(m, m') && s in m.slabs
    && m'.home == m.home - {a}
    && (forall t, b :: t in m.slabs ==> (b in m'.slabs[t].free <==> b in m.slabs[t].free || (t == s && b == a)))
  }

  lemma PopTakes(m: Mem, c: CacheId)
    requires HeadNonFull(m, c) && NoDup(m.slabs[m.caches[c].slabList[0]].free)
    ensures Takes(m, PopObject(m, c), m.caches[c].slabList[0], HeadObject(m, c))
  {
    var f := m.slabs[m.caches[c].slabList[0]].free;
    assert f == [f[0]] + f[1..] && f[0] !in f[1..];
  }

  /** An allocated object is allocated in the updated state when slabs keep their place. */
  lemma SameAllocated(m: Mem, m': Mem, s: Ptr, a: Ptr)
    requires SameButFree(m, m')
    ensures Allocated(m', s, a) <==>
            s in m.slabs && m.slabs[s].cache in m.caches
            && IsObject(m.caches[m.slabs[s].cache], m.slabs[s].first, a) && a !in m'.slabs[s].free
  {
    if s in m.slabs && m.slabs[s].cache in m.caches {
      assert m'.slabs[s].first == m.slabs[s].first && m'.slabs[s].cache == m.slabs[s].cache;
      SameObjects(m, m');
    }
    hide IsObject;
  }

  lemma TakesHome(m: Mem, m': Mem, x: Flight, s: Ptr, a: Ptr)
    requires RangesOk(m, x) && SlabRangesOk(m, x) && SlabsOk(m) && HomeOk(m) && Takes(m, m', s, a)
    ensures HomeOk(m') && a !in m.home
  {
    hide IsObject, RangesOk, SlabRangesOk, CacheOk, SameButFree;
    assert SlabOk(m, s);
    hide SlabsOk, SlabOk;
    if a in m.home {
      assert Allocated(m, m.home[a], a);
      SlabsApart(m, x, s, m.home[a], a);
      assert false;
    }
    forall t, b | Allocated(m', t, b) ensures b in m'.home && m'.home[b] == t {
      SameAllocated(m, m', t, b);
      if !(t == s && b == a) { assert Allocated(m, t, b); }
    }
    forall b | b in m'.home ensures Allocated(m', m'.home[b], b) {
      if b != a { assert Allocated(m, m.home[b], b); }
      SameAllocated(m, m', m'.home[b], b);
    }
  }

  lemma TakesAllocated(m: Mem, m': Mem, s: Ptr, a: Ptr, d: CacheId, b: Ptr)
    requires Takes(m, m', s, a) && a !in m.home
    ensures AllocatedFrom(m', d, b) <==> AllocatedFrom(m, d, b) || (d == m.slabs[s].cache && b == a)
  {
    SameOffSlab(m, m');
    SameRangeSide(m, m');
    hide IsOffSlab, SameButFree;
    if b != a && b in m.home && m.home[b] in m.slabs {
      assert m'.home[b] == m.home[b];
      assert m'.slabs[m.home[b]].cache == m.slabs[m.home[b]].cache;
    }
  }

  lemma TakesUser(m: Mem, m': Mem, s: Ptr, a: Ptr)
    requires Takes(m, m', s, a) && a !in m.home
    ensures UserObjects(m') ==
            if m.slabs[s].cache > CACHE_CACHE then UserObjects(m)[a := m.slabs[s].cache] else UserObjects(m)
  {
    forall b: Ptr ensures var c := m.slabs[s].cache;
      && (b in UserObjects(m') <==> b in UserObjects(m) || (b == a && c > CACHE_CACHE))
      && (b in UserObjects(m') && b != a ==> UserObjects(m')[b] == UserObjects(m)[b])
      && (b == a && c > CACHE_CACHE ==> UserObjects(m')[b] == c)
    {
      TakesAllocated(m, m', s, a, if b in m'.home && m'.home[b] in m'.slabs then m'.slabs[m'.home[b]].cache else 0, b);
      TakesAllocated(m, m', s, a, if b in m.home && m.home[b] in m.slabs then m.slabs[m.home[b]].cache else 0, b);
    }
  }

  lemma TakesCaches(m: Mem, m': Mem, x: Flight, s: Ptr, a: Ptr)
    requires CacheLinks(m, x) && Takes(m, m', s, a) && a !in m.home
    ensures CacheLinks(m', Hold(x, m.slabs[s].cache, a))
  {
    var c := m.slabs[s].cache;
    assert !AllocatedFrom(m, CACHE_CACHE, a);
    SameStructs(m, m');
    hide Structs, Named;
    forall b
      ensures AllocatedFrom(m', CACHE_CACHE, b) <==> AllocatedFrom(m, CACHE_CACHE, b) || (c == CACHE_CACHE && b == a)
    {
      TakesAllocated(m, m', s, a, CACHE_CACHE, b);
    }
    hide Takes, SameButFree, AllocatedFrom;
  }

  lemma TakesLinks(m: Mem, m': Mem, x: Flight, s: Ptr, a: Ptr)
    requires LinksOk(m, x) && Takes(m, m', s, a) && a !in m.home
    ensures LinksOk(m', Hold(x, m.slabs[s].cache, a))
    ensures UserObjects(m') ==
            if m.slabs[s].cache > CACHE_CACHE then UserObjects(m)[a := m.slabs[s].cache] else UserObjects(m)
  {
    var c := m.slabs[s].cache;
    assert !AllocatedFrom(m, RANGE_CACHE, a) && !AllocatedFrom(m, KSLAB_CACHE, a);
    TakesCaches(m, m', x, s, a);
    SameOffSlab(m, m');
    SameRangeSide(m, m');
    hide IsOffSlab, SameButFree, CacheLinks;
    forall d, b ensures AllocatedFrom(m', d, b) <==> AllocatedFrom(m, d, b) || (d == c && b == a) {
      TakesAllocated(m, m', s, a, d, b);
    }
    hide AllocatedFrom;
    TakesUser(m, m', s, a);
  }

  lemma SameOffSlab(m: Mem, m': Mem)
    requires SameButFree(m, m')
    ensures forall s :: IsOffSlab(m', s) <==> IsOffSlab(m, s)
    ensures forall s :: s in m.slabs ==> m'.slabs[s].cache == m.slabs[s].cache
  {
    forall s | s in m.slabs ensures m'.slabs[s].cache == m.slabs[s].cache {}
  }

  lemma TakeKeeps(m: Mem, m': Mem, x: Flight, s: Ptr, a: Ptr)
    requires Inv(m, x) && Takes(m, m', s, a) && SlabsOk(m')
    ensures Inv(m', Hold(x, m.slabs[s].cache, a)) && a !in m.home
    ensures UserRanges(m') == UserRanges(m)
    ensures UserObjects(m') ==
            if m.slabs[s].cache > CACHE_CACHE then UserObjects(m)[a := m.slabs[s].cache] else UserObjects(m)
  {
    hide SlabsOk, HomeOk, LinksOk, RangesOk, MappedOk, SlabRangesOk, SameButFree, UserRanges, UserObjects;
    TakesHome(m, m', x, s, a);
    TakesLinks(m, m', x, s, a);
    SameRangeSide(m, m');
    var x' := Hold(x, m.slabs[s].cache, a);
    RangesFrame(m, m', x, x');
    SlabRangesFrame(m, m', x, x');
  }

  /** Taking an object keeps the invariant; the object was not allocated before. */
  lemma PopKeeps(m: Mem, x: Flight, c: CacheId)
    requires Inv(m, x) && HeadNonFull(m, c)
    ensures Inv(PopObject(m, c), Hold(x, c, HeadObject(m, c)))
    ensures HeadObject(m, c) !in m.home && AllocatedFrom(PopObject(m, c), c, HeadObject(m, c))
    ensures UserRanges(PopObject(m, c)) == UserRanges(m)
    ensures UserObjects(PopObject(m, c)) ==
            if c > CACHE_CACHE then UserObjects(m)[HeadObject(m, c) := c] else UserObjects(m)
  {
    hide HomeOk, LinksOk, RangesOk, MappedOk, SlabRangesOk, UserRanges, UserObjects;
    PopSlabs(m, c);
    assert SlabOk(m, m.caches[c].slabList[0]);
    PopTakes(m, c);
    hide SlabsOk, Takes;
    TakeKeeps(m, PopObject(m, c), x, m.caches[c].slabList[0], HeadObject(m, c));
  }

  lemma SameRangeSide(m: Mem, m': Mem)
    requires SameButFree(m, m')
    ensures m'.ranges == m.ranges && m'.freeList == m.freeList && m'.usedList == m.usedList
    ensures m'.mapped == m.mapped && m'.pages == m.pages && m'.tile == m.tile && m'.slabs.Keys == m.slabs.Keys
  {}

  lemma GivesHome(m: Mem, m': Mem, a: Ptr)
    requires HomeOk(m) && a in m.home && Gives(m, m', m.home[a], a)
    ensures HomeOk(m')
  {
    hide IsObject, SameButFree;
    var s := m.home[a];
    forall t, b | Allocated(m', t, b) ensures b in m'.home && m'.home[b] == t {
      SameAllocated(m, m', t, b);
      assert Allocated(m, t, b);
    }
    forall b | b in m'.home ensures Allocated(m', m'.home[b], b) {
      assert Allocated(m, m.home[b], b);
      SameAllocated(m, m', m'.home[b], b);
    }
  }

  lemma GivesAllocated(m: Mem, m': Mem, s: Ptr, a: Ptr, d: CacheId, b: Ptr)
    requires Gives(m, m', s, a)
    ensures AllocatedFrom(m', d, b) <==> AllocatedFrom(m, d, b) && b != a
  {
    SameOffSlab(m, m');
    SameRangeSide(m, m');
    hide IsOffSlab, SameButFree;
    if b != a && b in m.home && m.home[b] in m.slabs {
      assert m'.home[b] == m.home[b];
      assert m'.slabs[m.home[b]].cache == m.slabs[m.home[b]].cache;
    }
  }

  lemma GivesUser(m: Mem, m': Mem, s: Ptr, a: Ptr)
    requires Gives(m, m', s, a)
    ensures UserObjects(m') == UserObjects(m) - {a}
  {
    forall b: Ptr ensures
      && (b in UserObjects(m') <==> b in UserObjects(m) && b != a)
      && (b in UserObjects(m') ==> UserObjects(m')[b] == UserObjects(m)[b])
    {
      GivesAllocated(m, m', s, a, if b in m'.home && m'.home[b] in m'.slabs then m'.slabs[m'.home[b]].cache else 0, b);
      GivesAllocated(m, m', s, a, if b in m.home && m.home[b] in m.slabs then m.slabs[m.home[b]].cache else 0, b);
    }
  }

  lemma GivesCaches(m: Mem, m': Mem, x: Flight, a: Ptr)
    requires CacheLinks(m, x) && a in m.home && Gives(m, m', m.home[a], a)
    requires m.slabs[m.home[a]].cache == CACHE_CACHE ==> a in x.heldCaches
    ensures CacheLinks(m', Unhold(x, m.slabs[m.home[a]].cache, a))
  {
    assert AllocatedFrom(m, m.slabs[m.home[a]].cache, a);
    SameStructs(m, m');
    hide Structs, Named;
    forall b ensures AllocatedFrom(m', CACHE_CACHE, b) <==> AllocatedFrom(m, CACHE_CACHE, b) && b != a {
      GivesAllocated(m, m', m.home[a], a, CACHE_CACHE, b);
    }
    if m.slabs[m.home[a]].cache != CACHE_CACHE { assert !AllocatedFrom(m, CACHE_CACHE, a); }
    hide Gives, SameButFree, AllocatedFrom;
  }

  lemma GivesLinks(m: Mem, m': Mem, x: Flight, a: Ptr)
    requires LinksOk(m, x) && a in m.home && Gives(m, m', m.home[a], a)
    requires m.slabs[m.home[a]].cache == RANGE_CACHE ==> a in x.heldRanges
    requires m.slabs[m.home[a]].cache == KSLAB_CACHE ==> a in x.heldSlabs
    requires m.slabs[m.home[a]].cache == CACHE_CACHE ==> a in x.heldCaches
    ensures LinksOk(m', Unhold(x, m.slabs[m.home[a]].cache, a))
    ensures UserObjects(m') == UserObjects(m) - {a}
  {
    var c := m.slabs[m.home[a]].cache;
    assert AllocatedFrom(m, c, a);
    SameOffSlab(m, m');
    GivesCaches(m, m', x, a);
    SameRangeSide(m, m');
    hide IsOffSlab, SameButFree, CacheLinks;
    forall d, b ensures AllocatedFrom(m', d, b) <==> AllocatedFrom(m, d, b) && b != a {
      GivesAllocated(m, m', m.home[a], a, d, b);
    }
    hide AllocatedFrom;
    GivesUser(m, m', m.home[a], a);
  }

  lemma GiveKeeps(m: Mem, m': Mem, x: Flight, a: Ptr)
    requires Inv(m, x) && a in m.home && Gives(m, m', m.home[a], a) && SlabsOk(m')
    requires m.slabs[m.home[a]].cache == RANGE_CACHE ==> a in x.heldRanges
    requires m.slabs[m.home[a]].cache == KSLAB_CACHE ==> a in x.heldSlabs
    requires m.slabs[m.home[a]].cache == CACHE_CACHE ==> a in x.heldCaches
    ensures Inv(m', Unhold(x, m.slabs[m.home[a]].cache, a))
    ensures UserRanges(m') == UserRanges(m)
    ensures UserObjects(m') == UserObjects(m) - {a}
  {
    hide SlabsOk, HomeOk, LinksOk, RangesOk, MappedOk, SlabRangesOk, SameButFree, UserRanges, UserObjects;
    GivesHome(m, m', a);
    GivesLinks(m, m', x, a);
    SameRangeSide(m, m');
    var x' := Unhold(x, m.slabs[m.home[a]].cache, a);
    RangesFrame(m, m', x, x');
    SlabRangesFrame(m, m', x, x');
  }

  lemma PushGives(m: Mem, a: Ptr)
    requires a in m.home && m.home[a] in m.slabs && m.slabs[m.home[a]].cache in m.caches
    requires m.home[a] in m.caches[m.slabs[m.home[a]].cache].slabList
    ensures Gives(m, PushObject(m, a), m.home[a], a)
  {}

  /** Giving back an object with nothing valid in it keeps the invariant. */
  lemma PushKeeps(m: Mem, x: Flight, a: Ptr)
    requires Inv(m, x) && a in m.home && m.home[a] in m.slabs
    requires m.slabs[m.home[a]].cache == RANGE_CACHE ==> a in x.heldRanges
    requires m.slabs[m.home[a]].cache == KSLAB_CACHE ==> a in x.heldSlabs
    requires m.slabs[m.home[a]].cache == CACHE_CACHE ==> a in x.heldCaches
    ensures SlabOk(m, m.home[a])
    ensures Inv(PushObject(m, a), Unhold(x, m.slabs[m.home[a]].cache, a))
    ensures UserRanges(PushObject(m, a)) == UserRanges(m)
    ensures UserObjects(PushObject(m, a)) == UserObjects(m) - {a}
  {
    hide HomeOk, LinksOk, RangesOk, MappedOk, SlabRangesOk, SlabsOk, UserRanges, UserObjects;
    PushSlabs(m, a);
    PushGives(m, a);
    hide Gives;
    GiveKeeps(m, PushObject(m, a), x, a);
  }

  // ---------------------------------------------------------------- adding a slab

  /** A range just allocated for cache `c`, and a place for the slab structure that goes with it. */
  ghost predicate SlabSite(m: Mem, x: Flight, c: CacheId, n: Ptr, s: Ptr) {
    && c in m.caches && n in m.ranges && n in m.usedList && n !in x.dangling && n !in x.kept
    && m.ranges[n].slab.None? && m.ranges[n].npages == m.caches[c].nbPages
    && (m.caches[c].createMap ==> AllMapped(m, n))
    && (if m.caches[c].onSlab then s == HeaderAddress(m.caches[c], m.ranges[n].base * PAGE_SIZE) else s in x.heldSlabs)
  }

  /** `f` lists every object of a slab that starts at `first`, once. */
  ghost predicate FullFreeList(k: Cache, first: Ptr, f: seq<Ptr>) {
    NoDup(f) && |f| == k.nbObjects && (forall a :: a in f <==> IsObject(k, first, a))
  }

  /** cache_add_slab and the two back-links cache_grow then sets. */
  function AddSlab(m: Mem, c: CacheId, n: Ptr, s: Ptr, f: seq<Ptr>): Mem
    requires c in m.caches && n in m.ranges
  {
    var k := m.caches[c];
    m.(slabs := m.slabs[s := Slab(|f|, f, n, m.ranges[n].base * PAGE_SIZE, c)],
       caches := m.caches[c := k.(nbFree := k.nbFree + |f|, slabList := [s] + k.slabList)],
       ranges := m.ranges[n := m.ranges[n].(slab := Some(s))])
  }

  function Placed(x: Flight, k: Cache, s: Ptr): Flight { if k.onSlab then x else x.(heldSlabs := x.heldSlabs - {s}) }

  /** Every slab structure lies in the pages of a range that backs a slab. */
  lemma StructurePage(m: Mem, x: Flight, s: Ptr) returns (q: Ptr)
    requires Inv(m, x) && s in m.slabs
    ensures q in m.ranges && m.ranges[q].slab.Some? && Covers(m.ranges[q], PageOf(s))
  {
    hide IsObject, RangesOk, MappedOk;
    assert SlabOk(m, s);
    if m.caches[m.slabs[s].cache].onSlab {
      HeaderPage(m, x, s);
      q := m.slabs[s].range;
    } else {
      assert IsOffSlab(m, s) && AllocatedFrom(m, KSLAB_CACHE, s);
      var t := m.home[s];
      assert Allocated(m, t, s);
      ObjectPage(m, x, t, s);
      q := m.slabs[t].range;
    }
  }

  /** The place chosen for a slab structure holds no slab structure yet. */
  lemma SiteIsFresh(m: Mem, x: Flight, c: CacheId, n: Ptr, s: Ptr)
    requires Inv(m, x) && SlabSite(m, x, c, n, s)
    ensures s !in m.slabs
  {
    assert 1 <= m.caches[c].nbPages by { assert CacheOk(m, c); }
    hide IsObject, RangesOk, SlabsOk, HomeOk, SlabRangesOk, LinksOk, MappedOk, CacheOk, GeometryOk;
    if m.caches[c].onSlab {
      assert Covers(m.ranges[n], PageOf(s));
      if s in m.slabs {
        var q := StructurePage(m, x, s);
        OnePage(m, x, n, q, PageOf(s));
      }
    } else {
      HeldIsNoHeader(m, x, s);
    }
  }

  lemma HeldIsNoHeader(m: Mem, x: Flight, s: Ptr)
    requires Inv(m, x) && s in x.heldSlabs
    ensures s !in m.slabs
  {
    hide IsObject;
    if s in m.slabs {
      assert AllocatedFrom(m, KSLAB_CACHE, s) && !IsOffSlab(m, s);
      var t := m.home[s];
      assert Allocated(m, t, s) && SlabOk(m, s) && SlabOk(m, t);
      assert CacheOk(m, KSLAB_CACHE);
      ObjectPage(m, x, t, s);
      HeaderPage(m, x, s);
      OnePage(m, x, m.slabs[s].range, m.slabs[t].range, PageOf(s));
      assert t == s;
      ObjectFits(m.caches[KSLAB_CACHE], m.slabs[s].first, s);
      assert false;
    }
  }

  lemma AddSlabs(m: Mem, c: CacheId, n: Ptr, s: Ptr, f: seq<Ptr>)
    requires SlabsOk(m) && s !in m.slabs && c in m.caches && n in m.ranges && m.caches[c].createMap
    requires FullFreeList(m.caches[c], m.ranges[n].base * PAGE_SIZE, f)
    requires m.caches[c].onSlab ==> s == HeaderAddress(m.caches[c], m.ranges[n].base * PAGE_SIZE)
    ensures SlabsOk(AddSlab(m, c, n, s, f))
  {
    var m' := AddSlab(m, c, n, s, f);
    SameObjects(m, m');
    hide IsObject, GeometryOk, CacheOk, SlabOk;
    forall d | d in m'.caches ensures CacheOk(m', d) {
      assert CacheOk(m, d);
      AddCache(m, c, n, s, f, d);
    }
    forall t | t in m'.slabs ensures SlabOk(m', t) {
      if t != s { assert SlabOk(m, t); }
      AddSlabOk(m, c, n, s, f, t);
    }
  }

  lemma AddSlabOk(m: Mem, c: CacheId, n: Ptr, s: Ptr, f: seq<Ptr>, t: Ptr)
    requires s !in m.slabs && c in m.caches && n in m.ranges
    requires t in m.slabs ==> SlabOk(m, t)
    requires FullFreeList(m.caches[c], m.ranges[n].base * PAGE_SIZE, f)
    requires m.caches[c].onSlab ==> s == HeaderAddress(m.caches[c], m.ranges[n].base * PAGE_SIZE)
    requires t == s || t in m.slabs
    ensures SlabOk(AddSlab(m, c, n, s, f), t)
  {
    SameObjects(m, AddSlab(m, c, n, s, f));
    hide IsObject, NoDup;
  }

  lemma AddCache(m: Mem, c: CacheId, n: Ptr, s: Ptr, f: seq<Ptr>, d: CacheId)
    requires s !in m.slabs && c in m.caches && n in m.ranges && d in m.caches && CacheOk(m, d)
    requires |f| == m.caches[c].nbObjects && m.caches[c].createMap
    ensures CacheOk(AddSlab(m, c, n, s, f), d)
  {
    var m' := AddSlab(m, c, n, s, f);
    var l := m.caches[d].slabList;
    SameGeometry(m.caches[d], m'.caches[d]);
    assert d == c ==> 1 <= |f|;
    hide GeometryOk, IsObject;
    assert forall t :: t in l ==> m'.slabs[t] == m.slabs[t];
    SumFreeFrame(l, m.slabs, m'.slabs);
    if d == c {
      SumFreeConcat([s], l, m'.slabs);
      assert SumFree([s], m'.slabs) == |f| + SumFree([], m'.slabs);
      assert NoDup([s] + l);
    }
  }

  lemma AddHome(m: Mem, c: CacheId, n: Ptr, s: Ptr, f: seq<Ptr>)
    requires HomeOk(m) && SlabsOk(m) && s !in m.slabs && c in m.caches && n in m.ranges
    requires FullFreeList(m.caches[c], m.ranges[n].base * PAGE_SIZE, f)
    ensures HomeOk(AddSlab(m, c, n, s, f))
  {
    var m' := AddSlab(m, c, n, s, f);
    SameObjects(m, m');
    hide IsObject, SlabsOk;
    forall t, a ensures Allocated(m', t, a) <==> Allocated(m, t, a) {}
    assert m'.home == m.home;
    hide Allocated, AddSlab, FullFreeList;
  }

  lemma AddRanges(m: Mem, x: Flight, c: CacheId, n: Ptr, s: Ptr, f: seq<Ptr>)
    requires RangesOk(m, x) && MappedOk(m) && c in m.caches && n in m.ranges && n in m.usedList
    requires m.ranges[n].slab.None?
    ensures RangesOk(AddSlab(m, c, n, s, f), Placed(x, m.caches[c], s)) && MappedOk(AddSlab(m, c, n, s, f))
    ensures UserRanges(AddSlab(m, c, n, s, f)) == UserRanges(m) - {n}
  {
    var m' := AddSlab(m, c, n, s, f);
    LabelFrame(m, m', x, Placed(x, m.caches[c], s), n);
  }

  /** Only the slab link of range `n` changed. */
  lemma LabelFrame(m: Mem, m': Mem, x: Flight, x': Flight, n: Ptr)
    requires n in m.ranges && n in m'.ranges && m'.ranges == m.ranges[n := m.ranges[n].(slab := m'.ranges[n].slab)]
    requires m'.freeList == m.freeList && m'.usedList == m.usedList && m'.tile == m.tile
    requires m'.mapped == m.mapped && m'.pages == m.pages
    requires x'.pending == x.pending && x'.touchPrev == x.touchPrev && x'.touchNext == x.touchNext
    requires RangesOk(m, x) && MappedOk(m) && n in m.usedList
    ensures RangesOk(m', x') && MappedOk(m')
  {
    forall r | r in m.ranges
      ensures m'.ranges[r].base == m.ranges[r].base && m'.ranges[r].npages == m.ranges[r].npages {}
    assert forall r, p :: r in m.ranges ==> Covers(m'.ranges[r], p) == Covers(m.ranges[r], p);
  }

  lemma AddBacked(m: Mem, x: Flight, c: CacheId, n: Ptr, s: Ptr, f: seq<Ptr>, t: Ptr)
    requires s !in m.slabs && SlabSite(m, x, c, n, s) && n !in m.freeList && n !in x.pending
    requires t != s ==> t in m.slabs && Backed(m, x, t)
    ensures Backed(AddSlab(m, c, n, s, f), Placed(x, m.caches[c], s), t)
  {
    var m' := AddSlab(m, c, n, s, f);
    assert forall p :: Covers(m'.ranges[n], p) == Covers(m.ranges[n], p);
    hide Covers;
    if t != s { assert m.slabs[t].range != n; }
  }

  lemma AddSlabRanges(m: Mem, x: Flight, c: CacheId, n: Ptr, s: Ptr, f: seq<Ptr>)
    requires SlabRangesOk(m, x) && s !in m.slabs && SlabSite(m, x, c, n, s) && n !in m.freeList && n !in x.pending
    ensures SlabRangesOk(AddSlab(m, c, n, s, f), Placed(x, m.caches[c], s))
  {
    var m' := AddSlab(m, c, n, s, f);
    var x' := Placed(x, m.caches[c], s);
    assert m'.slabs.Keys == m.slabs.Keys + {s} && m'.ranges.Keys == m.ranges.Keys && m'.freeList == m.freeList;
    hide Covers, AllMapped;
    forall t | t in m'.slabs ensures Backed(m', x', t) {
      hide Backed;
      AddBacked(m, x, c, n, s, f, t);
    }
    hide Backed;
    forall q | q in m'.ranges ensures LabelOk(m', x', q) {
      assert LabelOk(m, x, q);
    }
  }

  lemma AddAllocated(m: Mem, c: CacheId, n: Ptr, s: Ptr, f: seq<Ptr>)
    requires HomeOk(m) && s !in m.slabs && c in m.caches && n in m.ranges
    ensures forall d, a :: AllocatedFrom(AddSlab(m, c, n, s, f), d, a) <==> AllocatedFrom(m, d, a)
    ensures UserObjects(AddSlab(m, c, n, s, f)) == UserObjects(m)
  {
    hide IsObject;
    var m' := AddSlab(m, c, n, s, f);
    forall a | a in m.home ensures m.home[a] in m.slabs && m'.slabs[m.home[a]] == m.slabs[m.home[a]] {
      assert Allocated(m, m.home[a], a);
    }
    assert m'.home == m.home;
    hide AddSlab, HomeOk, Allocated;
  }

  lemma AddOffSlab(m: Mem, c: CacheId, n: Ptr, s: Ptr, f: seq<Ptr>)
    requires SlabsOk(m) && s !in m.slabs && c in m.caches && n in m.ranges
    ensures forall t :: IsOffSlab(AddSlab(m, c, n, s, f), t) <==> IsOffSlab(m, t) || (t == s && !m.caches[c].onSlab)
  {
    hide CacheOk, SlabOk;
    var m' := AddSlab(m, c, n, s, f);
    forall d | d in m.caches ensures m'.caches[d].onSlab == m.caches[d].onSlab {}
  }

  /** Address `s` holds an off-slab structure now, if `off`; nothing else changes. */
  lemma LinksGrow(m: Mem, m': Mem, x: Flight, x': Flight, s: Ptr, off: bool)
    requires LinksOk(m, x) && SameDims(m, m') && m'.ranges.Keys == m.ranges.Keys
    requires forall d, a :: AllocatedFrom(m', d, a) <==> AllocatedFrom(m, d, a)
    requires forall t :: IsOffSlab(m', t) <==> IsOffSlab(m, t) || (t == s && off)
    requires off ==> s in x.heldSlabs
    requires x' == x.(heldSlabs := if off then x.heldSlabs - {s} else x.heldSlabs)
    ensures LinksOk(m', x')
  {
    CacheLinksFrame(m, m', x, x');
    hide IsOffSlab, AllocatedFrom, CacheLinks, SameDims;
    forall a ensures a in m'.ranges <==> a in m.ranges { assert a in m'.ranges.Keys <==> a in m.ranges.Keys; }
  }

  lemma AddLinks(m: Mem, x: Flight, c: CacheId, n: Ptr, s: Ptr, f: seq<Ptr>)
    requires LinksOk(m, x) && SlabsOk(m) && HomeOk(m) && s !in m.slabs && SlabSite(m, x, c, n, s)
    ensures LinksOk(AddSlab(m, c, n, s, f), Placed(x, m.caches[c], s))
  {
    AddAllocated(m, c, n, s, f);
    AddOffSlab(m, c, n, s, f);
    hide HomeOk, SlabsOk, IsOffSlab, AllocatedFrom, LinksOk, AllMapped;
    LinksGrow(m, AddSlab(m, c, n, s, f), x, Placed(x, m.caches[c], s), s, !m.caches[c].onSlab);
  }

  /** Adding a slab on a fresh range keeps the invariant; the range is no longer the caller's. */
  lemma AddKeeps(m: Mem, x: Flight, c: CacheId, n: Ptr, s: Ptr, f: seq<Ptr>)
    requires Inv(m, x) && SlabSite(m, x, c, n, s) && m.caches[c].createMap
    requires FullFreeList(m.caches[c], m.ranges[n].base * PAGE_SIZE, f)
    ensures Inv(AddSlab(m, c, n, s, f), Placed(x, m.caches[c], s))
    ensures UserRanges(AddSlab(m, c, n, s, f)) == UserRanges(m) - {n}
    ensures UserObjects(AddSlab(m, c, n, s, f)) == UserObjects(m)
    ensures s !in m.slabs
  {
    hide *;
    assert Inv(m, x) ==>
      RangesOk(m, x) && MappedOk(m) && SlabsOk(m) && HomeOk(m) && SlabRangesOk(m, x)
        && LinksOk(m, x) by { UnfoldInv(m, x); }
    SiteFacts(m, x, c, n, s);
    SiteIsFresh(m, x, c, n, s);
    AddSlabs(m, c, n, s, f);
    AddHome(m, c, n, s, f);
    AddRanges(m, x, c, n, s, f);
    NotFree(m, x, n);
    AddSlabRanges(m, x, c, n, s, f);
    AddLinks(m, x, c, n, s, f);
    AddAllocated(m, c, n, s, f);
    UnfoldInv(AddSlab(m, c, n, s, f), Placed(x, m.caches[c], s));
  }

  lemma UnfoldInv(m: Mem, x: Flight)
    ensures Inv(m, x)
      <==> RangesOk(m, x) && MappedOk(m) && SlabsOk(m) && HomeOk(m) && SlabRangesOk(m, x) && LinksOk(m, x)
  {
    hide RangesOk, MappedOk, SlabsOk, HomeOk, SlabRangesOk, LinksOk;
  }

  lemma SiteFacts(m: Mem, x: Flight, c: CacheId, n: Ptr, s: Ptr)
    requires SlabSite(m, x, c, n, s)
    ensures c in m.caches && n in m.ranges && n in m.usedList && m.ranges[n].slab.None?
    ensures m.caches[c].onSlab ==> s == HeaderAddress(m.caches[c], m.ranges[n].base * PAGE_SIZE)
  {}

  lemma NotFree(m: Mem, x: Flight, n: Ptr)
    requires RangesOk(m, x) && n in m.usedList
    ensures n in m.ranges && n !in m.freeList && n !in x.pending
  {
    hide SortedUsed, SortedFree, Covers;
  }

  // ---------------------------------------------------------------- removing a slab

  /** The slab leaves its cache; nothing may read its structure any more. */
  function RemoveSlab(m: Mem, s: Ptr): Mem
    requires s in m.slabs && m.slabs[s].cache in m.caches && s in m.caches[m.slabs[s].cache].slabList
  {
    var b := m.slabs[s];
    var k := m.caches[b.cache];
    m.(slabs := m.slabs - {s},
       caches := m.caches[b.cache := k.(nbFree := k.nbFree - b.nbFree, slabList := Without(k.slabList, s))])
  }

  function Removed(x: Flight, k: Cache, n: Ptr, s: Ptr): Flight {
    x.(dangling := x.dangling + {n}, heldSlabs := if k.onSlab then x.heldSlabs else x.heldSlabs + {s})
  }

  /** sos_kmem_vmm_set_slab(range, NULL). */
  function ClearLabel(m: Mem, n: Ptr): Mem
    requires n in m.ranges
  {
    m.(ranges := m.ranges[n := m.ranges[n].(slab := None)])
  }

  function Cleared(x: Flight, n: Ptr): Flight { x.(dangling := x.dangling - {n}) }

  predicate WholeSlabFree(m: Mem, s: Ptr) {
    s in m.slabs && m.slabs[s].cache in m.caches && s in m.caches[m.slabs[s].cache].slabList
    && m.slabs[s].nbFree >= m.caches[m.slabs[s].cache].nbObjects
  }

  lemma RemoveCache(m: Mem, s: Ptr, d: CacheId)
    requires WholeSlabFree(m, s) && d in m.caches && CacheOk(m, d) && CacheOk(m, m.slabs[s].cache)
    ensures CacheOk(RemoveSlab(m, s), d)
  {
    var m' := RemoveSlab(m, s);
    var l := m.caches[d].slabList;
    SameGeometry(m.caches[d], m'.caches[d]);
    hide GeometryOk, IsObject, FullLast;
    if d == m.slabs[s].cache {
      WithoutMembers(l, s);
      WithoutSum(l, s, m.slabs);
      WithoutFullLast(l, s, m.slabs) by { assert CacheOk(m, d); }
      hide Without;
      RemoveFullLast(Without(l, s), m.slabs, s);
      SumFreeFrame(Without(l, s), m.slabs, m'.slabs);
    } else {
      assert s !in l;
      RemoveFullLast(l, m.slabs, s);
      SumFreeFrame(l, m.slabs, m'.slabs);
    }
  }

  lemma RemoveFullLast(l: seq<Ptr>, slabs: map<Ptr, Slab>, s: Ptr)
    requires FullLast(l, slabs)
    ensures FullLast(l, slabs - {s})
  {}

  lemma RemoveSlabOk(m: Mem, s: Ptr, t: Ptr)
    requires WholeSlabFree(m, s) && t in m.slabs && t != s && SlabOk(m, t) && CacheOk(m, m.slabs[s].cache)
    ensures SlabOk(RemoveSlab(m, s), t)
  {
    var m' := RemoveSlab(m, s);
    SameObjects(m, m');
    WithoutMembers(m.caches[m.slabs[s].cache].slabList, s);
    hide IsObject, NoDup, Without, GeometryOk;
  }

  lemma RemoveSlabs(m: Mem, s: Ptr)
    requires SlabsOk(m) && WholeSlabFree(m, s)
    ensures SlabsOk(RemoveSlab(m, s))
  {
    hide CacheOk, SlabOk, Without;
    var m' := RemoveSlab(m, s);
    assert CacheOk(m, m.slabs[s].cache);
    forall d | d in m'.caches ensures CacheOk(m', d) {
      assert CacheOk(m, d);
      RemoveCache(m, s, d);
    }
    forall t | t in m'.slabs ensures SlabOk(m', t) {
      assert SlabOk(m, t);
      RemoveSlabOk(m, s, t);
    }
  }

  /** A slab whose objects are all free holds no allocated object: no live structure is lost with it. */
  lemma WholeSlabUnused(m: Mem, s: Ptr, a: Ptr)
    requires SlabsOk(m) && HomeOk(m) && WholeSlabFree(m, s) && a in m.home
    ensures m.home[a] != s
  {
    if m.home[a] == s {
      assert Allocated(m, s, a) && SlabOk(m, s) && CacheOk(m, m.slabs[s].cache);
      hide IsObject;
      AllFree(m.caches[m.slabs[s].cache], m.slabs[s].first, m.slabs[s].free);
    }
  }

  lemma RemoveUnused(m: Mem, s: Ptr)
    requires SlabsOk(m) && HomeOk(m) && WholeSlabFree(m, s)
    ensures forall a :: a in m.home ==> m.home[a] in m.slabs && m.home[a] != s
  {
    hide IsObject;
    forall a | a in m.home ensures m.home[a] in m.slabs && m.home[a] != s {
      assert Allocated(m, m.home[a], a);
      hide SlabsOk, HomeOk;
      WholeSlabUnused(m, s, a);
    }
  }

  lemma RemoveAllocated(m: Mem, s: Ptr, t: Ptr, a: Ptr)
    requires WholeSlabFree(m, s)
    ensures Allocated(RemoveSlab(m, s), t, a) <==> t != s && Allocated(m, t, a)
  {
    SameObjects(m, RemoveSlab(m, s));
    hide IsObject, Without;
  }

  lemma RemoveHome(m: Mem, s: Ptr)
    requires SlabsOk(m) && HomeOk(m) && WholeSlabFree(m, s)
    ensures HomeOk(RemoveSlab(m, s))
  {
    hide SlabsOk, Without;
    var m' := RemoveSlab(m, s);
    RemoveUnused(m, s);
    forall t, a ensures Allocated(m', t, a) <==> t != s && Allocated(m, t, a) { RemoveAllocated(m, s, t, a); }
    assert m'.home == m.home;
    hide Allocated, RemoveSlab;
  }

  lemma RemoveObjects(m: Mem, s: Ptr)
    requires SlabsOk(m) && HomeOk(m) && WholeSlabFree(m, s)
    ensures forall d, a :: AllocatedFrom(RemoveSlab(m, s), d, a) <==> AllocatedFrom(m, d, a)
    ensures UserObjects(RemoveSlab(m, s)) == UserObjects(m)
  {
    RemoveUnused(m, s);
    hide SlabsOk, HomeOk, Without;
    var m' := RemoveSlab(m, s);
    assert m'.home == m.home && m'.slabs == m.slabs - {s};
    hide RemoveSlab;
    assert forall a :: a in m.home ==> m.home[a] in m'.slabs && m'.slabs[m.home[a]] == m.slabs[m.home[a]];
  }

  lemma RemoveBacked(m: Mem, x: Flight, s: Ptr, t: Ptr)
    requires WholeSlabFree(m, s) && t in m.slabs && t != s && Backed(m, x, s) && Backed(m, x, t)
    ensures Backed(RemoveSlab(m, s), Removed(x, m.caches[m.slabs[s].cache], m.slabs[s].range, s), t)
  {
    var m' := RemoveSlab(m, s);
    hide Covers, Without;
  }

  lemma RemoveSlabRanges(m: Mem, x: Flight, s: Ptr)
    requires SlabRangesOk(m, x) && WholeSlabFree(m, s)
    ensures SlabRangesOk(RemoveSlab(m, s), Removed(x, m.caches[m.slabs[s].cache], m.slabs[s].range, s))
  {
    var m' := RemoveSlab(m, s);
    var n := m.slabs[s].range;
    var x' := Removed(x, m.caches[m.slabs[s].cache], n, s);
    assert Backed(m, x, s);
    hide Covers, Without;
    forall t | t in m'.slabs ensures Backed(m', x', t) {
      assert Backed(m, x, t);
      hide Backed;
      RemoveBacked(m, x, s, t);
    }
    forall q | q in m'.ranges ensures LabelOk(m', x', q) {
      assert LabelOk(m, x, q);
      hide Backed, AllMapped;
    }
  }

  lemma RemoveOffSlab(m: Mem, s: Ptr)
    requires SlabsOk(m) && WholeSlabFree(m, s)
    ensures forall t :: IsOffSlab(RemoveSlab(m, s), t) <==> IsOffSlab(m, t) && t != s
    ensures IsOffSlab(m, s) <==> !m.caches[m.slabs[s].cache].onSlab
    ensures RemoveSlab(m, s).ranges == m.ranges
  {
    hide CacheOk, SlabOk, Without;
    var m' := RemoveSlab(m, s);
    forall d | d in m.caches ensures m'.caches[d].onSlab == m.caches[d].onSlab {}
  }

  lemma RemoveDims(m: Mem, s: Ptr)
    requires WholeSlabFree(m, s)
    ensures SameDims(m, RemoveSlab(m, s))
  {
    hide Without;
  }

  lemma RemoveLinks(m: Mem, x: Flight, s: Ptr)
    requires LinksOk(m, x) && SlabsOk(m) && HomeOk(m) && WholeSlabFree(m, s)
    ensures LinksOk(RemoveSlab(m, s), Removed(x, m.caches[m.slabs[s].cache], m.slabs[s].range, s))
  {
    RemoveObjects(m, s);
    RemoveOffSlab(m, s);
    RemoveDims(m, s);
    var x' := Removed(x, m.caches[m.slabs[s].cache], m.slabs[s].range, s);
    hide SameDims, HomeOk, SlabsOk, IsOffSlab, AllocatedFrom, RemoveSlab, UserObjects, LinksOk;
    LinksShift(m, RemoveSlab(m, s), x, x', s);
  }

  /** Address `s` moves from holding an off-slab structure to being held, or nothing moves. */
  lemma LinksShift(m: Mem, m': Mem, x: Flight, x': Flight, s: Ptr)
    requires LinksOk(m, x) && m'.ranges == m.ranges && x'.heldRanges == x.heldRanges
    requires forall d, a :: AllocatedFrom(m', d, a) <==> AllocatedFrom(m, d, a)
    requires forall t :: IsOffSlab(m', t) <==> IsOffSlab(m, t) && t != s
    requires x'.heldSlabs == if IsOffSlab(m, s) then x.heldSlabs + {s} else x.heldSlabs
    requires x'.heldCaches == x.heldCaches && SameDims(m, m')
    ensures LinksOk(m', x')
  {
    CacheLinksFrame(m, m', x, x');
    hide IsOffSlab, AllocatedFrom, CacheLinks, SameDims;
  }

  /** Removing a slab whose objects are all free keeps the invariant; its range is left dangling. */
  lemma RemoveKeeps(m: Mem, x: Flight, s: Ptr)
    requires Inv(m, x) && WholeSlabFree(m, s)
    ensures Inv(RemoveSlab(m, s), Removed(x, m.caches[m.slabs[s].cache], m.slabs[s].range, s))
    ensures UserRanges(RemoveSlab(m, s)) == UserRanges(m)
    ensures UserObjects(RemoveSlab(m, s)) == UserObjects(m)
    ensures m.slabs[s].range in m.ranges && m.slabs[s].range in m.usedList && m.ranges[m.slabs[s].range].slab == Some(s)
    ensures m.slabs[s].range !in x.dangling
  {
    var x' := Removed(x, m.caches[m.slabs[s].cache], m.slabs[s].range, s);
    assert Backed(m, x, s);
    hide RangesOk, MappedOk, SlabsOk, HomeOk, SlabRangesOk, LinksOk, UserRanges, UserObjects, Without, Backed;
    RemoveSlabs(m, s);
    RemoveHome(m, s);
    RemoveObjects(m, s);
    RangesFrame(m, RemoveSlab(m, s), x, x');
    RemoveSlabRanges(m, x, s);
    RemoveLinks(m, x, s);
    BackedUsed(m, x, s);
  }

  lemma BackedUsed(m: Mem, x: Flight, s: Ptr)
    requires RangesOk(m, x) && s in m.slabs && Backed(m, x, s)
    ensures m.slabs[s].range in m.ranges && m.slabs[s].range in m.usedList && m.ranges[m.slabs[s].range].slab == Some(s)
    ensures m.slabs[s].range !in x.dangling
  {
    hide SortedUsed, SortedFree, Covers, AllMapped;
  }

  /** Clearing a dangling slab link makes the range an ordinary used range. */
  lemma ClearKeeps(m: Mem, x: Flight, n: Ptr)
    requires Inv(m, x) && n in x.dangling && n in m.usedList && n in m.ranges
    ensures Inv(ClearLabel(m, n), Cleared(x, n))
    ensures UserRanges(ClearLabel(m, n)) == UserRanges(m)[n := ClearLabel(m, n).ranges[n]]
    ensures UserObjects(ClearLabel(m, n)) == UserObjects(m)
  {
    hide RangesOk, MappedOk, SlabRangesOk, SlabsOk, HomeOk, LinksOk, UserRanges, UserObjects;
    LabelFrame(m, ClearLabel(m, n), x, Cleared(x, n), n);
    ClearSlabRanges(m, x, n);
    ClearSlabs(m, n);
    ClearLinks(m, x, n);
    ClearUser(m, n);
  }

  lemma ClearLinks(m: Mem, x: Flight, n: Ptr)
    requires LinksOk(m, x) && n in m.ranges
    ensures LinksOk(ClearLabel(m, n), Cleared(x, n))
  {
    var m' := ClearLabel(m, n);
    assert m'.ranges.Keys == m.ranges.Keys;
    assert forall d, a :: AllocatedFrom(m', d, a) == AllocatedFrom(m, d, a);
    assert forall t :: IsOffSlab(m', t) == IsOffSlab(m, t);
    CacheLinksFrame(m, m', x, Cleared(x, n));
    hide AllocatedFrom, IsOffSlab, ClearLabel, CacheLinks;
  }

  lemma ClearUser(m: Mem, n: Ptr)
    requires n in m.ranges && n in m.usedList
    ensures UserRanges(ClearLabel(m, n)) == UserRanges(m)[n := ClearLabel(m, n).ranges[n]]
    ensures UserObjects(ClearLabel(m, n)) == UserObjects(m)
  {}

  lemma ClearSlabs(m: Mem, n: Ptr)
    requires SlabsOk(m) && HomeOk(m) && n in m.ranges
    ensures SlabsOk(ClearLabel(m, n)) && HomeOk(ClearLabel(m, n))
  {
    var m' := ClearLabel(m, n);
    hide IsObject, GeometryOk, NoDup, FullLast;
    forall c | c in m'.caches ensures CacheOk(m', c) { assert CacheOk(m, c); }
    hide CacheOk;
    forall s | s in m'.slabs ensures SlabOk(m', s) { assert SlabOk(m, s); }
    hide SlabOk;
    forall s, a ensures Allocated(m', s, a) <==> Allocated(m, s, a) {}
    hide Allocated;
  }

  lemma ClearSlabRanges(m: Mem, x: Flight, n: Ptr)
    requires SlabRangesOk(m, x) && n in m.ranges && n in x.dangling
    ensures SlabRangesOk(ClearLabel(m, n), Cleared(x, n))
  {
    var m' := ClearLabel(m, n);
    var x' := Cleared(x, n);
    forall s | s in m'.slabs ensures Backed(m', x', s) {
      assert Backed(m, x, s) && m.slabs[s].range != n;
      hide Covers;
    }
    hide Backed;
    forall q | q in m'.ranges ensures LabelOk(m', x', q) { assert LabelOk(m, x, q); }
  }
}
