/**
 Where objects and slab structures lie inside their slab, and why two of them never share a byte
 (os/kmem_slab.c:102-171, 175-211, 253-261, 732-739).
 */
module KmemGeometry {
  import opened KmemState

  /** `DivideError`: the CPU takes that exception. */
  datatype InitResult = Accepted(cache: Cache) | Invalid | TooLarge | DivideError

  const WORD := 0x1_0000_0000

  /** SOS_ALIGN_SUP(v, 4), for sizes that do not wrap around. */
  function AlignInt(v: int): int { (v - 1) / 4 * 4 + 4 }

  /** The object size cache_initialize settles on. */
  function AllocSize(objSize: int): int { AlignInt(if objSize < FREE_OBJECT_SIZE then FREE_OBJECT_SIZE else objSize) }

  /** As many objects of `size` bytes as fit in `space` bytes, and no more. */
  predicate IsCapacity(nb: int, size: int, space: int) { 0 <= nb && nb * size <= space < (nb + 1) * size }

  /**
   cache_initialize, for a structure at address `at`. `onSlab` is the ON_SLAB flag, which only the boot code passes. The
   slab structure also goes on the slab when objects are no bigger than it, or when the objects leave enough room for
   it. The alignment of a size above WORD - 4 wraps around to zero, by which the number of objects is then divided.
   */
  method CacheInitialize(at: Ptr, objSize: int, pages: int, minFree: int, createMap: bool, onSlab: bool)
    returns (r: InitResult)
    requires 0 <= objSize < WORD && 0 <= pages < WORD && 0 <= minFree < WORD
    ensures r.DivideError? <==> objSize > WORD - 4 && pages <= MAX_PAGES_PER_SLAB
    ensures r.Accepted? ==>
      && 1 <= objSize <= r.cache.objSize == AllocSize(objSize) && 1 <= pages <= MAX_PAGES_PER_SLAB
      && r.cache == Cache(at, objSize, AllocSize(objSize), r.cache.nbObjects, pages, minFree, createMap,
        r.cache.onSlab, 0, [])
      && minFree <= r.cache.nbObjects
    ensures r.Accepted? ==> IsCapacity(r.cache.nbObjects, r.cache.objSize,
      pages * PAGE_SIZE - (if onSlab || r.cache.objSize <= SLAB_STRUCT_SIZE then SLAB_STRUCT_SIZE else 0))
    ensures r.Accepted? ==>
      r.cache.objSize % 4 == 0 && FREE_OBJECT_SIZE <= r.cache.objSize < 4 + (if objSize < FREE_OBJECT_SIZE
        then FREE_OBJECT_SIZE else objSize)
    ensures r.Accepted? ==>
      (r.cache.onSlab <==> onSlab || r.cache.nbObjects * r.cache.objSize + SLAB_STRUCT_SIZE <= pages * PAGE_SIZE)
    ensures r.Accepted? ==> (GeometryOk(r.cache) <==> 1 <= r.cache.nbObjects)
    ensures r.Accepted? && !onSlab ==> GeometryOk(r.cache)
    ensures objSize <= WORD - 4 ==> (r.Invalid? || r.TooLarge? <==>
      || objSize == 0 || AllocSize(objSize) > pages * PAGE_SIZE || pages > MAX_PAGES_PER_SLAB
      || minFree * AllocSize(objSize) > pages * PAGE_SIZE - (if onSlab
        || AllocSize(objSize) <= SLAB_STRUCT_SIZE then SLAB_STRUCT_SIZE else 0))
    ensures objSize > WORD - 4 ==> !r.Accepted?
  {
    if objSize == 0 { return Invalid; }
    SizeFacts(objSize);
    hide AllocSize, AlignInt, IsCapacity;
    var size := AllocSize(objSize) % WORD;
    if size == 0 { return if pages > MAX_PAGES_PER_SLAB then TooLarge else DivideError; }
    if size > (pages * PAGE_SIZE) % WORD {
      return Invalid;
    }
    if pages > MAX_PAGES_PER_SLAB { return TooLarge; }
    var isOnSlab := onSlab;
    if size <= SLAB_STRUCT_SIZE { isOnSlab := true; }
    var left := pages * PAGE_SIZE;
    if isOnSlab { left := left - SLAB_STRUCT_SIZE; }
    ghost var space := left;
    var nb := left / size;
    left := left - nb * size;
    CapacityFacts(space, size, nb, minFree);
    if nb < minFree { return Invalid; }
    if left >= SLAB_STRUCT_SIZE { isOnSlab := true; }
    r := Accepted(Cache(at, objSize, size, nb, pages, minFree, createMap, isOnSlab, 0, []));
  }

  lemma SizeFacts(objSize: int)
    requires 1 <= objSize
    ensures FREE_OBJECT_SIZE <= AllocSize(objSize) && objSize <= AllocSize(objSize) && AllocSize(objSize) % 4 == 0
    ensures AllocSize(objSize) < 4 + (if objSize < FREE_OBJECT_SIZE then FREE_OBJECT_SIZE else objSize)
    ensures objSize <= WORD - 4 ==> AllocSize(objSize) < WORD
    ensures WORD - 4 < objSize < WORD ==> AllocSize(objSize) == WORD
  {}

  lemma CapacityFacts(space: int, size: int, nb: int, minFree: int)
    requires 0 <= space && 0 < size && nb == space / size
    ensures IsCapacity(nb, size, space) && 0 <= space - nb * size < size
    ensures nb < minFree <==> minFree * size > space
    ensures size <= space ==> 1 <= nb
  {
    assert space == nb * size + space % size;
    assert (nb + 1) * size == nb * size + size;
    if nb < minFree { MulMono(nb + 1, minFree, size); } else { MulMono(minFree, nb, size); }
    if nb < 0 { MulMono(nb + 1, 0, size); }
    if size <= space && nb < 1 { MulMono(nb + 1, 1, size); }
  }

  /** An object lies inside the pages of its slab and stops before an on-slab slab structure. */
  lemma ObjectFits(k: Cache, first: Ptr, a: Ptr)
    requires GeometryOk(k) && IsObject(k, first, a)
    ensures first <= a && a + k.objSize <= first + k.nbPages * PAGE_SIZE - Header(k)
  {
    var i := (a - first) / k.objSize;
    assert a - first == i * k.objSize;
    assert (i + 1) * k.objSize <= k.nbObjects * k.objSize by { MulMono(i + 1, k.nbObjects, k.objSize); }
    assert (i + 1) * k.objSize == i * k.objSize + k.objSize;
  }

  lemma MulMono(i: int, j: int, n: int)
    requires i <= j && 0 <= n
    ensures i * n <= j * n
  {
    assert (j - i) * n >= 0;
    assert j * n == i * n + (j - i) * n;
  }

  /** Two objects of one slab are the same or do not overlap. */
  lemma ObjectsApart(k: Cache, first: Ptr, a: Ptr, b: Ptr)
    requires IsObject(k, first, a) && IsObject(k, first, b) && a < b
    ensures a + k.objSize <= b
  {
    var i, j := (a - first) / k.objSize, (b - first) / k.objSize;
    assert a - first == i * k.objSize && b - first == j * k.objSize;
    if j <= i { MulMono(j, i, k.objSize); assert false; }
    MulMono(i + 1, j, k.objSize);
    assert (i + 1) * k.objSize == i * k.objSize + k.objSize;
  }

  /** The i-th object of a slab, as cache_add_slab computes it, passes free_object's test. */
  lemma NthObject(k: Cache, first: Ptr, i: int)
    requires 0 <= i < k.nbObjects && 0 < k.objSize
    ensures IsObject(k, first, first + i * k.objSize)
    ensures (first + i * k.objSize - first) / k.objSize == i
  {
    MulMono(0, i, k.objSize);
    DivMulExact(i, k.objSize);
  }

  lemma DivMulExact(i: int, n: int)
    requires 0 <= i && 0 < n
    ensures (i * n) / n == i && (i * n) % n == 0
  {
    var q, r := (i * n) / n, (i * n) % n;
    assert i * n == q * n + r;
    if q < i { MulMono(q + 1, i, n); }
    if i < q { MulMono(i + 1, q, n); }
  }

  /** Slab indices, and the addresses they stand for, are two ways to name the same objects. */
  lemma ObjectIndex(k: Cache, first: Ptr, a: Ptr)
    requires IsObject(k, first, a)
    ensures 0 <= (a - first) / k.objSize < k.nbObjects
    ensures a == first + ((a - first) / k.objSize) * k.objSize
  {
  }

  function Indices(k: Cache, first: Ptr, f: seq<Ptr>): (r: set<int>)
    requires k.objSize > 0
  {
    set a | a in f :: (a - first) / k.objSize
  }

  /** A free list as long as the slab has objects contains every one of them. */
  lemma AllFree(k: Cache, first: Ptr, f: seq<Ptr>)
    requires NoDup(f) && |f| >= k.nbObjects >= 0 && k.objSize > 0
    requires forall a :: a in f ==> IsObject(k, first, a)
    ensures forall a :: IsObject(k, first, a) ==> a in f
  {
    var hit := Indices(k, first, f);
    IndicesCount(k, first, f);
    forall i | i in hit ensures i in Below(k.nbObjects) {
      var a :| a in f && i == (a - first) / k.objSize;
      ObjectIndex(k, first, a);
    }
    SubsetFull(hit, Below(k.nbObjects));
    forall a | IsObject(k, first, a) ensures a in f {
      ObjectIndex(k, first, a);
      assert (a - first) / k.objSize in hit;
      var b :| b in f && (b - first) / k.objSize == (a - first) / k.objSize;
      ObjectIndex(k, first, b);
    }
  }

  /** A free list is never longer than the slab has objects, and as long exactly when it contains every one of them. */
  lemma AllFreeExactly(k: Cache, first: Ptr, f: seq<Ptr>)
    requires NoDup(f) && k.nbObjects >= 0 && k.objSize > 0
    requires forall a :: a in f ==> IsObject(k, first, a)
    ensures |f| <= k.nbObjects
    ensures |f| == k.nbObjects <==> forall a :: IsObject(k, first, a) ==> a in f
  {
    var hit := Indices(k, first, f);
    IndicesCount(k, first, f);
    forall i | i in hit ensures i in Below(k.nbObjects) {
      var a :| a in f && i == (a - first) / k.objSize;
      ObjectIndex(k, first, a);
    }
    SubsetCount(hit, Below(k.nbObjects));
    if |f| == k.nbObjects { AllFree(k, first, f); }
    if forall a :: IsObject(k, first, a) ==> a in f {
      forall i | i in Below(k.nbObjects) ensures i in hit {
        NthObject(k, first, i);
        assert first + i * k.objSize in f;
      }
      assert hit == Below(k.nbObjects);
    }
  }

  lemma SubsetCount(a: set<int>, b: set<int>)
    requires a <= b
    ensures |a| <= |b|
  {
    assert |b - a| == |b| - |a| by { assert a * b == a; }
  }

  lemma {:induction false} IndicesCount(k: Cache, first: Ptr, f: seq<Ptr>)
    requires NoDup(f) && k.objSize > 0
    requires forall a :: a in f ==> IsObject(k, first, a)
    ensures |Indices(k, first, f)| == |f|
  {
    if f != [] {
      var i := (f[0] - first) / k.objSize;
      assert f[0] in f;
      assert forall a :: a in f <==> a == f[0] || a in f[1..];
      IndicesCount(k, first, f[1..]);
      assert Indices(k, first, f) == {i} + Indices(k, first, f[1..]);
      if i in Indices(k, first, f[1..]) {
        var b :| b in f[1..] && i == (b - first) / k.objSize;
        ObjectIndex(k, first, b);
        ObjectIndex(k, first, f[0]);
        assert false;
      }
    }
  }

  function Below(n: nat): (r: set<int>)
    ensures |r| == n && forall i :: i in r <==> 0 <= i < n
  {
    if n == 0 then {} else Below(n - 1) + {n - 1}
  }

  lemma SubsetFull(a: set<int>, b: set<int>)
    requires a <= b && |a| >= |b|
    ensures a == b
  {
    assert |b - a| == |b| - |a| by { assert a * b == a; }
  }

  // ---------------------------------------------------------------- objects of different slabs

  /** An object, and an on-slab structure, lie in the pages of the range that backs the slab. */
  lemma ObjectPage(m: Mem, x: Flight, s: Ptr, a: Ptr)
    requires SlabsOk(m) && SlabRangesOk(m, x) && s in m.slabs && m.slabs[s].cache in m.caches
    requires IsObject(m.caches[m.slabs[s].cache], m.slabs[s].first, a)
    ensures m.slabs[s].range in m.ranges && Covers(m.ranges[m.slabs[s].range], PageOf(a))
  {
    assert CacheOk(m, m.slabs[s].cache) && Backed(m, x, s);
    ObjectFits(m.caches[m.slabs[s].cache], m.slabs[s].first, a);
    hide SlabsOk, IsObject, GeometryOk, CacheOk;
  }

  lemma HeaderPage(m: Mem, x: Flight, s: Ptr)
    requires SlabsOk(m) && SlabRangesOk(m, x) && s in m.slabs
    requires m.slabs[s].cache in m.caches && m.caches[m.slabs[s].cache].onSlab
    ensures m.slabs[s].range in m.ranges && Covers(m.ranges[m.slabs[s].range], PageOf(s))
  {
    assert CacheOk(m, m.slabs[s].cache) && SlabOk(m, s) && Backed(m, x, s);
    hide IsObject;
  }

  /** No page lies in two ranges. */
  lemma OnePage(m: Mem, x: Flight, r: Ptr, q: Ptr, p: int)
    requires RangesOk(m, x) && r in m.ranges && q in m.ranges && Covers(m.ranges[r], p) && Covers(m.ranges[q], p)
    ensures r == q
  {
    hide SortedFree, SortedUsed;
  }

  /** An address is an object of at most one slab. */
  lemma SlabsApart(m: Mem, x: Flight, s: Ptr, t: Ptr, a: Ptr)
    requires RangesOk(m, x) && SlabsOk(m) && SlabRangesOk(m, x) && s in m.slabs && t in m.slabs
    requires m.slabs[s].cache in m.caches && m.slabs[t].cache in m.caches
    requires IsObject(m.caches[m.slabs[s].cache], m.slabs[s].first, a)
    requires IsObject(m.caches[m.slabs[t].cache], m.slabs[t].first, a)
    ensures s == t
  {
    ObjectPage(m, x, s, a);
    ObjectPage(m, x, t, a);
    OnePage(m, x, m.slabs[s].range, m.slabs[t].range, PageOf(a));
    hide RangesOk, SlabsOk, IsObject;
  }
}
