/**
 Whole ranges on the machine: the loops of sos_kmem_vmm_new_range and sos_kmem_vmm_del_range (os/kmem_vmm.c) that map
 and unmap the pages of a range change page tables and page descriptors as `Kmem.Allocator` takes them to do, and a
 range that cannot be mapped to its end leaves them as they were.
 */
module KmemMmuRange {
  import opened KmemState
  import opened KmemPages
  import opened KmemMmu
  import KmemRangeSteps
  import P = PagingState
  import S = PagingSteps
  import Paging
  import Physmem

  // ---------------------------------------------------------------- what mapping a range changes

  /** Page `q` of the mirror shows the table of a page in [`base`, `base` + `n`). */
  ghost predicate ShowsTableOf(q: int, base: int, n: int) { exists p :: base <= p < base + n && q == MirrorPage(p) }

  /** A page of the kernel area is no page of the mirror. */
  lemma NotShown(q: int, base: int, n: int)
    requires InArea(q) && BASE_PAGE <= base
    ensures !ShowsTableOf(q, base, n)
  {}

  lemma ShownWider(q: int, base: int, k: int, n: int)
    requires ShowsTableOf(q, base, k) && k <= n
    ensures ShowsTableOf(q, base, n)
  {
    var p :| base <= p < base + k && q == MirrorPage(p);
    assert base <= p < base + n;
  }

  lemma ShownFirst(q: int, base: int, n: nat)
    requires n > 0
    ensures ShowsTableOf(q, base, n) <==> q == MirrorPage(base) || ShowsTableOf(q, base + 1, n - 1)
  {
    if ShowsTableOf(q, base, n) { var u :| base <= u < base + n && q == MirrorPage(u); }
    if ShowsTableOf(q, base + 1, n - 1) {
      var u :| base + 1 <= u < base + n && q == MirrorPage(u);
      assert base <= u < base + n;
    }
    if q == MirrorPage(base) { assert base <= base < base + n; }
  }

  /** The physical pages behind the pages of [`base`, `base` + `n`). */
  function FramesIn(g: Pages, base: int, n: nat): set<Frame> {
    if n == 0 then {} else FramesIn(g, base, n - 1) + Behind(g, base + n - 1)
  }

  /** Nothing is mapped at the pages of [`base`, `base` + `n`), in the kernel area. */
  ghost predicate Empty(g: Pages, base: int, n: int) {
    BASE_PAGE <= base && base + n <= TOP_PAGE && forall p :: base <= p < base + n ==> p !in g.frameOf
  }

  /** None of the pages taken had an owner. */
  ghost predicate Clean(g: Pages, taken: seq<Taken>) {
    forall i :: 0 <= i < |taken| ==>
      taken[i].page !in g.rangeOf && (taken[i].table.Some? ==> taken[i].table.value !in g.rangeOf)
  }

  /** The last step of mapping a range, and those before it. */
  lemma LastStep(g: Pages, g': Pages, base: int, taken: seq<Taken>, n: Ptr) returns (h: Pages)
    requires NewPages(g, g', base, taken, n) && Empty(g, base, |taken|) && Clean(g, taken) && taken != []
    ensures BASE_PAGE <= base
    ensures var k := |taken| - 1;
      && NewPages(g, h, base, taken[..k], n) && Empty(g, base, k) && Clean(g, taken[..k])
      && NewPage(h, g', base + k, n, taken[k].page, taken[k].table)
      && InArea(base + k) && base + k !in g.frameOf && (forall p :: base <= p < base + k ==> InArea(p))
      && taken[k].page !in g.rangeOf && (taken[k].table.Some? ==> taken[k].table.value !in g.rangeOf)
  {
    h := WithPages(g, base, taken[..|taken| - 1], n);
    hide NewPage, WithPage;
  }

  /** Mapping a range adds its pages, and the tables it needed. */
  lemma {:induction false} MappedFrames(g: Pages, g': Pages, base: int, taken: seq<Taken>, n: Ptr)
    requires NewPages(g, g', base, taken, n) && Empty(g, base, |taken|)
    ensures forall q :: q in g.frameOf ==> q in g'.frameOf && g'.frameOf[q] == g.frameOf[q]
    ensures forall q :: q in g'.frameOf && q !in g.frameOf ==>
      base <= q < base + |taken| || ShowsTableOf(q, base, |taken|)
    ensures forall q :: base <= q < base + |taken| ==> q in g'.frameOf
    decreases |taken|
  {
    if taken == [] {
    } else {
      var k := |taken| - 1;
      var h := WithPages(g, base, taken[..k], n);
      MappedFrames(g, h, base, taken[..k], n);
      assert !InArea(MirrorPage(base + k));
      forall q | q in g'.frameOf && q !in g.frameOf
        ensures base <= q < base + |taken| || ShowsTableOf(q, base, |taken|)
      {
        if q in h.frameOf {
          if ShowsTableOf(q, base, k) {
            var p :| base <= p < base + k && q == MirrorPage(p);
            assert ShowsTableOf(q, base, |taken|);
          }
        } else if q != base + k {
          assert q == MirrorPage(base + k);
        }
      }
    }
  }

  lemma {:induction false} FramesInStay(g: Pages, g': Pages, base: int, n: nat)
    requires forall p :: base <= p < base + n ==> p in g.frameOf && p in g'.frameOf && g'.frameOf[p] == g.frameOf[p]
    ensures FramesIn(g', base, n) == FramesIn(g, base, n)
  {
    if n > 0 { FramesInStay(g, g', base, n - 1); }
  }

  lemma {:induction false} FramesInAre(g: Pages, base: int, n: nat)
    ensures forall f :: f in FramesIn(g, base, n) <==>
      exists p :: base <= p < base + n && p in g.frameOf && g.frameOf[p] == f
  {
    if n == 0 {
    } else {
      FramesInAre(g, base, n - 1);
    }
  }

  /** ... and makes the pages it took name the range, while others keep their owners. */
  lemma {:induction false} MappedOwners(g: Pages, g': Pages, base: int, taken: seq<Taken>, n: Ptr)
    requires NewPages(g, g', base, taken, n) && Empty(g, base, |taken|) && Clean(g, taken)
    ensures g'.rangeOf - FramesIn(g', base, |taken|) == g.rangeOf
    ensures forall f :: f in g.rangeOf ==> f in g'.rangeOf
    decreases |taken|
  {
    hide NewPages, NewPage, Empty, Clean, FramesIn, ShowsTableOf, MirrorPage;
    if taken == [] {
      NothingMapped(g, g', base, n);
    } else {
      var k := |taken| - 1;
      var h := LastStep(g, g', base, taken, n);
      MappedOwners(g, h, base, taken[..k], n);
      MappedFrames(g, h, base, taken[..k], n);
      NotShown(base + k, base, k);
      LastMapped(g, h, g', base, k, n, taken[k]);
    }
  }

  lemma NothingMapped(g: Pages, g': Pages, base: int, n: Ptr)
    requires NewPages(g, g', base, [], n)
    ensures g' == g && g'.rangeOf - FramesIn(g', base, 0) == g.rangeOf
  {}

  lemma LastMapped(g: Pages, h: Pages, g': Pages, base: int, k: nat, n: Ptr, last: Taken)
    requires NewPage(h, g', base + k, n, last.page, last.table) && base + k !in h.frameOf && InArea(base + k)
    requires h.rangeOf - FramesIn(h, base, k) == g.rangeOf && (forall f :: f in g.rangeOf ==> f in h.rangeOf)
    requires forall p :: base <= p < base + k ==> p in h.frameOf && InArea(p)
    requires last.page !in g.rangeOf && (last.table.Some? ==> last.table.value !in g.rangeOf)
    ensures g'.rangeOf - FramesIn(g', base, k + 1) == g.rangeOf && (forall f :: f in g.rangeOf ==> f in g'.rangeOf)
  {
    assert !InArea(MirrorPage(base + k));
    FramesInStay(h, g', base, k);
    FramesInAre(h, base, k);
    forall f | f in h.frameOf.Values ensures f != last.page && last.table != Some(f) {}
    forall p | base <= p < base + k ensures h.frameOf[p] in h.frameOf.Values {}
    assert Behind(g', base + k) == {last.page};
    assert FramesIn(g', base, k + 1) == FramesIn(h, base, k) + {last.page};
    var r := g'.rangeOf - FramesIn(g', base, k + 1);
    forall f ensures f in r <==> f in g.rangeOf {
      assert f in g.rangeOf <==> f in h.rangeOf && f !in FramesIn(h, base, k);
    }
    forall f | f in r ensures r[f] == g.rangeOf[f] {
      assert f in h.rangeOf && f !in FramesIn(h, base, k);
      assert g.rangeOf[f] == (h.rangeOf - FramesIn(h, base, k))[f];
    }
  }

  /** Unmapping a range takes its pages away, the owners of what was behind them, and no more than their tables. */
  lemma {:induction false} UnmapAllIs(g: Pages, base: int, n: nat)
    requires BASE_PAGE <= base && base + n <= TOP_PAGE
    ensures forall q :: q in UnmapAll(g, base, n).frameOf ==>
      q in g.frameOf && UnmapAll(g, base, n).frameOf[q] == g.frameOf[q] && !(base <= q < base + n)
    ensures forall q :: q in g.frameOf && q !in UnmapAll(g, base, n).frameOf ==>
      base <= q < base + n || ShowsTableOf(q, base, n)
    ensures UnmapAll(g, base, n).rangeOf == g.rangeOf - FramesIn(g, base, n)
  {
    if n == 0 {
    } else {
      var p, h, g' := base + n - 1, UnmapAll(g, base, n - 1), UnmapAll(g, base, n);
      UnmapAllIs(g, base, n - 1);
      assert !ShowsTableOf(p, base, n - 1);
      assert Behind(h, p) == Behind(g, p);
      assert g'.rangeOf == h.rangeOf - Behind(h, p);
      forall q | q in g.frameOf && q !in g'.frameOf ensures base <= q < base + n || ShowsTableOf(q, base, n) {
        if q in h.frameOf {
          if q != p { assert q == MirrorPage(p); }
        } else if ShowsTableOf(q, base, n - 1) {
          var u :| base <= u < base + n - 1 && q == MirrorPage(u);
          assert ShowsTableOf(q, base, n);
        }
      }
    }
  }

  // ---------------------------------------------------------------- mapping and undoing

  /** The mirror shows a table exactly where something is mapped through it. */
  ghost predicate TablesShown(g: Pages) {
    forall p :: InArea(p) ==> (MirrorPage(p) in g.frameOf <==> SomeIn(g, p / TABLE_PAGES))
  }

  ghost predicate SomeIn(g: Pages, i: int) { exists q :: q in g.frameOf && q / TABLE_PAGES == i }

  lemma TablesAreShown(mem: P.Memory, pd: P.Pfn, refs: seq<nat>, held: seq<int>, r: map<Frame, Ptr>)
    requires S.VmOk(mem, pd, refs, held) && NoZero(mem, pd)
    ensures TablesShown(Pages(View(mem, pd), r))
  {
    var g := Pages(View(mem, pd), r);
    forall p | InArea(p) ensures MirrorPage(p) in g.frameOf <==> SomeIn(g, p / TABLE_PAGES) {
      var i := p / TABLE_PAGES;
      TableShown(mem, pd, refs, held, p);
      if P.HasTable(mem, pd, i) {
        var q := TableNotEmpty(mem, pd, held, i);
        assert q in g.frameOf;
      }
      if SomeIn(g, i) {
        var q :| q in g.frameOf && q / TABLE_PAGES == i;
        assert P.Walk(mem, pd, q).Some?;
      }
    }
  }

  /** Mapping some pages of a range, then unmapping the whole range, changes nothing. */
  lemma Undone(g: Pages, g': Pages, base: int, taken: seq<Taken>, e: Ptr, n: nat)
    requires NewPages(g, g', base, taken, e) && Clean(g, taken) && |taken| <= n && Empty(g, base, n)
    requires TablesShown(g) && TablesShown(UnmapAll(g', base, n))
    ensures UnmapAll(g', base, n) == g
  {
    hide NewPages, Clean, UnmapAll, ShowsTableOf, Empty, TablesShown, FramesIn;
    var u := UnmapAll(g', base, n);
    EmptyArea(g, base, n);
    UnmapAllIs(g', base, n);
    MappedFrames(g, g', base, taken, e);
    MappedOwners(g, g', base, taken, e);
    NoneBeyond(g, g', base, |taken|, n);
    FramesBeyond(g', base, |taken|, n);
    UndonePages(g, g', u, base, |taken|, n);
    forall q | ShowsTableOf(q, base, n) ensures q in u.frameOf <==> q in g.frameOf {
      UndoneTables(g, u, base, n, q);
    }
    assert u.rangeOf == g.rangeOf;
    assert u.frameOf == g.frameOf;
  }

  lemma EmptyArea(g: Pages, base: int, n: int)
    requires Empty(g, base, n)
    ensures BASE_PAGE <= base && base + n <= TOP_PAGE && forall k :: k <= n ==> Empty(g, base, k)
  {}

  lemma NoneBeyond(g: Pages, g': Pages, base: int, k: nat, n: nat)
    requires Empty(g, base, n) && k <= n
    requires forall q :: q in g'.frameOf && q !in g.frameOf ==> base <= q < base + k || ShowsTableOf(q, base, k)
    ensures forall p :: base + k <= p < base + n ==> p !in g'.frameOf
  {
    forall p | base + k <= p < base + n ensures p !in g'.frameOf {
      assert InArea(p);
      if ShowsTableOf(p, base, k) { assert false; }
    }
  }

  lemma {:induction false} FramesBeyond(g: Pages, base: int, k: nat, n: nat)
    requires k <= n && forall p :: base + k <= p < base + n ==> p !in g.frameOf
    ensures FramesIn(g, base, n) == FramesIn(g, base, k)
    decreases n
  {
    if k < n { FramesBeyond(g, base, k, n - 1); }
  }

  /** Outside the mirror. */
  lemma UndonePages(g: Pages, g': Pages, u: Pages, base: int, k: nat, n: nat)
    requires Empty(g, base, n) && k <= n
    requires forall q :: q in g.frameOf ==> q in g'.frameOf && g'.frameOf[q] == g.frameOf[q]
    requires forall q :: q in g'.frameOf && q !in g.frameOf ==> base <= q < base + k || ShowsTableOf(q, base, k)
    requires forall q :: q in u.frameOf ==> q in g'.frameOf && u.frameOf[q] == g'.frameOf[q] && !(base <= q < base + n)
    requires forall q :: q in g'.frameOf && q !in u.frameOf ==> base <= q < base + n || ShowsTableOf(q, base, n)
    ensures forall q :: !ShowsTableOf(q, base, n) ==> (q in u.frameOf <==> q in g.frameOf)
  {
    hide ShowsTableOf;
    forall q | !ShowsTableOf(q, base, n) ensures q in u.frameOf <==> q in g.frameOf {
      if ShowsTableOf(q, base, k) { ShownWider(q, base, k, n); }
    }
  }

  /** In the mirror. */
  lemma UndoneTables(g: Pages, u: Pages, base: int, n: nat, q: int)
    requires BASE_PAGE <= base && base + n <= TOP_PAGE && TablesShown(g) && TablesShown(u) && ShowsTableOf(q, base, n)
    requires forall q :: !ShowsTableOf(q, base, n) ==> (q in u.frameOf <==> q in g.frameOf)
    ensures q in u.frameOf <==> q in g.frameOf
  {
    var p :| base <= p < base + n && q == MirrorPage(p);
    var i := p / TABLE_PAGES;
    assert InArea(p) && i < TOP_PAGE / TABLE_PAGES;
    forall s {:trigger s in g.frameOf} | s / TABLE_PAGES == i ensures s in u.frameOf <==> s in g.frameOf {
      LowPage(s, base, n);
    }
    assert SomeIn(g, i) <==> SomeIn(u, i);
  }

  lemma LowPage(s: int, base: int, n: int)
    requires BASE_PAGE <= base && s < TOP_PAGE
    ensures !ShowsTableOf(s, base, n)
  {}

  // ---------------------------------------------------------------- the cost of a range

  /** The pages of the mirror for the tables that the pages of [`base`, `base` + `n`) still need. */
  function Missing(mapped: set<int>, base: int, n: nat): set<int> {
    if n == 0 then {} else Missing(mapped, base, n - 1) + ({MirrorPage(base + n - 1)} - mapped)
  }

  lemma {:induction false} MissingAre(mapped: set<int>, base: int, n: nat)
    ensures forall q :: q in Missing(mapped, base, n) <==> q !in mapped && ShowsTableOf(q, base, n)
  {
    if n == 0 {
    } else {
      MissingAre(mapped, base, n - 1);
      var p := base + n - 1;
      assert ShowsTableOf(MirrorPage(p), base, n);
      forall q ensures ShowsTableOf(q, base, n) <==> ShowsTableOf(q, base, n - 1) || q == MirrorPage(p) {
        if ShowsTableOf(q, base, n - 1) {
          var u :| base <= u < base + n - 1 && q == MirrorPage(u);
          assert ShowsTableOf(q, base, n);
        }
      }
    }
  }

  /** Mapping the first page of a range brings its table, if it was missing. */
  lemma MissingStep(mapped: set<int>, base: int, n: nat)
    requires n > 0 && BASE_PAGE <= base && base + n <= TOP_PAGE
    ensures |Missing(mapped, base, n)|
      == |Missing(mapped + {base, MirrorPage(base)}, base + 1, n - 1)| + Cost(mapped, base) - 1
  {
    var m := MirrorPage(base);
    var a, b := Missing(mapped, base, n), Missing(mapped + {base, m}, base + 1, n - 1);
    MissingAre(mapped, base, n);
    MissingAre(mapped + {base, m}, base + 1, n - 1);
    NotShown(base, base, n);
    hide Missing, ShowsTableOf, MirrorPage;
    forall q ensures q in b <==> q in a && q != m { ShownFirst(q, base, n); }
    ShownFirst(m, base, n);
    assert b == a - {m};
  }

  // ---------------------------------------------------------------- the loops

  /** Only the mapping holds the physical pages behind [`base`, `base` + `n`). */
  ghost predicate HeldByNone(g: Pages, held: seq<int>, base: int, n: int) {
    forall p :: base <= p < base + n ==> !HeldToo(g, held, p)
  }

  /**
   The unmapping loop of sos_kmem_vmm_del_range: page tables and page descriptors change as the loop of the allocator,
   `Kmem.Allocator.UnmapPages`, changes its own tables.
   */
  method UnmapOwnPages(mmu: Paging.Mmu, base: int, n: nat, ghost mapped: map<int, Ptr>)
    requires mmu.Valid() && NoZero(mmu.mem, mmu.pd) && FramesOk(mapped, PagesOf(mmu))
    requires BASE_PAGE <= base && base + n <= TOP_PAGE && HeldByNone(PagesOf(mmu), mmu.held, base, n)
    modifies mmu`mem, mmu`tlb, mmu.pages, mmu.pages.refCnt, mmu.pages.kernelRange
    ensures mmu.Valid() && NoZero(mmu.mem, mmu.pd)
    ensures mmu.pages.refCnt == old(mmu.pages.refCnt) && mmu.pages.kernelRange == old(mmu.pages.kernelRange)
    ensures PagesOf(mmu) == UnmapAll(old(PagesOf(mmu)), base, n)
  {
    hide S.VmOk, View, Paging.Mmu.Valid, NoZero, FramesOk, UnmapOne, HeldByNone, Owners, ShowsTableOf;
    ghost var g := PagesOf(mmu);
    var i := 0;
    while i < n
      invariant 0 <= i <= n && mmu.Valid() && NoZero(mmu.mem, mmu.pd)
      invariant mmu.pages.refCnt == old(mmu.pages.refCnt) && mmu.pages.kernelRange == old(mmu.pages.kernelRange)
      invariant PagesOf(mmu) == UnmapAll(g, base, i)
    {
      UnmapAllOk(mapped, g, base, i);
      StillHeldByNone(g, mmu.held, base, i, n);
      UnmapOwnPage(mmu, base + i, WithoutPages(mapped, base, base + i));
      i := i + 1;
    }
  }

  lemma StillHeldByNone(g: Pages, held: seq<int>, base: int, i: nat, n: nat)
    requires HeldByNone(g, held, base, n) && i < n && BASE_PAGE <= base && base + n <= TOP_PAGE
    ensures !HeldToo(UnmapAll(g, base, i), held, base + i)
  {
    UnmapAllIs(g, base, i);
    assert !HeldToo(g, held, base + i);
    hide UnmapAll, FramesIn, ShowsTableOf;
  }

  /** What holds after some pages of a range were mapped, and before the others are. */
  ghost predicate Halfway(g: Pages, g': Pages, held: seq<int>, base: int, taken: seq<Taken>, e: Ptr, n: nat) {
    && NewPages(g, g', base, taken, e) && Clean(g, taken) && |taken| <= n && Empty(g, base, n)
    && HeldByNone(g', held, base, n)
  }

  lemma HalfwayStart(g: Pages, held: seq<int>, base: int, e: Ptr, n: nat)
    requires Empty(g, base, n)
    ensures Halfway(g, g, held, base, [], e, n)
  {}

  lemma HalfwayFacts(g: Pages, h: Pages, held: seq<int>, base: int, taken: seq<Taken>, e: Ptr, n: nat)
    requires Halfway(g, h, held, base, taken, e, n)
    ensures BASE_PAGE <= base && base + n <= TOP_PAGE
    ensures forall p :: base + |taken| <= p < base + n ==> p !in h.frameOf && InArea(p)
    ensures forall f :: f in g.rangeOf ==> f in h.rangeOf
  {
    hide NewPages, Clean;
    assert Empty(g, base, |taken|);
    MappedFrames(g, h, base, taken, e);
    MappedOwners(g, h, base, taken, e);
    NoneBeyond(g, h, base, |taken|, n);
  }

  lemma HalfwayStep(g: Pages, h: Pages, g': Pages, held: seq<int>, base: int, taken: seq<Taken>, e: Ptr, n: nat,
      last: Taken)
    requires Halfway(g, h, held, base, taken, e, n) && |taken| < n && InArea(base + |taken|)
    requires last.page < |held| && held[last.page] == 0
    requires NewPage(h, g', base + |taken|, e, last.page, last.table)
    requires last.page !in h.rangeOf && (last.table.Some? ==> last.table.value !in h.rangeOf)
    ensures Halfway(g, g', held, base, taken + [last], e, n)
  {
    hide NewPage, NewPages, Clean, HeldByNone, Empty;
    HalfwayFacts(g, h, held, base, taken, e, n);
    NewPagesStep(g, h, g', base, taken, e, last);
    assert Clean(g, taken + [last]) by { CleanStep(g, taken, last); }
    assert HeldByNone(g', held, base, n) by { HeldStep(h, g', held, base, n, base + |taken|, e, last); }
  }

  lemma CleanStep(g: Pages, taken: seq<Taken>, last: Taken)
    requires Clean(g, taken) && last.page !in g.rangeOf && (last.table.Some? ==> last.table.value !in g.rangeOf)
    ensures Clean(g, taken + [last])
  {}

  lemma HeldStep(h: Pages, g': Pages, held: seq<int>, base: int, n: nat, p: int, e: Ptr, last: Taken)
    requires HeldByNone(h, held, base, n) && NewPage(h, g', p, e, last.page, last.table)
    requires BASE_PAGE <= base && base + n <= TOP_PAGE && InArea(p)
    requires last.page < |held| && held[last.page] == 0
    ensures HeldByNone(g', held, base, n)
  {
    forall q | base <= q < base + n ensures !HeldToo(g', held, q) {
      assert InArea(q) && q != MirrorPage(p) && !HeldToo(h, held, q);
    }
  }

  lemma KeysStep(h: Pages, g': Pages, p: int, e: Ptr, last: Taken)
    requires NewPage(h, g', p, e, last.page, last.table)
    ensures g'.frameOf.Keys == h.frameOf.Keys + {p, MirrorPage(p)}
  {}

  /**
   The mapping loop of sos_kmem_vmm_new_range, as `Kmem.Allocator.MapRange` takes it to be. It reaches the end exactly
   if there are as many free physical pages as pages to map and tables that are missing.
   */
  method MapOwnPages(mmu: Paging.Mmu, base: int, n: nat, e: Ptr, ghost mapped: map<int, Ptr>)
    returns (ok: bool, ghost taken: seq<Taken>, ghost mapped': map<int, Ptr>)
    requires mmu.Valid() && NoZero(mmu.mem, mmu.pd) && FramesOk(mapped, PagesOf(mmu)) && e != 0
    requires Empty(PagesOf(mmu), base, n)
    modifies mmu`mem, mmu`tlb, mmu`held, mmu.pages, mmu.pages.refCnt, mmu.pages.kernelRange
    ensures mmu.Valid() && NoZero(mmu.mem, mmu.pd) && FramesOk(mapped', PagesOf(mmu)) && mmu.held == old(mmu.held)
    ensures mmu.pages.refCnt == old(mmu.pages.refCnt) && mmu.pages.kernelRange == old(mmu.pages.kernelRange)
    ensures Halfway(old(PagesOf(mmu)), PagesOf(mmu), mmu.held, base, taken, e, n) && (ok ==> |taken| == n)
    ensures ok <==> |old(mmu.pages.free)| >= n + |Missing(old(PagesOf(mmu)).frameOf.Keys, base, n)|
  {
    hide S.VmOk, View, Paging.Mmu.Valid, NoZero, FramesOk, NewPage, Owners, Halfway, Missing, Cost, MirrorPage, Empty,
      P.Walk, Physmem.PhysPages.Valid;
    ghost var g := PagesOf(mmu);
    taken, mapped' := [], mapped;
    EmptyArea(g, base, n);
    HalfwayStart(g, mmu.held, base, e, n);
    var i := 0;
    while i < n
      invariant 0 <= i <= n && mmu.Valid() && NoZero(mmu.mem, mmu.pd) && FramesOk(mapped', PagesOf(mmu))
      invariant mmu.pages.refCnt == old(mmu.pages.refCnt) && mmu.pages.kernelRange == old(mmu.pages.kernelRange)
      invariant mmu.held == old(mmu.held)
      invariant |taken| == i && Halfway(g, PagesOf(mmu), mmu.held, base, taken, e, n)
      invariant |mmu.pages.free| - (n - i) - |Missing(PagesOf(mmu).frameOf.Keys, base + i, n - i)|
        == |old(mmu.pages.free)| - n - |Missing(g.frameOf.Keys, base, n)|
    {
      ghost var h := PagesOf(mmu);
      HalfwayFacts(g, h, mmu.held, base, taken, e, n);
      MissingStep(h.frameOf.Keys, base + i, n - i);
      var f;
      ghost var t;
      ok, f, t := MapNewPage(mmu, base + i, e);
      if !ok { return; }
      Mapped(mapped', h, PagesOf(mmu), base + i, e, f, t);
      mapped' := mapped'[base + i := e];
      HalfwayStep(g, h, PagesOf(mmu), mmu.held, base, taken, e, n, Taken(f, t));
      KeysStep(h, PagesOf(mmu), base + i, e, Taken(f, t));
      taken := taken + [Taken(f, t)];
      i := i + 1;
    }
    NoneMissing(PagesOf(mmu).frameOf.Keys, base + n);
    ok := true;
  }

  lemma NoneMissing(mapped: set<int>, base: int)
    ensures Missing(mapped, base, 0) == {}
  {}

  lemma Mapped(mapped: map<int, Ptr>, h: Pages, g': Pages, p: int, e: Ptr, f: Frame, t: Option<Frame>)
    requires FramesOk(mapped, h) && InArea(p) && NewPage(h, g', p, e, f, t)
    ensures FramesOk(mapped[p := e], g')
  {
    WithPageOk(mapped, h, p, e, f, t);
  }

  /**
   sos_kmem_vmm_new_range with SOS_KMEM_VMM_MAP, as far as the machine goes, on a range of which nothing is mapped: the
   range is mapped, or del_range unmaps it and everything is as it was.
   */
  method MapOwnRange(mmu: Paging.Mmu, base: int, n: nat, e: Ptr, ghost mapped: map<int, Ptr>)
    returns (ok: bool, ghost taken: seq<Taken>)
    requires mmu.Valid() && NoZero(mmu.mem, mmu.pd) && FramesOk(mapped, PagesOf(mmu)) && e != 0
    requires Empty(PagesOf(mmu), base, n)
    modifies mmu`mem, mmu`tlb, mmu`held, mmu.pages, mmu.pages.refCnt, mmu.pages.kernelRange
    ensures mmu.Valid() && NoZero(mmu.mem, mmu.pd) && mmu.held == old(mmu.held)
    ensures ok ==> |taken| == n && NewPages(old(PagesOf(mmu)), PagesOf(mmu), base, taken, e)
    ensures !ok ==> PagesOf(mmu) == old(PagesOf(mmu))
    ensures ok <==> |old(mmu.pages.free)| >= n + |Missing(old(PagesOf(mmu)).frameOf.Keys, base, n)|
  {
    hide S.VmOk, View, Paging.Mmu.Valid, NoZero, FramesOk, NewPages, Owners, Empty, HeldByNone, Clean, UnmapAll,
      Missing;
    ghost var g := PagesOf(mmu);
    EmptyArea(g, base, n);
    Shown(mmu);
    ghost var mapped';
    ok, taken, mapped' := MapOwnPages(mmu, base, n, e, mapped);
    if !ok {
      ghost var g' := PagesOf(mmu);
      UnmapOwnPages(mmu, base, n, mapped');
      Shown(mmu);
      Undone(g, g', base, taken, e, n);
    }
  }

  /** In the allocator's own state, a range of which no page is mapped is one that the machine can map. */
  lemma BareIsEmpty(m: Mem, x: Flight, r: Ptr)
    requires Inv(m, x) && r in m.ranges && Bare(m, r)
    ensures FramesOk(m.mapped, m.pages) && Empty(m.pages, m.ranges[r].base, m.ranges[r].npages)
  {
    hide OwnersOk, SlabsOk, HomeOk, SlabRangesOk, LinksOk;
    KmemRangeSteps.RangesUnfold(m, x);
    forall p | m.ranges[r].base <= p < End(m.ranges[r]) ensures p !in m.pages.frameOf {
      assert Covers(m.ranges[r], p);
    }
  }

  lemma Shown(mmu: Paging.Mmu)
    requires mmu.Valid() && NoZero(mmu.mem, mmu.pd)
    ensures TablesShown(PagesOf(mmu))
  {
    ValidParts(mmu);
    TablesAreShown(mmu.mem, mmu.pd, mmu.pages.refCnt[..], mmu.held, Owners(mmu.pages.kernelRange[..]));
  }
}
