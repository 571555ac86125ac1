/**
 The memory stack comes up (os/kernel.c:381-409): physical pages, then page tables, then the first two slabs, then the
 kernel ranges. What each setup asks for is what the ones before it give, so the assertions of create_range never fail.
 */
module KernelBoot {
  import opened KmemState
  import opened KmemPages
  import opened KmemMmu
  import opened Kmem
  import KmemBoot
  import KmemFacts
  import KmemTheorems
  import P = PagingState
  import S = PagingSteps
  import Paging
  import Physmem

  /**
   Where linker/link.ld puts the kernel, and where its page descriptors may end: above the BIOS area, on a page
   boundary, and two pages below the end of the kernel area.
   */
  predicate Linked(ram: nat, bKernel: nat, eKernel: nat) {
    bKernel % 4096 == 0 && Physmem.BIOS_N_VIDEO_END <= bKernel < eKernel
    && Physmem.CoreTop(Physmem.AlignInf(ram), eKernel) + 2 * 4096 <= TOP_PAGE * 4096
  }

  /** The pages of the kernel area that are mapped once `top` pages of the kernel and its first slabs are. */
  ghost predicate BootPages(v: map<int, Frame>, core: int, top: int) {
    forall p :: InArea(p) ==> (p in v <==> 0xa0 <= p < 0x100 || core <= p < top)
  }

  /** The tables that are there then, as the mirror shows them. */
  ghost predicate BootTables(v: map<int, Frame>, core: int, top: int) {
    forall q :: MIRROR_PAGE <= q < MIRROR_PAGE + P.MIRROR ==>
      (q in v <==> q == MIRROR_PAGE || (core < top && core / 1024 <= q - MIRROR_PAGE <= (top - 1) / 1024))
  }

  /** How many pages are free once those of the kernel, of its page descriptors and of the BIOS area are taken. */
  function FirstFree(ram: nat, bKernel: nat, coreTop: nat): int {
    ram / 4096 - 1 - (0x100000 - 0xa0000) / 4096 - (coreTop - bKernel) / 4096
  }

  /** What is mapped in the kernel area is memory that the machine has. */
  ghost predicate Known(v: map<int, Frame>, n: nat) { forall p :: InArea(p) && p in v ==> v[p] < n }

  /** The pages that the paging setup maps are in use from the start. */
  lemma CoreIsHeld(held: seq<int>, bKernel: nat, base: nat, top: nat)
    requires bKernel < top && base == Physmem.AlignInf(bKernel) && top % 4096 == 0
    requires Physmem.BIOS_N_VIDEO_START <= bKernel && (bKernel % 4096 == 0 || bKernel < Physmem.BIOS_N_VIDEO_END)
    requires forall p :: 0 <= p < |held| ==>
      held[p] == if Physmem.InUse(Physmem.Classify(p * 4096, bKernel, top)) then 1 else 0
    ensures forall f :: Paging.Mmu.IdentityMapped(f, base, top) ==> S.Owned(|held|, held, f)
  {
    Physmem.KernelIsProtected(bKernel, top);
    forall f: nat | Paging.Mmu.IdentityMapped(f, base, top) && f < |held| ensures held[f] == 1 {
      var a: nat := f * 4096;
      assert a % 4096 == 0;
      if base / 4096 <= f < top / 4096 { assert base <= a < top; }
      assert Physmem.InUse(Physmem.Classify(a, bKernel, top));
    }
  }

  /** After the paging setup, no physical page is behind two pages of which one is in the kernel area. */
  lemma FirstView(mem: P.Memory, pd: P.Pfn, base: nat, top: nat, r: map<Frame, Ptr>)
    requires P.Shape(mem, pd) && S.NoAlias(mem, pd) && Physmem.BIOS_N_VIDEO_END <= base <= top <= TOP_PAGE * 4096
    requires base % 4096 == 0 && top % 4096 == 0 && top <= |mem| * 4096
    requires forall p :: 0 <= p < P.PAGES && p / 1024 != P.MIRROR ==>
      P.Walk(mem, pd, p) == if Paging.Mmu.IdentityMapped(p, base, top) then P.Some(P.Mapping(p, true, false))
        else P.None
    ensures NoZero(mem, pd) && BootPages(View(mem, pd), base / 4096, top / 4096)
    ensures KmemBoot.OneFrameEach(Pages(View(mem, pd), r)) && Known(View(mem, pd), |mem|)
  {
    forall p {:trigger P.Walk(mem, pd, p)} | 0 <= p < P.PAGES && P.Walk(mem, pd, p).Some?
      ensures FrameAt(mem, pd, p) != 0 && (p / 1024 != P.MIRROR ==> FrameAt(mem, pd, p) == p)
    {
      ShowsTable(mem, pd, p);
    }
    forall p, q | p in View(mem, pd) && q in View(mem, pd) && InArea(p) && p != q
      ensures View(mem, pd)[p] != View(mem, pd)[q]
    {
      ShowsTable(mem, pd, p);
      ShowsTable(mem, pd, q);
    }
  }

  lemma FirstMirror(mem: P.Memory, pd: P.Pfn, refs: seq<nat>, held: seq<int>, base: nat, top: nat)
    requires S.VmOk(mem, pd, refs, held) && NoZero(mem, pd)
    requires base % 4096 == 0 && top % 4096 == 0 && base <= top
    requires forall p :: 0 <= p < P.PAGES && p / 1024 != P.MIRROR ==>
      P.Walk(mem, pd, p) == if Paging.Mmu.IdentityMapped(p, base, top) then P.Some(P.Mapping(p, true, false))
        else P.None
    ensures BootTables(View(mem, pd), base / 4096, top / 4096)
  {
    forall q | MIRROR_PAGE <= q < MIRROR_PAGE + P.MIRROR
      ensures q in View(mem, pd)
        <==> q == MIRROR_PAGE || (base < top && base / 4096 / 1024 <= q - MIRROR_PAGE <= (top / 4096 - 1) / 1024)
    {
      var i := q - MIRROR_PAGE;
      Paging.FirstTables(mem, pd, refs, held, base, top, i);
      P.SelfMap(mem, pd, i);
      assert MIRROR_PAGE + i == P.MIRROR * 1024 + i;
      assert P.Walk(mem, pd, P.MIRROR * 1024 + i).Some? <==> P.HasTable(mem, pd, i);
    }
  }

  /** Mapping a page that nothing maps keeps it so. */
  lemma OneMoreFrame(v: map<int, Frame>, v': map<int, Frame>, kr: seq<int>, p: int, f: Frame, t: Option<Frame>,
      r: map<Frame, Ptr>)
    requires Put(v, v', kr, p, f, t) && InArea(p) && p !in v && f !in v.Values && KmemBoot.OneFrameEach(Pages(v, r))
    ensures KmemBoot.OneFrameEach(Pages(v', r))
  {
    forall q | q in v ensures v[q] != f && (t.Some? ==> v[q] != t.value) { assert v[q] in v.Values; }
    assert !InArea(MirrorPage(p));
  }

  /** os/physmem.c and hwcore/paging.c come up. No machine is given where the source returns an error. */
  method SetupPaging(ram: nat, bKernel: nat, eKernel: nat, memory: P.Memory) returns (mmu: Paging.Mmu?)
    requires Linked(ram, bKernel, eKernel) && |memory| == ram / 4096
    ensures mmu != null ==> fresh(mmu) && fresh(mmu.pages) && fresh(mmu.pages.refCnt) && fresh(mmu.pages.kernelRange)
    ensures mmu != null ==> mmu.Valid() && NoZero(mmu.mem, mmu.pd) && Physmem.NoOwners(mmu.pages.kernelRange[..])
    ensures mmu != null ==> var v := View(mmu.mem, mmu.pd);
      && BootPages(v, bKernel / 4096, Physmem.CoreTop(Physmem.AlignInf(ram), eKernel) / 4096)
      && BootTables(v, bKernel / 4096, Physmem.CoreTop(Physmem.AlignInf(ram), eKernel) / 4096)
      && KmemBoot.OneFrameEach(Pages(v, map[])) && Known(v, |mmu.mem|)
    ensures var top := Physmem.CoreTop(Physmem.AlignInf(ram), eKernel);
      (mmu != null <==> top <= Physmem.AlignInf(ram)
                        && FirstFree(ram, bKernel, top) >= 1 + Paging.TablesFor(bKernel, top))
    ensures mmu != null ==> var top := Physmem.CoreTop(Physmem.AlignInf(ram), eKernel);
      |mmu.pages.free| == FirstFree(ram, bKernel, top) - 1 - Paging.TablesFor(bKernel, top)
  {
    hide View, P.Walk, KmemBoot.OneFrameEach, BootPages, BootTables, Known, Paging.TablesFor, S.VmOk;
    mmu := null;
    var pages := new Physmem.PhysPages();
    var r, base, top := pages.Setup(ram, bKernel, eKernel);
    if r != Physmem.OK { return; }
    var m := new Paging.Mmu(pages, memory);
    CoreIsHeld(m.held, bKernel, base, top);
    var q := m.Setup(base, top);
    if q != Paging.OK { return; }
    ValidParts(m);
    VmParts(m.mem, m.pd, m.pages.refCnt[..], m.held);
    FirstView(m.mem, m.pd, base, top, map[]);
    FirstMirror(m.mem, m.pd, m.pages.refCnt[..], m.held, base, top);
    mmu := m;
  }

  lemma VmParts(mem: P.Memory, pd: P.Pfn, refs: seq<nat>, held: seq<int>)
    requires S.VmOk(mem, pd, refs, held)
    ensures P.Shape(mem, pd) && S.NoAlias(mem, pd)
  {}

  /**
   The two loops of sos_kmem_cache_subsystem_setup_prepare that map the first slabs, of one page each, after the kernel.
   False where the source halts for want of a physical page, which is when fewer are free than the two slabs and their
   tables take; the other assertions there do not fail.
   */
  method MapSlabs(mmu: Paging.Mmu, core: int, page: int) returns (ok: bool)
    requires mmu.Valid() && NoZero(mmu.mem, mmu.pd) && 0x100 <= core <= page && page + 2 <= TOP_PAGE
    requires BootPages(View(mmu.mem, mmu.pd), core, page) && KmemBoot.OneFrameEach(Pages(View(mmu.mem, mmu.pd), map[]))
    requires Known(View(mmu.mem, mmu.pd), |mmu.mem|) && BootTables(View(mmu.mem, mmu.pd), core, page)
    modifies mmu`mem, mmu`tlb, mmu`held, mmu.pages, mmu.pages.refCnt, mmu.pages.kernelRange
    ensures mmu.Valid() && NoZero(mmu.mem, mmu.pd) && mmu.pages.kernelRange[..] == old(mmu.pages.kernelRange[..])
    ensures ok <==> |old(mmu.pages.free)| >= SlabsCost(core, page, 2)
    ensures ok ==> |mmu.pages.free| == |old(mmu.pages.free)| - SlabsCost(core, page, 2)
    ensures ok ==> BootPages(View(mmu.mem, mmu.pd), core, page + 2)
    ensures ok ==> KmemBoot.OneFrameEach(Pages(View(mmu.mem, mmu.pd), map[]))
    ensures mmu.pages.refCnt == old(mmu.pages.refCnt) && mmu.pages.kernelRange == old(mmu.pages.kernelRange)
    ensures ok ==> Known(View(mmu.mem, mmu.pd), |mmu.mem|)
  {
    hide S.VmOk, View, P.Walk, Paging.Mmu.Valid, NoZero, Put, KmemBoot.OneFrameEach, BootPages, BootTables, Known;
    hide Cost, Paging.TablesFor, SlabsCost;
    NoCost(core, page);
    var i := 0;
    while i < 2
      invariant 0 <= i <= 2 && mmu.Valid() && NoZero(mmu.mem, mmu.pd)
      invariant mmu.pages.refCnt == old(mmu.pages.refCnt) && mmu.pages.kernelRange == old(mmu.pages.kernelRange)
      invariant mmu.pages.kernelRange[..] == old(mmu.pages.kernelRange[..])
      invariant BootPages(View(mmu.mem, mmu.pd), core, page + i) && BootTables(View(mmu.mem, mmu.pd), core, page + i)
      invariant |mmu.pages.free| == |old(mmu.pages.free)| - SlabsCost(core, page, i)
      invariant KmemBoot.OneFrameEach(Pages(View(mmu.mem, mmu.pd), map[])) && Known(View(mmu.mem, mmu.pd), |mmu.mem|)
    {
      ghost var v, kr := View(mmu.mem, mmu.pd), mmu.pages.kernelRange[..];
      NotYet(v, core, page + i);
      OneMoreCost(v, core, page, i);
      var f;
      ghost var t;
      ok, f, t := MapFresh(mmu, page + i);
      CostGrows(core, page, i + 1, 2);
      if !ok { return; }
      OneMoreFrame(v, View(mmu.mem, mmu.pd), kr, page + i, f, t, map[]);
      OneMorePage(v, View(mmu.mem, mmu.pd), kr, core, page + i, f, t);
      OneMoreTable(v, View(mmu.mem, mmu.pd), kr, core, page + i, f, t);
      OneMoreKnown(v, View(mmu.mem, mmu.pd), kr, page + i, f, t, |mmu.mem|);
      i := i + 1;
    }
    ok := true;
  }

  lemma NotYet(v: map<int, Frame>, core: int, page: int)
    requires BootPages(v, core, page) && 0x100 <= core <= page < TOP_PAGE
    ensures InArea(page) && page !in v
  {}

  lemma OneMorePage(v: map<int, Frame>, v': map<int, Frame>, kr: seq<int>, core: int, page: int, f: Frame,
      t: Option<Frame>)
    requires BootPages(v, core, page) && 0x100 <= core <= page < TOP_PAGE && Put(v, v', kr, page, f, t)
    ensures BootPages(v', core, page + 1)
  {
    assert !InArea(MirrorPage(page));
  }

  lemma OneMoreTable(v: map<int, Frame>, v': map<int, Frame>, kr: seq<int>, core: int, page: int, f: Frame,
      t: Option<Frame>)
    requires BootTables(v, core, page) && 0x100 <= core <= page < TOP_PAGE && Put(v, v', kr, page, f, t)
    ensures BootTables(v', core, page + 1)
  {
    forall q | MIRROR_PAGE <= q < MIRROR_PAGE + P.MIRROR
      ensures q in v' <==> q == MIRROR_PAGE || core / 1024 <= q - MIRROR_PAGE <= page / 1024
    {
      assert q in v' <==> q in v || q - MIRROR_PAGE == page / 1024;
      assert page / 1024 == (page - 1) / 1024 || page / 1024 == (page - 1) / 1024 + 1;
    }
  }

  /** How many physical pages the first `n` pages after the kernel take: their own, and those of their tables. */
  function SlabsCost(core: int, page: int, n: int): int
    requires 0 <= core <= page && 0 <= n
  {
    n + Paging.TablesFor(core * 4096, (page + n) * 4096) - Paging.TablesFor(core * 4096, page * 4096)
  }

  lemma NoCost(core: int, page: int)
    requires 0 <= core <= page
    ensures SlabsCost(core, page, 0) == 0
  {}

  lemma CostGrows(core: int, page: int, n: nat, more: nat)
    requires 0 <= core <= page && n <= more
    ensures SlabsCost(core, page, n) <= SlabsCost(core, page, more)
  {}

  lemma CostOfSlabs(bKernel: nat, top: nat)
    requires bKernel % 4096 == 0 && top % 4096 == 0 && bKernel <= top
    ensures SlabsCost(bKernel / 4096, top / 4096, 2)
      == 2 + Paging.TablesFor(bKernel, top + 2 * 4096) - Paging.TablesFor(bKernel, top) >= 2
  {}

  lemma OneMoreCost(v: map<int, Frame>, core: int, page: int, n: nat)
    requires BootTables(v, core, page + n) && 0x100 <= core <= page && page + n < TOP_PAGE
    ensures SlabsCost(core, page, n + 1) == SlabsCost(core, page, n) + Cost(v.Keys, page + n)
  {
    var p := page + n;
    assert p * 4096 / 0x400000 == p / 1024 && core * 4096 / 0x400000 == core / 1024;
    assert core < p ==> (p * 4096 - 1) / 0x400000 == (p - 1) / 1024;
    assert ((p + 1) * 4096 - 1) / 0x400000 == p / 1024;
    assert MIRROR_PAGE + p / 1024 in v <==> p / 1024 == 0 || (core < p && p / 1024 <= (p - 1) / 1024);
  }

  lemma OneMoreKnown(v: map<int, Frame>, v': map<int, Frame>, kr: seq<int>, page: int, f: Frame, t: Option<Frame>,
      n: nat)
    requires Known(v, n) && InArea(page) && f < n && Put(v, v', kr, page, f, t)
    ensures Known(v', n)
  {
    assert !InArea(MirrorPage(page));
  }

  /**
   The body of the loop of create_range, on the machine: the descriptor of the physical page behind page `p` says that
   it belongs to range `e`. The source asserts that there is one.
   */
  method OwnPage(mmu: Paging.Mmu, e: Ptr, p: int)
    requires mmu.Valid() && e != 0 && InArea(p) && p in View(mmu.mem, mmu.pd) && Known(View(mmu.mem, mmu.pd), |mmu.mem|)
    modifies mmu`tlb, mmu.pages.kernelRange
    ensures mmu.Valid() && p in View(mmu.mem, mmu.pd)
    ensures var g := old(PagesOf(mmu)); PagesOf(mmu) == g.(rangeOf := g.rangeOf[g.frameOf[p] := e])
  {
    hide S.VmOk, P.Walk, P.Shape, Paging.Mmu.Valid, Known;
    ValidParts(mmu);
    PageAddress(p);
    MappedIsUsed(mmu.mem, mmu.pd, mmu.pages.refCnt[..], mmu.held, p);
    var paddr := mmu.GetPaddr(p * 4096);
    assert paddr == View(mmu.mem, mmu.pd)[p] * 4096;
    TellOwner(mmu, paddr / 4096, e);
  }

  lemma MappedIsUsed(mem: P.Memory, pd: P.Pfn, refs: seq<nat>, held: seq<int>, p: int)
    requires S.VmOk(mem, pd, refs, held) && InArea(p) && p in View(mem, pd) && Known(View(mem, pd), |mem|)
    ensures S.Managed(|mem|, View(mem, pd)[p]) && |refs| == |mem| && refs[View(mem, pd)[p]] > 0
  {
    FreeIffUnmapped(mem, pd, refs, held, View(mem, pd)[p]);
    hide S.VmOk;
  }

  /** The loop of create_range: what `KmemBoot.OwnPages` does to the owners of pages, the page descriptors do too. */
  method OwnRange(mmu: Paging.Mmu, e: Ptr, base: int, top: int)
    requires mmu.Valid() && e != 0 && BASE_PAGE <= base && top <= TOP_PAGE && Known(View(mmu.mem, mmu.pd), |mmu.mem|)
    requires forall p :: base <= p < top ==> p in View(mmu.mem, mmu.pd)
    modifies mmu`tlb, mmu.pages.kernelRange
    ensures mmu.Valid() && PagesOf(mmu) == KmemBoot.OwnAll(old(PagesOf(mmu)), e, base, top)
  {
    hide S.VmOk, View, Owners, Paging.Mmu.Valid, Known;
    var page := base;
    while page < top
      invariant base <= page && (page <= top || page == base)
      invariant mmu.Valid() && PagesOf(mmu) == KmemBoot.OwnAll(old(PagesOf(mmu)), e, base, page)
    {
      OwnPage(mmu, e, page);
      page := page + 1;
    }
  }

  /** Every create_range call of the setup, in turn: the page descriptors tell what the allocator takes them to tell. */
  method OwnRanges(mmu: Paging.Mmu, k: Allocator)
    requires mmu.Valid() && Known(View(mmu.mem, mmu.pd), |mmu.mem|) && Physmem.NoOwners(mmu.pages.kernelRange[..])
    requires Inv(k.St(), NOTHING) && KmemBoot.Told(k.St()) && k.frameOf == View(mmu.mem, mmu.pd)
    requires KmemBoot.UsedMapped(k.St())
    modifies mmu`tlb, mmu.pages.kernelRange
    ensures mmu.Valid() && PagesOf(mmu) == k.St().pages
  {
    hide S.VmOk, View, Paging.Mmu.Valid, Known, Inv, AllMapped, KmemBoot.OwnAll;
    ghost var g := PagesOf(mmu);
    assert g == Pages(k.frameOf, map[]);
    var i := 0;
    while i < |k.usedList|
      invariant 0 <= i <= |k.usedList| && mmu.Valid()
      invariant PagesOf(mmu) == KmemBoot.OwnUsed(g, k.ranges, k.usedList[..i])
    {
      var r := k.usedList[i];
      UsedRange(k.St(), r);
      OwnRange(mmu, r, k.ranges[r].base, End(k.ranges[r]));
      assert k.usedList[..i + 1][..i] == k.usedList[..i];
      i := i + 1;
    }
    assert k.usedList[..i] == k.usedList;
  }

  lemma UsedRange(m: Mem, r: Ptr)
    requires Inv(m, NOTHING) && KmemBoot.UsedMapped(m) && r in m.usedList
    ensures r != 0 && r in m.ranges && BASE_PAGE <= m.ranges[r].base && End(m.ranges[r]) <= TOP_PAGE
    ensures forall p :: m.ranges[r].base <= p < End(m.ranges[r]) ==> p in m.pages.frameOf
  {
    KmemFacts.UsedFacts(m, NOTHING);
    KmemTheorems.StructuresStayMapped(m, NOTHING, r);
    KmemTheorems.RangesApart(m, r, r);
    hide RangesOk, SlabsOk, HomeOk, SlabRangesOk, LinksOk, OwnersOk;
    assert Names(m.pages, PageOf(r), m.slabs[m.home[r]].range);
    forall p | m.ranges[r].base <= p < End(m.ranges[r]) ensures p in m.pages.frameOf {
      assert Covers(m.ranges[r], p);
      assert Names(m.pages, p, m.mapped[p]);
    }
  }

  /**
   The first page of the mirror shows the table of the BIOS area, which has no owner: freeing its address, where no
   block ever is, does not report an error but halts.
   */
  lemma FirstMirrorPage(mem: P.Memory, pd: P.Pfn, m: Mem, core: int, top: int)
    requires P.Shape(mem, pd) && Inv(m, NOTHING) && m.pages.frameOf == View(mem, pd)
    requires BootPages(View(mem, pd), core, top)
    ensures Unowned(m.pages, PageOf(P.MIRROR_VADDR))
  {
    hide RangesOk, OwnersOk, SlabsOk, HomeOk, SlabRangesOk, LinksOk;
    assert 0xa0 in View(mem, pd) && P.HasTable(mem, pd, 0);
    MirrorUnowned(mem, pd, m.mapped, m.pages, 0);
    assert PageOf(P.MIRROR_VADDR) == P.MIRROR * 1024;
  }

  /**
   The memory stack comes up, for a kernel linked where linker/link.ld puts it, and a bootstrap stack inside it: the
   invariant of the allocator holds, and what it takes for mapped pages and their owners is what the MMU finds and the
   page descriptors tell. It gives no machine where the source returns an error or halts, which is exactly when there
   are not enough physical pages: for the page descriptors, the directory, the tables of the BIOS area, of the kernel
   and of its first two slabs, and these slabs.
   */
  method Boot(k: Allocator, ram: nat, bKernel: nat, eKernel: nat, memory: P.Memory, stack: int, stackTop: int)
    returns (mmu: Paging.Mmu?)
    requires Linked(ram, bKernel, eKernel) && |memory| == ram / 4096
    requires bKernel / 4096 <= stack <= stackTop <= Physmem.CoreTop(Physmem.AlignInf(ram), eKernel) / 4096
    modifies k
    ensures mmu != null ==> fresh(mmu) && mmu.Valid() && NoZero(mmu.mem, mmu.pd)
    ensures mmu != null ==> Inv(k.St(), NOTHING) && 2 <= Reserve(k.St()) && k.frameOf == View(mmu.mem, mmu.pd)
    ensures mmu != null ==> PagesOf(mmu) == k.St().pages && Unowned(PagesOf(mmu), PageOf(P.MIRROR_VADDR))
    ensures var top := Physmem.CoreTop(Physmem.AlignInf(ram), eKernel);
      (mmu != null <==> top <= Physmem.AlignInf(ram)
                        && FirstFree(ram, bKernel, top) >= 1 + Paging.TablesFor(bKernel, top + 2 * 4096) + 2)
    ensures mmu != null ==> var top := Physmem.CoreTop(Physmem.AlignInf(ram), eKernel);
      |mmu.pages.free| == FirstFree(ram, bKernel, top) - 1 - Paging.TablesFor(bKernel, top + 2 * 4096) - 2
  {
    hide View, P.Walk, KmemBoot.OneFrameEach, Inv, S.VmOk, Paging.Mmu.Valid, NoZero, Known, KmemBoot.Told;
    hide BootTables, Paging.TablesFor, FirstFree, SlabsCost;
    mmu := null;
    CostOfSlabs(bKernel, Physmem.CoreTop(Physmem.AlignInf(ram), eKernel));
    var m := SetupPaging(ram, bKernel, eKernel, memory);
    if m == null { return; }
    var core, top := bKernel / 4096, Physmem.CoreTop(Physmem.AlignInf(ram), eKernel) / 4096;
    var ok := MapSlabs(m, core, top);
    if !ok { return; }
    k.frameOf, k.rangeOf := View(m.mem, m.pd), Owners(m.pages.kernelRange[..]);
    assert k.rangeOf == map[];
    KmemBoot.Setup(k, core, top, stack, stackTop);
    OwnRanges(m, k);
    ValidParts(m);
    FirstMirrorPage(m.mem, m.pd, k.St(), core, top + 2);
    mmu := m;
  }

  /**
   The directory page that the paging setup allocates without testing it is there if and only if the setup of physical
   pages succeeded, whose result os/kernel.c does not test either.
   */
  method DirectoryExactly(ram: nat, bKernel: nat, eKernel: nat) returns (r: Physmem.Ret, directory: nat)
    requires bKernel < eKernel
    ensures directory == 0 <==> r == Physmem.ENOMEM
    ensures r == Physmem.ENOMEM <==> Physmem.CoreTop(Physmem.AlignInf(ram), eKernel) > Physmem.AlignInf(ram)
  {
    var pages := new Physmem.PhysPages();
    var base, top;
    r, base, top := pages.Setup(ram, bKernel, eKernel);
    if pages.free == [] { return r, 0; }
    directory := pages.RefNew();
  }
}
