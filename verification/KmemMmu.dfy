/**
 The physical pages behind the kernel area, as the allocator sees them (`KmemPages`), are what the MMU finds (`Paging`):
 a page is free exactly when it is mapped nowhere and nobody holds it, mapping and unmapping a page change both alike,
 and the mirror shows page tables, which have no owner.
 */
module KmemMmu {
  import opened KmemState
  import opened KmemPages
  import P = PagingState
  import S = PagingSteps
  import Paging
  import Physmem

  /** The frame the MMU finds behind page `p`; 0 if there is none. */
  function FrameAt(mem: P.Memory, pd: P.Pfn, p: int): Frame
    requires 0 <= p < P.PAGES
  {
    match P.Walk(mem, pd, p)
    case None => 0
    case Some(m) => m.pfn
  }

  /** What sos_paging_get_paddr finds for each page of the address space. */
  function View(mem: P.Memory, pd: P.Pfn): (v: map<int, Frame>)
    ensures forall p :: p in v <==> 0 <= p < P.PAGES && FrameAt(mem, pd, p) != 0
    ensures forall p :: p in v ==> v[p] == FrameAt(mem, pd, p)
  {
    map p: int | 0 <= p < P.PAGES && FrameAt(mem, pd, p) != 0 :: FrameAt(mem, pd, p)
  }

  /** No entry maps frame 0, which sos_paging_get_paddr could not tell from nothing. */
  ghost predicate NoZero(mem: P.Memory, pd: P.Pfn) {
    forall p {:trigger P.Walk(mem, pd, p)} :: 0 <= p < P.PAGES && P.Walk(mem, pd, p).Some? ==> FrameAt(mem, pd, p) != 0
  }

  // ---------------------------------------------------------------- what lies behind a page

  /** The entry behind a page outside the mirror. */
  lemma EntryBehind(mem: P.Memory, pd: P.Pfn, p: int)
    requires P.Shape(mem, pd) && 0 <= p < P.PAGES && p / 1024 != P.MIRROR && P.Walk(mem, pd, p).Some?
    ensures P.InTable(mem, pd, p / 1024, p % 1024) && P.EntryAt(mem, pd, p / 1024, p % 1024).present
    ensures P.EntryAt(mem, pd, p / 1024, p % 1024).pfn == FrameAt(mem, pd, p)
  {
    assert P.HasTable(mem, pd, p / 1024);
  }

  /** A page shows either a page that is not a table, or, in the mirror, its table or the directory. */
  lemma ShowsTable(mem: P.Memory, pd: P.Pfn, p: int)
    requires P.Shape(mem, pd) && S.NoAlias(mem, pd) && 0 <= p < P.PAGES && P.Walk(mem, pd, p).Some?
    ensures p / 1024 != P.MIRROR ==> S.NotATable(mem, pd, FrameAt(mem, pd, p))
    ensures p / 1024 == P.MIRROR ==>
      FrameAt(mem, pd, p) == if p % 1024 == P.MIRROR then pd else P.TableOf(mem, pd, p % 1024)
    ensures p / 1024 == P.MIRROR && p % 1024 != P.MIRROR ==> P.HasTable(mem, pd, p % 1024)
  {
    if p / 1024 == P.MIRROR {
      P.SelfMap(mem, pd, p % 1024);
      assert p == P.MIRROR * 1024 + p % 1024;
    } else {
      EntryBehind(mem, pd, p);
    }
  }

  /** A managed page is free if and only if nobody holds it and the MMU finds it nowhere. */
  lemma FreeIffUnmapped(mem: P.Memory, pd: P.Pfn, refs: seq<nat>, held: seq<int>, f: Frame)
    requires S.VmOk(mem, pd, refs, held) && 1 <= f < |mem|
    ensures |refs| == |held| == |mem|
    ensures refs[f] == 0 <==> held[f] == 0 && f !in View(mem, pd).Values
  {
    if refs[f] == 0 { FreeIsNowhere(mem, pd, refs, held, f); }
    if held[f] == 0 && f !in View(mem, pd).Values { NowhereIsFree(mem, pd, refs, held, f); }
  }

  lemma FreeIsNowhere(mem: P.Memory, pd: P.Pfn, refs: seq<nat>, held: seq<int>, f: Frame)
    requires S.VmOk(mem, pd, refs, held) && 1 <= f < |mem| == |refs| == |held| && refs[f] == 0
    ensures held[f] == 0 && f !in View(mem, pd).Values
  {
    S.FreeIsUnknown(mem, pd, refs, held, f);
    forall p | p in View(mem, pd) ensures FrameAt(mem, pd, p) != f {
      ShowsTable(mem, pd, p);
      if p / 1024 != P.MIRROR {
        EntryBehind(mem, pd, p);
        P.NoRefs(mem, pd, f, p / 1024, 1024);
        P.NoneMaps(mem[P.TableOf(mem, pd, p / 1024)], f, 1024);
      }
    }
  }

  lemma NowhereIsFree(mem: P.Memory, pd: P.Pfn, refs: seq<nat>, held: seq<int>, f: Frame)
    requires S.VmOk(mem, pd, refs, held) && 1 <= f < |mem| == |refs| == |held|
    requires held[f] == 0 && f !in View(mem, pd).Values
    ensures refs[f] == 0
  {
    forall p | p in View(mem, pd) ensures FrameAt(mem, pd, p) != f { assert View(mem, pd)[p] in View(mem, pd).Values; }
    P.SelfMap(mem, pd, P.MIRROR);
    assert P.MIRROR * 1024 + P.MIRROR in View(mem, pd);
    forall i ensures P.RefsVia(mem, pd, f, i) == 0 { if P.HasTable(mem, pd, i) { NothingVia(mem, pd, f, i); } }
    S.OnlyVia(mem, pd, f, 0, 1024);
    hide S.NoAlias, S.Tidy, P.Shape;
  }

  lemma NothingVia(mem: P.Memory, pd: P.Pfn, f: Frame, i: nat)
    requires P.Shape(mem, pd) && P.HasTable(mem, pd, i) && f != 0
    requires forall p :: p in View(mem, pd) ==> FrameAt(mem, pd, p) != f
    ensures P.RefsVia(mem, pd, f, i) == 0
  {
    P.SelfMap(mem, pd, i);
    assert P.TableOf(mem, pd, i) != f by { assert P.MIRROR * 1024 + i in View(mem, pd) || P.TableOf(mem, pd, i) == 0; }
    var t := P.TableOf(mem, pd, i);
    forall j | 0 <= j < 1024 ensures !(mem[t][j].present && mem[t][j].pfn == f) {
      var p := i * 1024 + j;
      assert p / 1024 == i && p % 1024 == j;
      assert FrameAt(mem, pd, p) == if mem[t][j].present then mem[t][j].pfn else 0;
    }
    P.NoneMaps(mem[t], f, 1024);
  }

  // ---------------------------------------------------------------- the mirror

  /**
   In the mirror, exactly the pages that show a table or the directory are mapped, and they have no owner: a lookup of
   an address there, hence a free of it, halts if and only if the table is present.
   */
  lemma MirrorUnowned(mem: P.Memory, pd: P.Pfn, mapped: map<int, Ptr>, g: Pages, i: nat)
    requires P.Shape(mem, pd) && g.frameOf == View(mem, pd) && FramesOk(mapped, g) && i < 1024
    ensures Unowned(g, P.MIRROR * 1024 + i) <==> P.HasTable(mem, pd, i) || i == P.MIRROR
  {
    P.SelfMap(mem, pd, i);
    var p := P.MIRROR * 1024 + i;
    assert !InArea(p);
  }

  // ---------------------------------------------------------------- map and unmap

  /** The table that mapping page `p` needs, if there is none. */
  function TableFor(mem: P.Memory, mem': P.Memory, pd: P.Pfn, p: int): Option<Frame>
    requires InArea(p) && pd < |mem| == |mem'|
  {
    if P.HasTable(mem, pd, p / 1024) then None else Some(P.TableOf(mem', pd, p / 1024))
  }

  lemma NewTableFresh(mem: P.Memory, mem': P.Memory, pd: P.Pfn, p: int, q: int)
    requires P.Shape(mem, pd) && |mem| == |mem'| && P.Shape(mem', pd) && S.NoAlias(mem', pd) && InArea(p)
    requires q in View(mem, pd)
    requires !P.HasTable(mem, pd, p / 1024) && P.HasTable(mem', pd, p / 1024)
    requires q != p && q != MirrorPage(p) ==> P.Walk(mem', pd, q) == P.Walk(mem, pd, q)
    ensures q != p && q != MirrorPage(p) && FrameAt(mem, pd, q) != P.TableOf(mem', pd, p / 1024)
  {
    P.SelfMap(mem, pd, p / 1024);
    ShowsTable(mem', pd, q);
  }

  /** What sos_paging_map does to a page that nothing maps is what the allocator takes it to do. */
  lemma MapRefines(mem: P.Memory, mem': P.Memory, pd: P.Pfn, p: int, e: P.Entry, r: map<Frame, Ptr>)
    requires P.Shape(mem, pd) && |mem| == |mem'| && P.Shape(mem', pd) && S.NoAlias(mem', pd) && InArea(p)
    requires e.pfn != 0 && Paging.Remapped(mem, mem', pd, p * 4096, false, e)
    ensures var t := TableFor(mem, mem', pd, p);
      && View(mem', pd) == (if t.Some? then View(mem, pd)[MirrorPage(p) := t.value] else View(mem, pd))[p := e.pfn]
      && (MirrorPage(p) in View(mem, pd) <==> t.None?)
      && (t.Some? ==> IsFresh(Pages(View(mem, pd), r), t.value) && t.value != e.pfn)
    ensures P.HasTable(mem', pd, p / 1024)
  {
    var i := p / 1024;
    assert p * 4096 / 4096 == p && p * 4096 / 0x400000 == i && i < P.MIRROR;
    assert MirrorPage(p) == P.MIRROR * 1024 + i;
    P.SelfMap(mem, pd, i);
    assert P.Walk(mem', pd, p).Some? && mem'[pd][i].present;
    assert P.HasTable(mem', pd, i);
    P.SelfMap(mem', pd, i);
    ShowsTable(mem', pd, p);
    if !P.HasTable(mem, pd, i) {
      forall q | q in View(mem, pd) ensures q != p && FrameAt(mem, pd, q) != P.TableOf(mem', pd, i) {
        NewTableFresh(mem, mem', pd, p, q);
      }
    }
  }

  /** An entry of page `q`'s table is there while the table is. */
  lemma TableNotEmpty(mem: P.Memory, pd: P.Pfn, held: seq<int>, i: nat) returns (q: int)
    requires P.Shape(mem, pd) && |held| == |mem| && S.Tidy(mem, pd, held) && P.HasTable(mem, pd, i)
    ensures 0 <= q < P.PAGES && q / 1024 == i && P.Walk(mem, pd, q).Some?
  {
    var t := P.TableOf(mem, pd, i);
    P.NonePresent(mem[t], 1024);
    var j :| 0 <= j < 1024 && mem[t][j].present;
    q := i * 1024 + j;
    assert q / 1024 == i && q % 1024 == j;
  }

  /** The table of a page is gone after sos_paging_unmap exactly if nothing else was mapped through it. */
  lemma LastExactly(mem: P.Memory, mem': P.Memory, pd: P.Pfn, held: seq<int>, p: int)
    requires P.Shape(mem, pd) && |mem| == |mem'| == |held| && P.Shape(mem', pd) && S.Tidy(mem', pd, held)
    requires InArea(p) && NoZero(mem, pd) && p in View(mem, pd)
    requires P.Walk(mem', pd, p) == P.None
    requires forall q {:trigger P.Walk(mem', pd, q)} :: 0 <= q < P.PAGES && q != p && q / 1024 != P.MIRROR ==>
      P.Walk(mem', pd, q) == P.Walk(mem, pd, q)
    ensures LastOfTable(View(mem, pd), p) <==> !P.HasTable(mem', pd, p / 1024)
  {
    var i := p / 1024;
    assert i < P.MIRROR;
    if P.HasTable(mem', pd, i) {
      var q := TableNotEmpty(mem', pd, held, i);
      assert q in View(mem, pd);
    } else {
      forall q | 0 <= q < P.PAGES && q / TABLE_PAGES == i && q != p ensures q !in View(mem, pd) {
        assert P.Walk(mem', pd, q) == P.None;
      }
    }
  }

  /** What sos_paging_unmap does to a page is what the allocator takes it to do: the table goes with its last page. */
  lemma UnmapRefines(mem: P.Memory, mem': P.Memory, pd: P.Pfn, held: seq<int>, p: int, r: map<Frame, Ptr>)
    requires P.Shape(mem, pd) && |mem| == |mem'| == |held| && P.Shape(mem', pd) && S.Tidy(mem', pd, held)
    requires InArea(p) && NoZero(mem, pd) && p in View(mem, pd) && Paging.Dropped(mem, mem', pd, p * 4096)
    ensures View(mem', pd) == UnmapOne(Pages(View(mem, pd), r), p).frameOf
  {
    DroppedFrames(mem, mem', pd, p);
    LastExactly(mem, mem', pd, held, p);
    ViewWithout(mem, mem', pd, p, MirrorPage(p), !P.HasTable(mem', pd, p / 1024));
    hide *;
    hide LastOfTable, View;
  }

  lemma DroppedFrames(mem: P.Memory, mem': P.Memory, pd: P.Pfn, p: int)
    requires P.Shape(mem, pd) && |mem| == |mem'| && P.Shape(mem', pd) && InArea(p)
    requires Paging.Dropped(mem, mem', pd, p * 4096)
    ensures P.Walk(mem', pd, p) == P.None && p != MirrorPage(p) && 0 <= MirrorPage(p) < P.PAGES
    ensures forall q :: 0 <= q < P.PAGES && q != p && q / 1024 != P.MIRROR ==> P.Walk(mem', pd, q) == P.Walk(mem, pd, q)
    ensures forall q :: 0 <= q < P.PAGES && q != p && q != MirrorPage(p) ==> FrameAt(mem', pd, q) == FrameAt(mem, pd, q)
    ensures FrameAt(mem', pd, p) == 0
    ensures FrameAt(mem', pd, MirrorPage(p)) == if P.HasTable(mem', pd, p / 1024) then FrameAt(mem, pd, MirrorPage(p))
      else 0
  {
    assert p * 4096 / 4096 == p && p * 4096 / 0x400000 == p / 1024 && p / 1024 < P.MIRROR;
    assert MirrorPage(p) == P.MIRROR * 1024 + p / 1024 && MirrorPage(p) / 1024 == P.MIRROR;
    hide P.Walk, P.Shape, P.HasTable;
  }

  lemma ViewWithout(mem: P.Memory, mem': P.Memory, pd: P.Pfn, p: int, m: int, last: bool)
    requires 0 <= p < P.PAGES && 0 <= m < P.PAGES && p != m && FrameAt(mem', pd, p) == 0
    requires FrameAt(mem', pd, m) == if last then 0 else FrameAt(mem, pd, m)
    requires forall q :: 0 <= q < P.PAGES && q != p && q != m ==> FrameAt(mem', pd, q) == FrameAt(mem, pd, q)
    ensures View(mem', pd) == View(mem, pd) - {p} - if last then {m} else {}
  {
    hide FrameAt;
  }

  // ---------------------------------------------------------------- the calls of the allocator

  /** The owners recorded in the page descriptors. */
  function Owners(kr: seq<int>): (r: map<Frame, Ptr>)
    ensures forall f :: f in r <==> 0 <= f < |kr| && kr[f] != 0
    ensures forall f :: f in r ==> r[f] == kr[f]
  {
    map f | 0 <= f < |kr| && kr[f] != 0 :: kr[f]
  }

  /** What the allocator reads of this machine. */
  function PagesOf(mmu: Paging.Mmu): Pages
    reads mmu, mmu.pages, mmu.pages.kernelRange
  {
    Pages(View(mmu.mem, mmu.pd), Owners(mmu.pages.kernelRange[..]))
  }

  /** As long as no page that is held or mapped stops being so, owners stay. */
  lemma OwnersStay(mem: P.Memory, mem': P.Memory, pd: P.Pfn, refs: seq<nat>, refs': seq<nat>, held: seq<int>,
      held': seq<int>,
      kr: seq<int>, kr': seq<int>)
    requires S.VmOk(mem, pd, refs, held) && S.VmOk(mem', pd, refs', held') && |mem'| == |mem| == |kr| >= 1
    requires Physmem.KeepOwners(refs', kr, kr') && refs[0] == 0
    requires forall f :: 0 <= f < |refs| && refs[f] == 0 ==> kr[f] == 0
    requires forall f :: 1 <= f < |mem| && held'[f] == 0 && f !in View(mem', pd).Values ==>
      kr[f] == 0 || (held[f] == 0 && f !in View(mem, pd).Values)
    ensures kr' == kr
  {
    forall f: nat | f < |kr| ensures kr'[f] == kr[f] {
      if f != 0 {
        hide S.VmOk;
        FreeIffUnmapped(mem, pd, refs, held, f);
        FreeIffUnmapped(mem', pd, refs', held', f);
      }
    }
  }

  /** sos_physmem_ref_physpage_new gives a page that nothing maps. */
  method TakePage(mmu: Paging.Mmu) returns (f: Frame)
    requires mmu.Valid()
    modifies mmu`held, mmu.pages, mmu.pages.refCnt, mmu.pages.kernelRange
    ensures mmu.Valid() && mmu.pages.refCnt == old(mmu.pages.refCnt)
    ensures mmu.pages.kernelRange == old(mmu.pages.kernelRange)
    ensures mmu.pages.kernelRange[..] == old(mmu.pages.kernelRange[..])
    ensures f == 0 <==> old(mmu.pages.free) == []
    ensures f == 0 ==> mmu.held == old(mmu.held)
    ensures f != 0 ==> mmu.pages.free == old(mmu.pages.free)[1..]
    ensures f != 0 ==>
      mmu.held == S.Bump(old(mmu.held), f, 1) && TakenFresh(mmu.mem, mmu.pd, mmu.held, mmu.pages.kernelRange[..], f)
  {
    hide S.VmOk, View, P.Walk, Paging.Mmu.Valid, S.Bump;
    ghost var refs, held, kr := mmu.pages.refCnt[..], mmu.held, mmu.pages.kernelRange[..];
    ValidParts(mmu);
    var paddr := mmu.AllocPage();
    f := paddr / 4096;
    if f != 0 { FreeTaken(mmu.mem, mmu.pd, refs, held, kr, f); }
  }

  /** A page that was free, with its first reference. */
  ghost predicate TakenFresh(mem: P.Memory, pd: P.Pfn, held: seq<int>, kr: seq<int>, f: Frame) {
    S.Managed(|mem|, f) && |held| == |kr| == |mem| && held[f] == 1 && kr[f] == 0 && f !in View(mem, pd).Values
  }

  lemma FreeTaken(mem: P.Memory, pd: P.Pfn, refs: seq<nat>, held: seq<int>, kr: seq<int>, f: Frame)
    requires S.VmOk(mem, pd, refs, held) && S.Managed(|mem|, f) && |refs| == |kr| == |mem| && refs[f] == 0
    requires forall q :: 0 <= q < |refs| && refs[q] == 0 ==> kr[q] == 0
    ensures |held| == |mem| && TakenFresh(mem, pd, S.Bump(held, f, 1), kr, f)
  {
    FreeIffUnmapped(mem, pd, refs, held, f);
    hide S.VmOk, View;
  }

  /** Page `f` was mapped at page `p`, where nothing was, through a new table `t` if there was none. */
  ghost predicate Put(v: map<int, Frame>, v': map<int, Frame>, kr: seq<int>, p: int, f: Frame, t: Option<Frame>) {
    && v' == (if t.Some? then v[MirrorPage(p) := t.value] else v)[p := f]
    && (MirrorPage(p) in v <==> t.None?)
    && (t.Some? ==> t.value != 0 && t.value !in v.Values && t.value != f && t.value !in Owners(kr))
  }

  lemma MapNoZero(mem: P.Memory, mem': P.Memory, pd: P.Pfn, p: int, e: P.Entry)
    requires NoZero(mem, pd) && P.Shape(mem', pd) && pd < |mem| == |mem'| && InArea(p)
    requires e.pfn != 0 && Paging.Remapped(mem, mem', pd, p * 4096, false, e)
    ensures NoZero(mem', pd)
  {
    var i := p / 1024;
    assert p * 4096 / 4096 == p && p * 4096 / 0x400000 == i;
    P.SelfMap(mem', pd, i);
    hide P.Shape;
    forall q {:trigger P.Walk(mem', pd, q)} | 0 <= q < P.PAGES && P.Walk(mem', pd, q).Some?
      ensures FrameAt(mem', pd, q) != 0
    {
      if q != p && q != P.MIRROR * 1024 + i { assert P.Walk(mem', pd, q) == P.Walk(mem, pd, q); }
    }
  }

  /** What was mapped still is. */
  lemma PutKeeps(v: map<int, Frame>, v': map<int, Frame>, kr: seq<int>, p: int, f: Frame, t: Option<Frame>)
    requires Put(v, v', kr, p, f, t) && p !in v
    ensures forall q :: q !in v'.Values ==> q !in v.Values
    ensures f in v'.Values
  {
    assert p in v' && v'[p] == f;
    forall u | u in v ensures v[u] in v'.Values { assert u in v' && v'[u] == v[u]; }
  }

  lemma PutDone(mem: P.Memory, mem': P.Memory, pd: P.Pfn, refs: seq<nat>, refs': seq<nat>, held: seq<int>,
      kr: seq<int>, kr': seq<int>, p: int, f: Frame)
    requires S.VmOk(mem, pd, refs, held) && S.VmOk(mem', pd, refs', held) && |mem'| == |mem| == |kr| >= 1
    requires NoZero(mem, pd) && InArea(p) && p !in View(mem, pd) && f != 0
    requires Paging.Remapped(mem, mem', pd, p * 4096, false, P.Entry(true, true, false, f))
    requires Physmem.KeepOwners(refs', kr, kr') && refs[0] == 0
    requires forall q :: 0 <= q < |refs| && refs[q] == 0 ==> kr[q] == 0
    ensures Put(View(mem, pd), View(mem', pd), kr, p, f, TableFor(mem, mem', pd, p)) && NoZero(mem', pd) && kr' == kr
    ensures P.HasTable(mem', pd, p / 1024)
  {
    var e := P.Entry(true, true, false, f);
    MapNoZero(mem, mem', pd, p, e);
    MapRefines(mem, mem', pd, p, e, Owners(kr));
    var t := TableFor(mem, mem', pd, p);
    if t.Some? { TableWasFree(mem, mem', pd, refs, refs', held, p, t.value); }
    hide S.VmOk, View, TableFor, Paging.Remapped, NoZero;
    PutKeeps(View(mem, pd), View(mem', pd), kr, p, f, t);
    OwnersStay(mem, mem', pd, refs, refs', held, held, kr, kr');
  }

  lemma TableWasFree(mem: P.Memory, mem': P.Memory, pd: P.Pfn, refs: seq<nat>, refs': seq<nat>, held: seq<int>, p: int,
      t: Frame)
    requires S.VmOk(mem, pd, refs, held) && S.VmOk(mem', pd, refs', held) && |mem'| == |mem| && InArea(p)
    requires P.HasTable(mem', pd, p / 1024) && TableFor(mem, mem', pd, p) == Some(t) && t !in View(mem, pd).Values
    ensures 1 <= t < |mem| == |refs| && refs[t] == 0
  {
    FreeIffUnmapped(mem, pd, refs, held, t);
  }

  /** The free pages are those no page descriptor counts a reference for. */
  ghost predicate FreeList(free: seq<nat>, refs: seq<nat>) {
    Physmem.NoDup(free) && forall q :: q in free <==> 1 <= q < |refs| && refs[q] == 0
  }

  /** Of the free pages, mapping takes the one for the new table, if there is one. */
  lemma FreeAfterPut(mem: P.Memory, mem': P.Memory, pd: P.Pfn, refs: seq<nat>, refs': seq<nat>, held: seq<int>,
      kr: seq<int>, p: int, f: Frame, t: Option<Frame>, free: seq<nat>, free': seq<nat>)
    requires S.VmOk(mem, pd, refs, held) && S.VmOk(mem', pd, refs', held) && |mem'| == |mem|
    requires FreeList(free, refs) && FreeList(free', refs')
    requires Put(View(mem, pd), View(mem', pd), kr, p, f, t) && p !in View(mem, pd)
    requires S.Managed(|mem|, f) && |held| == |mem| && held[f] != 0
    requires InArea(p) && pd < |mem| && t == TableFor(mem, mem', pd, p) && P.HasTable(mem', pd, p / 1024)
    ensures |free'| == |free| - if t.Some? then 1 else 0
  {
    if t.Some? { TableWasFree(mem, mem', pd, refs, refs', held, p, t.value); }
    forall q: nat | 1 <= q < |mem| ensures refs'[q] == 0 <==> refs[q] == 0 && t != Some(q) {
      FreeIffUnmapped(mem, pd, refs, held, q);
      FreeIffUnmapped(mem', pd, refs', held, q);
      hide S.VmOk, View, TableFor;
      PutValues(View(mem, pd), View(mem', pd), kr, p, f, t);
    }
    hide S.VmOk, View, TableFor, Put;
    var left := if t.Some? then Physmem.Remove(free, t.value) else free;
    if t.Some? { Physmem.RemoveFacts(free, t.value); }
    Physmem.SameLength(left, free');
  }

  lemma PutValues(v: map<int, Frame>, v': map<int, Frame>, kr: seq<int>, p: int, f: Frame, t: Option<Frame>)
    requires Put(v, v', kr, p, f, t) && p !in v && InArea(p)
    ensures forall q :: q in v'.Values <==> q in v.Values || q == f || t == Some(q)
  {
    assert !InArea(MirrorPage(p));
    assert p in v' && v'[p] == f;
    if t.Some? { assert MirrorPage(p) in v' && v'[MirrorPage(p)] == t.value; }
    forall u | u in v ensures v[u] in v'.Values { assert u in v' && v'[u] == v[u]; }
  }

  /** sos_paging_map of the page taken. */
  method PutPage(mmu: Paging.Mmu, p: int, f: Frame) returns (ok: bool, ghost t: Option<Frame>)
    requires mmu.Valid() && NoZero(mmu.mem, mmu.pd) && InArea(p) && p !in View(mmu.mem, mmu.pd)
    requires TakenFresh(mmu.mem, mmu.pd, mmu.held, mmu.pages.kernelRange[..], f)
    modifies mmu`mem, mmu`tlb, mmu.pages, mmu.pages.refCnt, mmu.pages.kernelRange
    ensures mmu.Valid() && NoZero(mmu.mem, mmu.pd) && |mmu.mem| == |old(mmu.mem)|
    ensures mmu.pages.refCnt == old(mmu.pages.refCnt) && mmu.pages.kernelRange == old(mmu.pages.kernelRange)
    ensures mmu.pages.kernelRange[..] == old(mmu.pages.kernelRange[..])
    ensures !ok ==> mmu.mem == old(mmu.mem)
    ensures ok ==> Put(old(View(mmu.mem, mmu.pd)), View(mmu.mem, mmu.pd), mmu.pages.kernelRange[..], p, f, t)
    ensures ok ==> (t.None? <==> MirrorPage(p) in old(View(mmu.mem, mmu.pd)))
    ensures ok ==> |mmu.pages.free| == |old(mmu.pages.free)| - if t.Some? then 1 else 0
    ensures !ok <==> MirrorPage(p) !in old(View(mmu.mem, mmu.pd)) && old(mmu.pages.free) == []
  {
    hide S.VmOk, View, P.Walk, Paging.Mmu.Valid, NoZero, Paging.Remapped, P.HasTable;
    ghost var mem, refs, held, kr := mmu.mem, mmu.pages.refCnt[..], mmu.held, mmu.pages.kernelRange[..];
    ghost var free := mmu.pages.free;
    ValidParts(mmu);
    PageAddress(p);
    TableShown(mem, mmu.pd, refs, held, p);
    var r := mmu.Map(f * 4096, p * 4096, false, true);
    ValidParts(mmu);
    ok, t := r == Paging.OK, None;
    if ok {
      t := TableFor(mem, mmu.mem, mmu.pd, p);
      PutDone(mem, mmu.mem, mmu.pd, refs, mmu.pages.refCnt[..], held, kr, mmu.pages.kernelRange[..], p, f);
      FreeAfterPut(mem, mmu.mem, mmu.pd, refs, mmu.pages.refCnt[..], held, kr, p, f, t, free, mmu.pages.free);
    } else {
      OwnersStay(mem, mem, mmu.pd, refs, mmu.pages.refCnt[..], held, held, kr, mmu.pages.kernelRange[..]);
    }
  }

  lemma PageAddress(p: int)
    requires InArea(p)
    ensures p * 4096 / 4096 == p && p * 4096 / 0x400000 == p / 1024 && p * 4096 < P.MIRROR_VADDR < 0x1_0000_0000
  {}

  lemma TableShown(mem: P.Memory, pd: P.Pfn, refs: seq<nat>, held: seq<int>, p: int)
    requires S.VmOk(mem, pd, refs, held) && InArea(p)
    ensures pd < |mem| && (P.HasTable(mem, pd, p / 1024) <==> MirrorPage(p) in View(mem, pd))
  {
    P.SelfMap(mem, pd, p / 1024);
  }

  /** sos_physmem_unref_physpage of the page taken: it is free again exactly if it was not mapped. */
  method LeavePage(mmu: Paging.Mmu, f: Frame) returns (r: Physmem.Ret)
    requires mmu.Valid() && S.Managed(|mmu.mem|, f) && |mmu.held| == |mmu.mem| && mmu.held[f] == 1
    requires mmu.pages.kernelRange.Length == |mmu.mem| && mmu.pages.kernelRange[f] == 0
    modifies mmu`held, mmu.pages, mmu.pages.refCnt, mmu.pages.kernelRange
    ensures mmu.Valid() && mmu.held == S.Bump(old(mmu.held), f, -1)
    ensures mmu.pages.refCnt == old(mmu.pages.refCnt) && mmu.pages.kernelRange == old(mmu.pages.kernelRange)
    ensures mmu.pages.kernelRange[..] == old(mmu.pages.kernelRange[..])
    ensures r == if f in View(mmu.mem, mmu.pd).Values then Physmem.FALSE else Physmem.TRUE
    ensures f in View(mmu.mem, mmu.pd).Values ==> mmu.pages.free == old(mmu.pages.free)
    ensures f in View(mmu.mem, mmu.pd).Values ==> f < mmu.pages.refCnt.Length && mmu.pages.refCnt[f] > 0
  {
    hide S.VmOk, View, P.Walk, Paging.Mmu.Valid, S.Bump;
    ghost var refs, held, kr := mmu.pages.refCnt[..], mmu.held, mmu.pages.kernelRange[..];
    ValidParts(mmu);
    LeftHeld(held, f);
    Paging.OwnedIsCounted(mmu.mem, mmu.pd, refs, held, f);
    r := mmu.UnrefPage(f * 4096);
    ValidParts(mmu);
    FreeIffUnmapped(mmu.mem, mmu.pd, mmu.pages.refCnt[..], mmu.held, f);
    CountOf(mmu.mem, mmu.pd, mmu.pages.refCnt[..], mmu.held, f);
    OwnersStay(mmu.mem, mmu.mem, mmu.pd, refs, mmu.pages.refCnt[..], held, mmu.held, kr, mmu.pages.kernelRange[..]);
  }

  lemma LeftHeld(held: seq<int>, f: Frame)
    requires S.Managed(|held|, f) && held[f] == 1
    ensures var h := S.Bump(held, f, -1);
      |h| == |held| && h[f] == 0 && forall q :: 0 <= q < |held| && q != f ==> h[q] == held[q]
  {}

  lemma CountOf(mem: P.Memory, pd: P.Pfn, refs: seq<nat>, held: seq<int>, f: Frame)
    requires S.VmOk(mem, pd, refs, held) && S.Managed(|mem|, f)
    ensures |refs| == |held| == |mem| && pd < |mem|
    ensures held[f] == 0 && f !in View(mem, pd).Values ==> P.Refs(mem, pd, f, 1024) == 0
    ensures P.Refs(mem, pd, f, 1024) == 0 && held[f] == 0 ==> refs[f] == P.One(f == pd)
  {
    FreeIffUnmapped(mem, pd, refs, held, f);
    assert refs[f] == P.Refs(mem, pd, f, 1024) + P.One(f == pd) + held[f];
  }

  /** How many physical pages mapping page `p` takes: one more if its table is not there. */
  function Cost(mapped: set<int>, p: int): nat { if MirrorPage(p) in mapped then 1 else 2 }

  /** A physical page is allocated, mapped at page `p`, and left to the mapping alone. */
  method MapFresh(mmu: Paging.Mmu, p: int) returns (ok: bool, f: Frame, ghost t: Option<Frame>)
    requires mmu.Valid() && NoZero(mmu.mem, mmu.pd) && InArea(p) && p !in View(mmu.mem, mmu.pd)
    modifies mmu`mem, mmu`tlb, mmu`held, mmu.pages, mmu.pages.refCnt, mmu.pages.kernelRange
    ensures mmu.Valid() && NoZero(mmu.mem, mmu.pd) && mmu.held == old(mmu.held) && |mmu.mem| == |old(mmu.mem)|
    ensures mmu.pages.refCnt == old(mmu.pages.refCnt) && mmu.pages.kernelRange == old(mmu.pages.kernelRange)
    ensures mmu.pages.kernelRange[..] == old(mmu.pages.kernelRange[..])
    ensures !ok ==> mmu.mem == old(mmu.mem)
    ensures ok ==> Put(old(View(mmu.mem, mmu.pd)), View(mmu.mem, mmu.pd), mmu.pages.kernelRange[..], p, f, t)
    ensures ok ==> S.Managed(|mmu.mem|, f) && f !in old(View(mmu.mem, mmu.pd)).Values
    ensures ok ==> f !in Owners(mmu.pages.kernelRange[..])
    ensures ok ==> f < |mmu.held| && mmu.held[f] == 0 && f < mmu.pages.refCnt.Length && mmu.pages.refCnt[f] > 0
    ensures ok <==> |old(mmu.pages.free)| >= Cost(old(View(mmu.mem, mmu.pd)).Keys, p)
    ensures ok ==> |mmu.pages.free| == |old(mmu.pages.free)| - Cost(old(View(mmu.mem, mmu.pd)).Keys, p)
  {
    hide S.VmOk, View, P.Walk, Paging.Mmu.Valid, S.Bump, NoZero, Put;
    ghost var held := mmu.held;
    t := None;
    var page := TakePage(mmu);
    if page == 0 { return false, 0, None; }
    ghost var v, kr, left := View(mmu.mem, mmu.pd), mmu.pages.kernelRange[..], mmu.pages.free;
    assert old(mmu.pages.free) == [old(mmu.pages.free)[0]] + left;
    ok, t := PutPage(mmu, p, page);
    assert !ok <==> MirrorPage(p) !in v && left == [];
    if ok { PutKeeps(v, View(mmu.mem, mmu.pd), kr, p, page, t); }
    BumpBack(held, page);
    var r := LeavePage(mmu, page);
    assert ok ==> r == Physmem.FALSE;
    f := page;
  }

  /**
   The body of the mapping loop of sos_kmem_vmm_new_range, on the machine: a physical page is allocated, mapped at page
   `p`, left to the mapping alone, and told its owner `n`. It is the step `Kmem.Allocator.MapOne` takes.
   */
  method MapNewPage(mmu: Paging.Mmu, p: int, n: Ptr) returns (ok: bool, f: Frame, ghost t: Option<Frame>)
    requires mmu.Valid() && NoZero(mmu.mem, mmu.pd) && InArea(p) && p !in View(mmu.mem, mmu.pd) && n != 0
    modifies mmu`mem, mmu`tlb, mmu`held, mmu.pages, mmu.pages.refCnt, mmu.pages.kernelRange
    ensures mmu.Valid() && NoZero(mmu.mem, mmu.pd) && mmu.held == old(mmu.held)
    ensures mmu.pages.refCnt == old(mmu.pages.refCnt) && mmu.pages.kernelRange == old(mmu.pages.kernelRange)
    ensures !ok ==> PagesOf(mmu) == old(PagesOf(mmu))
    ensures ok ==> NewPage(old(PagesOf(mmu)), PagesOf(mmu), p, n, f, t)
    ensures ok ==> f < |mmu.held| && mmu.held[f] == 0
    ensures ok ==> f !in old(PagesOf(mmu)).rangeOf && (t.Some? ==> t.value !in old(PagesOf(mmu)).rangeOf)
    ensures ok <==> |old(mmu.pages.free)| >= Cost(old(PagesOf(mmu)).frameOf.Keys, p)
    ensures ok ==> |mmu.pages.free| == |old(mmu.pages.free)| - Cost(old(PagesOf(mmu)).frameOf.Keys, p)
  {
    hide S.VmOk, View, P.Walk, Paging.Mmu.Valid, NoZero, Put, Owners, WithPage, TableReady;
    ghost var g, kr := PagesOf(mmu), mmu.pages.kernelRange[..];
    ok, f, t := MapFresh(mmu, p);
    if ok {
      ValidParts(mmu);
      OwnedNow(g, View(mmu.mem, mmu.pd), kr, p, n, f, t);
      TellOwner(mmu, f, n);
    }
  }

  lemma BumpBack(held: seq<int>, f: Frame)
    ensures S.Bump(S.Bump(held, f, 1), f, -1) == held
    ensures S.Managed(|held|, f) && S.Bump(held, f, 1)[f] == 1 ==> held[f] == 0
  {}

  lemma OwnedNow(g: Pages, v': map<int, Frame>, kr: seq<int>, p: int, n: Ptr, f: Frame, t: Option<Frame>)
    requires g.rangeOf == Owners(kr) && f != 0 && f !in g.frameOf.Values && f < |kr| && p !in g.frameOf && n != 0
    requires Put(g.frameOf, v', kr, p, f, t)
    ensures NewPage(g, Pages(v', Owners(kr[f := n])), p, n, f, t)
    ensures t.Some? ==> t.value !in g.rangeOf
  {
    assert Owners(kr[f := n]) == WithPage(g, p, n, f, t).rangeOf;
  }

  /** sos_physmem_set_kmem_range, for a page in use. */
  method TellOwner(mmu: Paging.Mmu, f: Frame, n: Ptr)
    requires mmu.Valid() && S.Managed(|mmu.mem|, f) && f < mmu.pages.refCnt.Length && mmu.pages.refCnt[f] > 0
    modifies mmu.pages.kernelRange
    ensures mmu.Valid() && f < |old(mmu.pages.kernelRange[..])|
    ensures mmu.pages.kernelRange[..] == old(mmu.pages.kernelRange[..])[f := n]
  {
    hide S.VmOk, P.Walk;
    var r := mmu.pages.SetKmemRange(f * 4096, n);
  }

  // ---------------------------------------------------------------- unmapping, and looking up

  lemma UnmapNoZero(mem: P.Memory, mem': P.Memory, pd: P.Pfn, p: int)
    requires NoZero(mem, pd) && P.Shape(mem, pd) && |mem| == |mem'| && P.Shape(mem', pd) && InArea(p)
    requires Paging.Dropped(mem, mem', pd, p * 4096)
    ensures NoZero(mem', pd)
  {
    DroppedFrames(mem, mem', pd, p);
    P.SelfMap(mem', pd, p / 1024);
    hide P.Shape;
    forall q {:trigger P.Walk(mem', pd, q)} | 0 <= q < P.PAGES && P.Walk(mem', pd, q).Some?
      ensures FrameAt(mem', pd, q) != 0
    {
      if q != p && q != MirrorPage(p) {
        assert p * 4096 / 4096 == p && p * 4096 / 0x400000 == p / 1024;
        assert P.Walk(mem', pd, q) == P.Walk(mem, pd, q);
      }
    }
  }

  /** The other owned pages are still mapped, or held. */
  lemma UnmapOthers(mapped: map<int, Ptr>, g: Pages, p: int, q: Frame)
    requires FramesOk(mapped, g) && InArea(p) && p in g.frameOf && q in g.rangeOf && q != g.frameOf[p]
    ensures q !in UnmapOne(g, p).frameOf.Values ==> q !in g.frameOf.Values
  {
    var v, v' := g.frameOf, UnmapOne(g, p).frameOf;
    assert !InArea(MirrorPage(p));
    if q !in v'.Values {
      forall u | u in v ensures v[u] != q {
        if u in v' { assert v'[u] in v'.Values; }
        if u == MirrorPage(p) { assert u !in mapped; }
      }
    }
  }

  lemma UnmapFrees(mapped: map<int, Ptr>, g: Pages, p: int)
    requires FramesOk(mapped, g) && InArea(p) && p in g.frameOf
    ensures g.frameOf[p] !in UnmapOne(g, p).frameOf.Values && g.frameOf[p] in g.rangeOf
  {
    assert p in mapped;
    var v' := UnmapOne(g, p).frameOf;
    forall u | u in v' ensures v'[u] != g.frameOf[p] {}
  }

  /** The page that was unmapped is free, and no other page lost its owner. */
  lemma OwnersLeft(mem: P.Memory, mem': P.Memory, pd: P.Pfn, refs: seq<nat>, refs': seq<nat>, held: seq<int>,
      kr: seq<int>, kr': seq<int>, mapped: map<int, Ptr>, p: int)
    requires S.VmOk(mem, pd, refs, held) && S.VmOk(mem', pd, refs', held) && |mem'| == |mem| == |kr| >= 1
    requires Physmem.KeepOwners(refs', kr, kr') && refs[0] == 0
    requires forall q :: 0 <= q < |refs| && refs[q] == 0 ==> kr[q] == 0
    requires FramesOk(mapped, Pages(View(mem, pd), Owners(kr))) && InArea(p) && p in View(mem, pd)
    requires View(mem', pd) == UnmapOne(Pages(View(mem, pd), Owners(kr)), p).frameOf
    requires View(mem, pd)[p] < |held| ==> held[View(mem, pd)[p]] == 0
    ensures View(mem, pd)[p] < |mem| == |refs'| && refs'[View(mem, pd)[p]] == 0
    ensures Owners(kr') == Owners(kr) - {View(mem, pd)[p]}
  {
    var g, f := Pages(View(mem, pd), Owners(kr)), View(mem, pd)[p];
    UnmapFrees(mapped, g, p);
    FreeIffUnmapped(mem', pd, refs', held, f);
    forall q: nat | q < |kr| && kr[q] != 0 && q != f ensures refs'[q] != 0 {
      FreeIffUnmapped(mem, pd, refs, held, q);
      FreeIffUnmapped(mem', pd, refs', held, q);
      UnmapOthers(mapped, g, p, q);
    }
    hide S.VmOk, View, FramesOk, UnmapOne;
  }

  /** ... or it is still held by other code, and then keeps its owner. */
  lemma OwnersHeld(mem: P.Memory, mem': P.Memory, pd: P.Pfn, refs: seq<nat>, refs': seq<nat>, held: seq<int>,
      kr: seq<int>, kr': seq<int>, mapped: map<int, Ptr>, p: int)
    requires S.VmOk(mem, pd, refs, held) && S.VmOk(mem', pd, refs', held) && |mem'| == |mem| == |kr| >= 1
    requires Physmem.KeepOwners(refs', kr, kr') && refs[0] == 0
    requires forall q :: 0 <= q < |refs| && refs[q] == 0 ==> kr[q] == 0
    requires FramesOk(mapped, Pages(View(mem, pd), Owners(kr))) && InArea(p) && p in View(mem, pd)
    requires View(mem', pd) == UnmapOne(Pages(View(mem, pd), Owners(kr)), p).frameOf
    requires View(mem, pd)[p] < |held| && held[View(mem, pd)[p]] != 0
    ensures kr' == kr
  {
    var g, f := Pages(View(mem, pd), Owners(kr)), View(mem, pd)[p];
    forall q: nat | q < |kr| && kr[q] != 0 ensures refs'[q] != 0 {
      FreeIffUnmapped(mem, pd, refs, held, q);
      FreeIffUnmapped(mem', pd, refs', held, q);
      if q != f { UnmapOthers(mapped, g, p, q); }
    }
    hide S.VmOk, View, FramesOk, UnmapOne;
  }

  /** Other code holds the physical page behind page `p`. */
  predicate HeldToo(g: Pages, held: seq<int>, p: int) {
    p in g.frameOf && g.frameOf[p] < |held| && held[g.frameOf[p]] != 0
  }

  /**
   sos_paging_unmap of a page of the kernel area. If only the mapping holds the physical page, that is free, and has no
   owner any more: this is the step `Kmem.Allocator.UnmapPage` takes. If other code holds it, it keeps its owner.
   */
  method UnmapOwnPage(mmu: Paging.Mmu, p: int, ghost mapped: map<int, Ptr>)
    requires mmu.Valid() && NoZero(mmu.mem, mmu.pd) && InArea(p) && FramesOk(mapped, PagesOf(mmu))
    modifies mmu`mem, mmu`tlb, mmu.pages, mmu.pages.refCnt, mmu.pages.kernelRange
    ensures mmu.Valid() && NoZero(mmu.mem, mmu.pd)
    ensures mmu.pages.refCnt == old(mmu.pages.refCnt) && mmu.pages.kernelRange == old(mmu.pages.kernelRange)
    ensures var g, g' := old(PagesOf(mmu)), UnmapOne(old(PagesOf(mmu)), p);
      PagesOf(mmu) == if HeldToo(g, old(mmu.held), p) then Pages(g'.frameOf, g.rangeOf) else g'
    ensures var g := old(PagesOf(mmu));
      p in g.frameOf && !HeldToo(g, old(mmu.held), p) ==>
        g.frameOf[p] < mmu.pages.refCnt.Length && mmu.pages.refCnt[g.frameOf[p]] == 0
  {
    hide S.VmOk, View, Paging.Mmu.Valid, NoZero, Paging.Dropped, FramesOk, UnmapOne;
    ghost var mem, refs, kr := mmu.mem, mmu.pages.refCnt[..], mmu.pages.kernelRange[..];
    ValidParts(mmu);
    PageAddress(p);
    ShownOrNot(mem, mmu.pd, p);
    var r := mmu.Unmap(p * 4096);
    ValidParts(mmu);
    if r == Paging.OK {
      UnmapSteps(mem, mmu.mem, mmu.pd, refs, mmu.pages.refCnt[..], mmu.held, kr, p);
      if HeldToo(Pages(View(mem, mmu.pd), Owners(kr)), mmu.held, p) {
        OwnersHeld(mem, mmu.mem, mmu.pd, refs, mmu.pages.refCnt[..], mmu.held, kr, mmu.pages.kernelRange[..], mapped,
          p);
      } else {
        OwnersLeft(mem, mmu.mem, mmu.pd, refs, mmu.pages.refCnt[..], mmu.held, kr, mmu.pages.kernelRange[..], mapped,
          p);
      }
      UnmapIs(Pages(View(mem, mmu.pd), Owners(kr)), p);
    } else {
      OwnersStay(mem, mem, mmu.pd, refs, mmu.pages.refCnt[..], mmu.held, mmu.held, kr, mmu.pages.kernelRange[..]);
      UnmapIs(Pages(View(mem, mmu.pd), Owners(kr)), p);
    }
  }

  lemma UnmapIs(g: Pages, p: int)
    ensures p !in g.frameOf ==> UnmapOne(g, p) == g
    ensures p in g.frameOf ==> UnmapOne(g, p).rangeOf == g.rangeOf - {g.frameOf[p]}
  {}

  lemma ShownOrNot(mem: P.Memory, pd: P.Pfn, p: int)
    requires NoZero(mem, pd) && InArea(p)
    ensures P.Walk(mem, pd, p).None? <==> p !in View(mem, pd)
  {}

  lemma UnmapSteps(mem: P.Memory, mem': P.Memory, pd: P.Pfn, refs: seq<nat>, refs': seq<nat>, held: seq<int>,
      kr: seq<int>, p: int)
    requires S.VmOk(mem, pd, refs, held) && S.VmOk(mem', pd, refs', held) && |mem'| == |mem|
    requires InArea(p) && NoZero(mem, pd) && p in View(mem, pd) && Paging.Dropped(mem, mem', pd, p * 4096)
    ensures NoZero(mem', pd) && View(mem', pd) == UnmapOne(Pages(View(mem, pd), Owners(kr)), p).frameOf
  {
    hide View, NoZero, UnmapOne, P.Walk, Paging.Dropped;
    UnmapNoZero(mem, mem', pd, p);
    UnmapRefines(mem, mem', pd, held, p, Owners(kr));
  }

  /**
   What lookup_range reads: sos_paging_get_paddr, and sos_physmem_get_kmem_range of the page it finds. No page, the
   owner of the page, or a page without owner, which the assertion of lookup_range does not allow.
   */
  method OwnerOf(mmu: Paging.Mmu, vaddr: nat) returns (found: bool, n: Ptr)
    requires mmu.Valid() && vaddr < 0x1_0000_0000
    modifies mmu`tlb
    ensures mmu.Valid()
    ensures found <==> PageOf(vaddr) in PagesOf(mmu).frameOf
    ensures found && n != 0 ==> Names(PagesOf(mmu), PageOf(vaddr), n)
    ensures found && n == 0 <==> Unowned(PagesOf(mmu), PageOf(vaddr))
  {
    hide S.VmOk, P.Walk;
    var paddr := mmu.GetPaddr(vaddr);
    var page := Physmem.AlignInf(paddr);
    if page == 0 { return false, 0; }
    n := mmu.pages.GetKmemRange(page);
    found := true;
  }

  /** What a valid machine is made of. */
  lemma ValidParts(mmu: Paging.Mmu)
    requires mmu.Valid()
    ensures var refs, kr, n := mmu.pages.refCnt[..], mmu.pages.kernelRange[..], |mmu.mem|;
      && S.VmOk(mmu.mem, mmu.pd, refs, mmu.held) && |refs| == |kr| == |mmu.held| == n >= 1 && refs[0] == 0
      && (forall f :: 0 <= f < n && refs[f] == 0 ==> kr[f] == 0)
      && mmu.pages.totalPages == n && FreeList(mmu.pages.free, refs)
  {}
}
