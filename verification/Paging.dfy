/**
 sos_paging_map, sos_paging_unmap, sos_paging_get_paddr and sos_paging_get_prot (hwcore/paging.c), on a machine with
 an MMU: every access of this code to the directory and to the tables goes through the mirror, hence through the TLB.
 The TLB is filled by accesses, and may lose any entry at any time; it is updated by invlpg only.
 */
module Paging {
  import opened PagingState
  import opened PagingSteps
  import Physmem

  datatype Ret = OK | EINVAL | ENOMEM
  /** SOS_VM_MAP_PROT_NONE, _READ, and _READ with _WRITE. */
  datatype Prot = NoAccess | Read | ReadWrite

  /** What filling the TLB with the translation of page `p`, and losing entries, makes of it. */
  ghost predicate Filled(tlb: Tlb, tlb': Tlb, mem: Memory, pd: Pfn, p: VPage)
    requires p < PAGES
  {
    forall q :: q in tlb' ==> (q in tlb && tlb'[q] == tlb[q]) || (q == p && Walk(mem, pd, p) == Some(tlb'[p]))
  }

  /** The directory seen through the mirror, and table `i`. */
  const DIRECTORY := MIRROR_VADDR + 4096 * MIRROR

  function TableAt(i: nat): nat { MIRROR_VADDR + 4096 * i }

  predicate InMirror(vaddr: nat) { MIRROR_VADDR <= vaddr < MIRROR_VADDR + MIRROR_SIZE }

  class Mmu {
    var mem: Memory
    /** The directory, from CR3. */
    var pd: Pfn
    var tlb: Tlb
    const pages: Physmem.PhysPages
    /** The references to each frame that callers own. */
    ghost var held: seq<int>

    /** A machine with some memory, before the MMU is on: all references are the kernel's. */
    constructor (physPages: Physmem.PhysPages, ram: Memory)
      requires physPages.Valid() && |ram| == physPages.totalPages
      ensures pages == physPages && mem == ram && |held| == |ram|
      ensures forall f :: 0 <= f < |ram| ==> held[f] == pages.refCnt[f]
    {
      pages, mem, pd, tlb := physPages, ram, 0, map[];
      held := physPages.refCnt[..];
    }

    ghost predicate Valid()
      reads this, pages, pages.refCnt, pages.kernelRange
    {
      && pages.Valid() && pages.totalPages == |mem|
      && VmOk(mem, pd, pages.refCnt[..], held) && Coherent(tlb, mem, pd, {})
    }

    // -------------------------------------------------------------- the hardware

    /** The frame the CPU finds page `p` in. */
    method Translate(p: VPage) returns (f: Pfn)
      requires p < PAGES && Walk(mem, pd, p).Some? && (p in tlb ==> Walk(mem, pd, p) == Some(tlb[p]))
      modifies `tlb
      ensures f == Walk(mem, pd, p).value.pfn && Filled(old(tlb), tlb, mem, pd, p)
    {
      var lost: set<VPage> := *;
      tlb := tlb - lost;
      if p in tlb {
        f := tlb[p].pfn;
      } else {
        f := Walk(mem, pd, p).value.pfn;
        var kept: bool := *;
        if kept { tlb := tlb[p := Walk(mem, pd, p).value]; }
      }
    }

    /** The CPU reads the word at `va`. */
    method Load(va: nat) returns (e: Entry)
      requires va % 4 == 0 && va / 4096 < PAGES && Walk(mem, pd, va / 4096).Some?
      requires Walk(mem, pd, va / 4096).value.pfn < |mem|
      requires va / 4096 in tlb ==> Walk(mem, pd, va / 4096) == Some(tlb[va / 4096])
      modifies `tlb
      ensures e == mem[Walk(mem, pd, va / 4096).value.pfn][va % 4096 / 4] && Filled(old(tlb), tlb, mem, pd, va / 4096)
    {
      var f := Translate(va / 4096);
      e := mem[f][va % 4096 / 4];
    }

    /** The CPU writes the word at `va`, which must be writable. */
    method Store(va: nat, e: Entry)
      requires va % 4 == 0 && va / 4096 < PAGES && Walk(mem, pd, va / 4096).Some?
      requires Walk(mem, pd, va / 4096).value.write
      requires Walk(mem, pd, va / 4096).value.pfn < |mem|
      requires va / 4096 in tlb ==> Walk(mem, pd, va / 4096) == Some(tlb[va / 4096])
      modifies `tlb, `mem
      ensures mem == Put(old(mem), Walk(old(mem), pd, va / 4096).value.pfn, va % 4096 / 4, e)
      ensures Filled(old(tlb), tlb, old(mem), pd, va / 4096)
    {
      var f := Translate(va / 4096);
      mem := Put(mem, f, va % 4096 / 4, e);
    }

    /** memset of a whole page to zero. */
    method Clear(va: nat)
      requires va % 4096 == 0 && va / 4096 < PAGES && Walk(mem, pd, va / 4096).Some?
      requires Walk(mem, pd, va / 4096).value.write
      requires Walk(mem, pd, va / 4096).value.pfn < |mem|
      requires va / 4096 in tlb ==> Walk(mem, pd, va / 4096) == Some(tlb[va / 4096])
      modifies `tlb, `mem
      ensures mem == old(mem)[Walk(old(mem), pd, va / 4096).value.pfn := Zero()]
      ensures Filled(old(tlb), tlb, old(mem), pd, va / 4096)
    {
      var f := Translate(va / 4096);
      mem := mem[f := Zero()];
    }

    method Invlpg(va: nat)
      modifies `tlb
      ensures tlb == old(tlb) - {va / 4096}
    {
      tlb := tlb - {va / 4096};
    }

    // -------------------------------------------------------------- reading through the mirror

    /** Directory entry `i`, as the code reads it. */
    method ReadPde(i: nat) returns (d: Entry)
      requires i < 1024 && Shape(mem, pd) && Coherent(tlb, mem, pd, {})
      modifies `tlb
      ensures d == mem[pd][i] && Coherent(tlb, mem, pd, {}) && Filled(old(tlb), tlb, mem, pd, DIRECTORY / 4096)
    {
      SelfMap(mem, pd, MIRROR);
      PdeAddress(i);
      d := Load(DIRECTORY + 4 * i);
    }

    /** Entry `j` of table `i`, as the code reads it; for the mirror's own entry the table is the directory. */
    method ReadPte(i: nat, j: nat) returns (e: Entry)
      requires i < 1024 && j < 1024 && Shape(mem, pd) && Coherent(tlb, mem, pd, {}) && mem[pd][i].present
      modifies `tlb
      ensures mem[pd][i].pfn < |mem| && e == mem[mem[pd][i].pfn][j] && Coherent(tlb, mem, pd, {})
    {
      SelfMap(mem, pd, i);
      PteAddress(i, j);
      assert i != MIRROR ==> HasTable(mem, pd, i);
      e := Load(TableAt(i) + 4 * j);
    }

    /** sos_paging_get_paddr: exactly what the MMU would find, 0 standing for "not mapped". */
    method GetPaddr(vaddr: nat) returns (paddr: nat)
      requires Valid() && vaddr < 0x1_0000_0000
      modifies `tlb
      ensures Valid()
      ensures paddr == match Walk(mem, pd, vaddr / 4096) case None => 0 case Some(m) => m.pfn * 4096 + vaddr % 4096
    {
      var i, j := vaddr / 0x400000, vaddr / 4096 % 1024;
      SplitAddress(vaddr);
      var d := ReadPde(i);
      if !d.present { return 0; }
      var e := ReadPte(i, j);
      if !e.present { return 0; }
      paddr := e.pfn * 4096 + vaddr % 4096;
    }

    /** sos_paging_get_prot: what the MMU would allow the kernel. */
    method GetProt(vaddr: nat) returns (prot: Prot)
      requires Valid() && vaddr < 0x1_0000_0000
      modifies `tlb
      ensures Valid()
      ensures prot == match Walk(mem, pd, vaddr / 4096) case None => NoAccess case Some(m) => if m.write then ReadWrite
        else Read
    {
      var i, j := vaddr / 0x400000, vaddr / 4096 % 1024;
      SplitAddress(vaddr);
      var d := ReadPde(i);
      if !d.present { return NoAccess; }
      var e := ReadPte(i, j);
      if !e.present { return NoAccess; }
      prot := if d.write && e.write then ReadWrite else Read;
    }

    // -------------------------------------------------------------- writing through the mirror

    /** Allocates table `i` in frame `t`: the directory entry, then the table, once the entry makes it visible. */
    method AddTable(i: nat, t: Pfn, user: bool)
      requires i < 1024 && i != MIRROR && Shape(mem, pd) && Coherent(tlb, mem, pd, {}) && !HasTable(mem, pd, i)
      requires 1 <= t < |mem| && NotATable(mem, pd, t)
      modifies `tlb, `mem
      ensures mem == NewTable(old(mem), pd, i, t, user) && Coherent(tlb, mem, pd, {})
    {
      ghost var mem0, tlb0 := mem, tlb;
      SelfMap(mem, pd, MIRROR);
      PdeAddress(i);
      Store(DIRECTORY + 4 * i, Entry(true, true, user, t));
      PdeSetCoherent(tlb0, tlb, mem0, pd, i, t, user);
      PteAddress(i, 0);
      Invlpg(TableAt(i));
      ghost var mem1, tlb1 := mem, tlb;
      NewPdeShape(mem0, pd, i, t, user);
      SelfMap(mem, pd, i);
      Clear(TableAt(i));
      ClearCoherent(tlb1, tlb, mem1, pd, i);
    }

    /** Writes entry `j` of table `i`, before the TLB is told. */
    method WritePte(i: nat, j: nat, e: Entry)
      requires i < 1024 && j < 1024 && Shape(mem, pd) && Coherent(tlb, mem, pd, {}) && HasTable(mem, pd, i)
      modifies `tlb, `mem
      ensures |mem| == |old(mem)| && mem == Put(old(mem), TableOf(old(mem), pd, i), j, e) && Shape(mem, pd)
      ensures Coherent(tlb, mem, pd, {i * 1024 + j})
    {
      ghost var mem0, tlb0 := mem, tlb;
      SelfMap(mem, pd, i);
      PteAddress(i, j);
      Store(TableAt(i) + 4 * j, e);
      PutPteShape(mem0, pd, i, j, e);
      PteCoherent(tlb0, tlb, mem0, pd, i, j, e);
    }

    /** Drops the directory entry of a table that has no entry left, then its page in the mirror from the TLB. */
    method DropPde(i: nat)
      requires Shape(mem, pd) && Coherent(tlb, mem, pd, {}) && HasTable(mem, pd, i)
      requires Present(mem[TableOf(mem, pd, i)], 1024) == 0
      modifies `tlb, `mem
      ensures |mem| == |old(mem)| && mem == DropTable(old(mem), pd, i) && Coherent(tlb, mem, pd, {})
    {
      ghost var mem0, tlb0 := mem, tlb;
      SelfMap(mem, pd, MIRROR);
      PdeAddress(i);
      PteAddress(i, 0);
      Store(DIRECTORY + 4 * i, NO_ENTRY);
      DropCoherent(tlb0, tlb, mem0, pd, i);
      Invlpg(TableAt(i));
    }

    /** The frames this machine and its callers account for. */
    ghost predicate MayMap(paddr: nat)
      reads this
    {
      paddr % 4096 == 0 && |held| == |mem| && Owned(|mem|, held, paddr / 4096)
    }

    /**
     The first half of sos_paging_map: makes sure that there is a table, and settles the references of the table and of
     the page that was mapped at entry `j`, if any. What is left to do is to write the entry and to reference its page.
     */
    method MakeRoom(i: nat, j: nat, user: bool, ghost e: Entry) returns (ok: bool)
      requires Valid() && i < 1024 && i != MIRROR && j < 1024 && e.present && Owned(|mem|, held, e.pfn)
      modifies `mem, `tlb, pages, pages.refCnt, pages.kernelRange
      ensures pages.Valid() && pages.totalPages == |mem| == |held| && pages.refCnt == old(pages.refCnt)
      ensures pages.kernelRange == old(pages.kernelRange)
      ensures Shape(mem, pd) && Coherent(tlb, mem, pd, {})
      ensures !ok <==> !old(HasTable(mem, pd, i)) && old(pages.free) == []
      ensures !ok ==> mem == old(mem) && pages.refCnt[..] == old(pages.refCnt[..])
      ensures ok && old(HasTable(mem, pd, i)) ==> mem == old(mem)
      ensures ok && !old(HasTable(mem, pd, i)) ==> IsNewTable(old(mem), mem, pd, i, user)
      ensures ok ==>
        HasTable(mem, pd, i) && VmOk(Put(mem, TableOf(mem, pd, i), j, e), pd, OneMore(pages.refCnt[..], e.pfn), held)
      ensures Physmem.KeepOwners(pages.refCnt[..], old(pages.kernelRange[..]), pages.kernelRange[..])
    {
      hide VmOk, Counted, NoAlias, Tidy, Coherent, NewTable, NotATable;
      VmShape(mem, pd, pages.refCnt[..], held);
      var d := ReadPde(i);
      if !d.present {
        ok := NewRoom(i, j, user, e);
      } else {
        SettleOld(i, j, e);
        ok := true;
      }
    }

    /** A table is allocated. */
    method NewRoom(i: nat, j: nat, user: bool, ghost e: Entry) returns (ok: bool)
      requires Valid() && i < 1024 && i != MIRROR && j < 1024 && e.present && Owned(|mem|, held, e.pfn)
      requires !HasTable(mem, pd, i)
      modifies `mem, `tlb, pages, pages.refCnt, pages.kernelRange
      ensures pages.Valid() && pages.totalPages == |mem| == |held| && pages.refCnt == old(pages.refCnt)
      ensures pages.kernelRange == old(pages.kernelRange)
      ensures Shape(mem, pd) && Coherent(tlb, mem, pd, {})
      ensures !ok <==> old(pages.free) == []
      ensures !ok ==> mem == old(mem) && pages.refCnt[..] == old(pages.refCnt[..])
      ensures ok ==> IsNewTable(old(mem), mem, pd, i, user)
      ensures ok ==>
        HasTable(mem, pd, i) && VmOk(Put(mem, TableOf(mem, pd, i), j, e), pd, OneMore(pages.refCnt[..], e.pfn), held)
      ensures Physmem.KeepOwners(pages.refCnt[..], old(pages.kernelRange[..]), pages.kernelRange[..])
    {
      hide VmOk, Counted, NoAlias, Tidy, Coherent, NewTable, NotATable;
      ghost var mem0, refs0 := mem, pages.refCnt[..];
      VmShape(mem, pd, refs0, held);
      var t := pages.RefNew();
      if t == 0 { return false; }
      FreeIsUnknown(mem, pd, refs0, held, t / 4096);
      MapNewKeeps(mem, pd, refs0, held, i, j, t / 4096, user, e, OneMore(pages.refCnt[..], e.pfn));
      NewTableShape(mem0, pd, i, t / 4096, user);
      AddTable(i, t / 4096, user);
      assert IsNewTable(mem0, mem, pd, i, user);
      ok := true;
    }

    /** There is a table: it counts one entry more, or the page that was mapped loses a reference. */
    method SettleOld(i: nat, j: nat, ghost e: Entry)
      requires Valid() && j < 1024 && e.present && Owned(|mem|, held, e.pfn) && HasTable(mem, pd, i)
      modifies `tlb, pages, pages.refCnt, pages.kernelRange
      ensures pages.Valid() && pages.totalPages == |mem| == |held| && pages.refCnt == old(pages.refCnt)
      ensures pages.kernelRange == old(pages.kernelRange)
      ensures Shape(mem, pd) && Coherent(tlb, mem, pd, {})
      ensures VmOk(Put(mem, TableOf(mem, pd, i), j, e), pd, OneMore(pages.refCnt[..], e.pfn), held)
      ensures Physmem.KeepOwners(pages.refCnt[..], old(pages.kernelRange[..]), pages.kernelRange[..])
    {
      hide VmOk, Counted, NoAlias, Tidy, Coherent;
      ghost var refs0 := pages.refCnt[..];
      VmShape(mem, pd, refs0, held);
      var old_ := ReadPte(i, j);
      assert InTable(mem, pd, i, j) && old_ == EntryAt(mem, pd, i, j);
      if !old_.present {
        var d := ReadPde(i);
        RefMapped(d.pfn * 4096);
        MapFreshKeeps(mem, pd, refs0, held, i, j, e, OneMore(pages.refCnt[..], e.pfn));
      } else {
        MappedIsReferenced(mem, pd, refs0, held, i, j);
        var r := Release(old_.pfn);
        MapOverKeeps(mem, pd, refs0, held, i, j, e, pages.refCnt[..], OneMore(pages.refCnt[..], e.pfn));
      }
    }

    /** sos_physmem_ref_physpage_at, for the page that was just mapped, or for its table. */
    method RefMapped(ppage: nat)
      requires pages.Valid() && ppage % 4096 == 0
      modifies pages, pages.refCnt, pages.kernelRange
      ensures pages.Valid() && pages.refCnt == old(pages.refCnt) && pages.kernelRange == old(pages.kernelRange)
      ensures pages.totalPages == old(pages.totalPages)
      ensures pages.refCnt[..] == OneMore(old(pages.refCnt[..]), ppage / 4096)
      ensures Physmem.KeepOwners(pages.refCnt[..], old(pages.kernelRange[..]), pages.kernelRange[..])
      ensures Managed(pages.totalPages, ppage / 4096) && old(pages.refCnt[ppage / 4096]) > 0 ==>
        pages.free == old(pages.free)
    {
      var r := pages.RefAt(ppage);
    }

    /**
     sos_paging_map. It maps the page, unless that is forbidden or there is no memory for a table, and nothing else;
     callers keep the references they had, and the TLB is in order.
     */
    method Map(ppage: nat, vaddr: nat, user: bool, write: bool) returns (ret: Ret)
      requires Valid() && vaddr < 0x1_0000_0000 && MayMap(ppage)
      modifies `mem, `tlb, pages, pages.refCnt, pages.kernelRange
      ensures Valid()
      ensures ret == EINVAL <==> InMirror(vaddr)
      ensures ret == ENOMEM <==> !InMirror(vaddr) && !old(HasTable(mem, pd, vaddr / 0x400000)) && old(pages.free) == []
      ensures ret != OK ==> mem == old(mem) && pages.refCnt[..] == old(pages.refCnt[..])
      ensures ret == OK ==> Remapped(old(mem), mem, pd, vaddr, user, Entry(true, write, user, ppage / 4096))
      ensures Physmem.KeepOwners(pages.refCnt[..], old(pages.kernelRange[..]), pages.kernelRange[..])
      ensures pages.refCnt == old(pages.refCnt) && pages.kernelRange == old(pages.kernelRange)
    {
      hide VmOk, Counted, NoAlias, Tidy, NewTable, NotATable, Walk, Remapped, Shape, Coherent, IsNewTable,
        Physmem.PhysPages.Valid;
      VmShape(mem, pd, pages.refCnt[..], held);
      var i, j := vaddr / 0x400000, vaddr / 4096 % 1024;
      SplitAddress(vaddr);
      OwnersKept();
      if MIRROR_VADDR <= vaddr < MIRROR_VADDR + MIRROR_SIZE { return EINVAL; }
      var e := Entry(true, write, user, ppage / 4096);
      var ok := MakeRoom(i, j, user, e);
      if !ok { return ENOMEM; }
      ghost var mem1, refs1, owners1 := mem, pages.refCnt[..], pages.kernelRange[..];
      WritePte(i, j, e);
      RefMapped(ppage);
      HeldAndMapped(mem1, pd, pages.refCnt[..], held, i, j, e);
      Physmem.KeepTrans(refs1, pages.refCnt[..], old(pages.kernelRange[..]), owners1, pages.kernelRange[..]);
      ghost var stale := tlb;
      Invlpg(vaddr);
      AfterInvlpg(stale, mem, pd, vaddr / 4096);
      MapTranslates(old(mem), mem1, pd, vaddr, i, j, user, e);
      ret := OK;
    }

    lemma OwnersKept()
      requires pages.Valid()
      ensures Physmem.KeepOwners(pages.refCnt[..], pages.kernelRange[..], pages.kernelRange[..])
    {}

    /**
     sos_paging_unmap. Nothing is mapped at `vaddr` afterwards, the other translations are unchanged (but for the page
     of the mirror that showed a table that is gone), callers keep the references they had, and the TLB is in order.
     */
    method Unmap(vaddr: nat) returns (ret: Ret)
      requires Valid() && vaddr < 0x1_0000_0000
      modifies `mem, `tlb, pages, pages.refCnt, pages.kernelRange
      ensures Valid()
      ensures ret == if old(Walk(mem, pd, vaddr / 4096)).None? || InMirror(vaddr) then EINVAL else OK
      ensures ret == EINVAL ==> mem == old(mem) && pages.refCnt[..] == old(pages.refCnt[..])
      ensures ret == OK ==> Dropped(old(mem), mem, pd, vaddr)
      ensures Physmem.KeepOwners(pages.refCnt[..], old(pages.kernelRange[..]), pages.kernelRange[..])
      ensures pages.refCnt == old(pages.refCnt) && pages.kernelRange == old(pages.kernelRange)
    {
      hide VmOk, Counted, NoAlias, Tidy, Coherent, Dropped, Unmapped, DropTable, Physmem.PhysPages.Valid;
      ghost var mem0, refs0 := mem, pages.refCnt[..];
      VmShape(mem, pd, refs0, held);
      var i, j := vaddr / 0x400000, vaddr / 4096 % 1024;
      SplitAddress(vaddr);
      OwnersKept();
      var d := ReadPde(i);
      if !d.present { return EINVAL; }
      var e := ReadPte(i, j);
      if !e.present { return EINVAL; }
      if MIRROR_VADDR <= vaddr < MIRROR_VADDR + MIRROR_SIZE { return EINVAL; }
      assert InTable(mem, pd, i, j) && e == EntryAt(mem, pd, i, j);
      RemoveEntry(vaddr, i, j, e);
      ret := OK;
    }

    /** The second half of sos_paging_unmap. */
    method RemoveEntry(vaddr: nat, i: nat, j: nat, e: Entry)
      requires Valid() && vaddr < 0x1_0000_0000 && i == vaddr / 0x400000 && j == vaddr / 4096 % 1024
      requires InTable(mem, pd, i, j) && e == EntryAt(mem, pd, i, j) && e.present
      modifies `mem, `tlb, pages, pages.refCnt, pages.kernelRange
      ensures Valid() && Dropped(old(mem), mem, pd, vaddr)
      ensures Physmem.KeepOwners(pages.refCnt[..], old(pages.kernelRange[..]), pages.kernelRange[..])
      ensures pages.refCnt == old(pages.refCnt) && pages.kernelRange == old(pages.kernelRange)
    {
      hide VmOk, Counted, NoAlias, Tidy, Coherent, Dropped, DropTable, Walk, Physmem.PhysPages.Valid;
      ghost var mem0, refs0 := mem, pages.refCnt[..];
      SplitAddress(vaddr);
      VmShape(mem, pd, refs0, held);
      MappedIsReferenced(mem, pd, refs0, held, i, j);
      var freed := Release(e.pfn);
      ghost var refs1, owners1 := pages.refCnt[..], pages.kernelRange[..];
      WritePte(i, j, NO_ENTRY);
      ghost var stale := tlb;
      Invlpg(vaddr);
      AfterInvlpg(stale, mem, pd, vaddr / 4096);
      PutPteShape(mem0, pd, i, j, NO_ENTRY);
      var d := ReadPde(i);
      var r := Release(d.pfn);
      assert r != Physmem.EINVAL;
      Physmem.KeepTrans(refs1, pages.refCnt[..], old(pages.kernelRange[..]), owners1, pages.kernelRange[..]);
      UnmapKeeps(mem0, pd, refs0, held, i, j, refs1, pages.refCnt[..]);
      UnmapCounted(mem0, pd, refs0, held, i, j, refs1, pages.refCnt[..]);
      UnmapTranslates(mem0, pd, vaddr, i, j, r == Physmem.TRUE);
      if r == Physmem.TRUE {
        DropPde(i);
      }
    }

    /** sos_physmem_unref_physpage, for a page that is referenced if it is managed. */
    method Release(f: Pfn) returns (r: Physmem.Ret)
      requires pages.Valid() && (Managed(pages.totalPages, f) ==> pages.refCnt[f] >= 1)
      modifies pages, pages.refCnt, pages.kernelRange
      ensures pages.Valid() && pages.refCnt == old(pages.refCnt) && pages.kernelRange == old(pages.kernelRange)
      ensures pages.totalPages == old(pages.totalPages) && pages.refCnt[..] == Bump(old(pages.refCnt[..]), f, -1)
      ensures Managed(pages.totalPages, f) ==> r == if pages.refCnt[f] == 0 then Physmem.TRUE else Physmem.FALSE
      ensures Physmem.KeepOwners(pages.refCnt[..], old(pages.kernelRange[..]), pages.kernelRange[..])
    {
      r := pages.Unref(f * 4096);
    }

    // -------------------------------------------------------------- callers of os/physmem.c

    /** A caller allocates a page. */
    method AllocPage() returns (paddr: nat)
      requires Valid()
      modifies `held, pages, pages.refCnt, pages.kernelRange
      ensures Valid() && (paddr == 0 <==> old(pages.free) == [])
      ensures paddr == 0 ==> held == old(held)
      ensures paddr != 0 ==>
        paddr % 4096 == 0 && Managed(|mem|, paddr / 4096) && held == Bump(old(held), paddr / 4096, 1)
      ensures paddr != 0 ==> old(pages.refCnt[paddr / 4096]) == 0 && pages.free == old(pages.free)[1..]
      ensures Physmem.KeepOwners(pages.refCnt[..], old(pages.kernelRange[..]), pages.kernelRange[..])
      ensures pages.refCnt == old(pages.refCnt) && pages.kernelRange == old(pages.kernelRange)
      ensures old(pages.free) == [] ==> pages.free == [] && pages.refCnt[..] == old(pages.refCnt[..])
      ensures pages.kernelRange[..] == old(pages.kernelRange[..])
    {
      hide NoAlias, Coherent;
      ghost var refs0 := pages.refCnt[..];
      paddr := pages.RefNew();
      if paddr != 0 {
        BumpKeeps(mem, pd, refs0, held, pages.refCnt[..], paddr / 4096, 1);
        held := Bump(held, paddr / 4096, 1);
      }
    }

    /** A caller references a page, which is not one of the tables. */
    method RefPage(paddr: nat) returns (r: Physmem.Ret)
      requires Valid() && NotATable(mem, pd, paddr / 4096)
      modifies `held, pages, pages.refCnt, pages.kernelRange
      ensures Valid() && held == if paddr % 4096 == 0 then Bump(old(held), paddr / 4096, 1) else old(held)
      ensures Physmem.KeepOwners(pages.refCnt[..], old(pages.kernelRange[..]), pages.kernelRange[..])
    {
      hide NoAlias, Coherent;
      ghost var refs0 := pages.refCnt[..];
      r := pages.RefAt(paddr);
      if paddr % 4096 == 0 {
        BumpKeeps(mem, pd, refs0, held, pages.refCnt[..], paddr / 4096, 1);
        held := Bump(held, paddr / 4096, 1);
      }
    }

    /** A caller gives back a reference it owns; the page is free when nobody else references it and nothing maps it. */
    method UnrefPage(paddr: nat) returns (r: Physmem.Ret)
      requires Valid() && MayMap(paddr)
      modifies `held, pages, pages.refCnt, pages.kernelRange
      ensures Valid() && held == Bump(old(held), paddr / 4096, -1)
      ensures Managed(|mem|, paddr / 4096) ==>
        r == if held[paddr / 4096] == 0 && Refs(mem, pd, paddr / 4096, 1024) == 0 then Physmem.TRUE else Physmem.FALSE
      ensures r == Physmem.FALSE ==> pages.free == old(pages.free)
      ensures Physmem.KeepOwners(pages.refCnt[..], old(pages.kernelRange[..]), pages.kernelRange[..])
      ensures pages.refCnt == old(pages.refCnt) && pages.kernelRange == old(pages.kernelRange)
    {
      hide NoAlias, Coherent;
      ghost var refs0 := pages.refCnt[..];
      OwnedIsNoTable(mem, pd, refs0, held, paddr / 4096);
      if Managed(|mem|, paddr / 4096) { OwnedIsCounted(mem, pd, refs0, held, paddr / 4096); }
      r := pages.Unref(paddr);
      BumpKeeps(mem, pd, refs0, held, pages.refCnt[..], paddr / 4096, -1);
      held := Bump(held, paddr / 4096, -1);
    }

    // -------------------------------------------------------------- setup, before the MMU is on

    /** What holds while the setup builds the tables, once the entry of the mirror is added. */
    ghost predicate Building(done: set<VPage>)
      reads this, pages, pages.refCnt, pages.kernelRange
    {
      && pages.Valid() && pages.totalPages == |mem| && 1 <= pd < |mem|
      && VmOk(Mirrored(mem, pd), pd, pages.refCnt[..], held)
      && (forall p :: 0 <= p < PAGES && p / 1024 != MIRROR ==>
            Walk(Mirrored(mem, pd), pd, p) == if p in done then Some(Mapping(p, true, false)) else None)
    }

    /** A table is allocated and cleared, and entered in the directory. */
    method HelperNewTable(i: nat, j: nat, ghost e: Entry) returns (t: Pfn)
      requires pages.Valid() && pages.totalPages == |mem| && 1 <= pd < |mem|
      requires VmOk(Mirrored(mem, pd), pd, pages.refCnt[..], held)
      requires i < 1024 && i != MIRROR && j < 1024 && e.present && Owned(|mem|, held, e.pfn)
      requires !HasTable(Mirrored(mem, pd), pd, i)
      modifies `mem, pages, pages.refCnt, pages.kernelRange
      ensures t == 0 <==> old(pages.free) == []
      ensures t != 0 ==> pages.Valid() && pages.totalPages == |mem| == |old(mem)|
      ensures t != 0 ==> pages.refCnt == old(pages.refCnt) && pages.kernelRange == old(pages.kernelRange)
      ensures t != 0 ==>
        HasTable(Mirrored(mem, pd), pd, i) && TableOf(Mirrored(mem, pd), pd, i) == t && 1 <= t < |mem| && t != pd
          && Shape(Mirrored(mem, pd), pd)
      ensures t != 0 ==> IsNewTable(old(Mirrored(mem, pd)), Mirrored(mem, pd), pd, i, false)
      ensures t != 0 ==> VmOk(Put(Mirrored(mem, pd), t, j, e), pd, OneMore(pages.refCnt[..], e.pfn), held)
      ensures t != 0 && Physmem.NoOwners(old(pages.kernelRange[..])) ==> Physmem.NoOwners(pages.kernelRange[..])
      ensures t != 0 ==> |pages.free| == |old(pages.free)| - 1
    {
      ghost var m0, refs0 := Mirrored(mem, pd), pages.refCnt[..];
      hide Counted, NoAlias, Tidy, VmOk, NewTable, IsNewTable;
      VmShape(m0, pd, refs0, held);
      var paddr := pages.RefNew();
      if paddr == 0 { return 0; }
      t := paddr / 4096;
      FreeIsUnknown(m0, pd, refs0, held, t);
      MapNewKeeps(m0, pd, refs0, held, i, j, t, false, e, OneMore(pages.refCnt[..], e.pfn));
      NewTableShape(m0, pd, i, t, false);
      MirroredNew(mem, pd, i, t);
      mem := mem[t := Zero()];
      mem := Put(mem, pd, i, Entry(true, true, false, t));
    }

    /**
     The first half of paging_setup_map_helper: finds or allocates the table. The case the source calls impossible,
     where the page is mapped already, does not happen.
     */
    method HelperTable(i: nat, j: nat, ghost e: Entry) returns (t: Pfn)
      requires pages.Valid() && pages.totalPages == |mem| && 1 <= pd < |mem|
      requires VmOk(Mirrored(mem, pd), pd, pages.refCnt[..], held)
      requires i < 1024 && i != MIRROR && j < 1024 && e.present && Owned(|mem|, held, e.pfn)
      requires Walk(Mirrored(mem, pd), pd, i * 1024 + j) == None
      modifies `mem, pages, pages.refCnt, pages.kernelRange
      ensures t != 0 ==> pages.Valid() && pages.totalPages == |mem| == |old(mem)|
      ensures t != 0 ==> pages.refCnt == old(pages.refCnt) && pages.kernelRange == old(pages.kernelRange)
      ensures t != 0 ==>
        HasTable(Mirrored(mem, pd), pd, i) && TableOf(Mirrored(mem, pd), pd, i) == t && 1 <= t < |mem| && t != pd
          && Shape(Mirrored(mem, pd), pd)
      ensures t != 0 && HasTable(old(Mirrored(mem, pd)), pd, i) ==> mem == old(mem)
      ensures t != 0 && !HasTable(old(Mirrored(mem, pd)), pd, i) ==>
        IsNewTable(old(Mirrored(mem, pd)), Mirrored(mem, pd), pd, i, false)
      ensures t != 0 ==> VmOk(Put(Mirrored(mem, pd), t, j, e), pd, OneMore(pages.refCnt[..], e.pfn), held)
      ensures t != 0 && Physmem.NoOwners(old(pages.kernelRange[..])) ==> Physmem.NoOwners(pages.kernelRange[..])
      ensures t == 0 <==> !HasTable(old(Mirrored(mem, pd)), pd, i) && old(pages.free) == []
      ensures t != 0 ==>
        |pages.free| == |old(pages.free)| - if HasTable(old(Mirrored(mem, pd)), pd, i) then 0 else 1
    {
      ghost var m0, refs0 := Mirrored(mem, pd), pages.refCnt[..];
      hide Counted, NoAlias, Tidy, VmOk, NewTable, IsNewTable;
      VmShape(m0, pd, refs0, held);
      if mem[pd][i].present {
        t := mem[pd][i].pfn;
        assert HasTable(m0, pd, i) && TableOf(m0, pd, i) == t;
        EntryAbsent(m0, pd, i, j);
        TableCounted(m0, pd, refs0, held, i);
        if !mem[t][j].present {
          RefMapped(t * 4096);
        } else {
          assert false;
        }
        MapFreshKeeps(m0, pd, refs0, held, i, j, e, OneMore(pages.refCnt[..], e.pfn));
      } else {
        t := HelperNewTable(i, j, e);
      }
    }

    /**
     paging_setup_map_helper, for an identity mapping: the reference the kernel had to the page becomes that of the
     mapping.
     */
    method MapHelper(ppage: nat, ghost done: set<VPage>) returns (ret: Ret)
      requires Building(done) && MayMap(ppage) && ppage < MIRROR_VADDR && ppage / 4096 !in done
      modifies `mem, `held, pages, pages.refCnt, pages.kernelRange
      ensures ret == OK || ret == ENOMEM
      ensures ret == OK ==>
        Building(done + {ppage / 4096}) && |mem| == old(|mem|) && pages.refCnt == old(pages.refCnt)
          && pages.kernelRange == old(pages.kernelRange)
      ensures ret == OK ==> held == Bump(old(held), ppage / 4096, -1)
      ensures ret == OK && Physmem.NoOwners(old(pages.kernelRange[..])) ==> Physmem.NoOwners(pages.kernelRange[..])
      ensures ret == ENOMEM <==> ppage / 4096 / 1024 !in Tables(done) && old(pages.free) == []
      ensures ret == OK ==>
        |pages.free| + |Tables(done + {ppage / 4096})| == |old(pages.free)| + |Tables(done)|
    {
      hide Counted, NoAlias, Tidy, VmOk, NewTable, IsNewTable, Walk, Shape, Remapped, Physmem.PhysPages.Valid, Tables;
      var i, j := ppage / 0x400000, ppage / 4096 % 1024;
      SplitAddress(ppage);
      var e := Entry(true, true, false, ppage / 4096);
      ghost var m0 := Mirrored(mem, pd);
      VmShape(m0, pd, pages.refCnt[..], held);
      TableIfMapped(m0, pd, pages.refCnt[..], held, done, i);
      TablesPlus(done, ppage / 4096);
      var t := HelperTable(i, j, e);
      if t == 0 { return ENOMEM; }
      ghost var m1 := Mirrored(mem, pd);
      MapTranslates(m0, m1, pd, ppage, i, j, false, e);
      MirroredPut(mem, pd, t, j, e);
      HelperGives(Put(m1, t, j, e), pd, pages.refCnt[..], held, e.pfn);
      HelperTranslates(m0, Put(m1, t, j, e), pd, ppage, e, done);
      mem := Put(mem, t, j, e);
      held := Bump(held, ppage / 4096, -1);
      ret := OK;
    }

    /**
     One of the two loops of the setup: identity-maps [base, top). It succeeds exactly when there is a free page for
     each table that it needs and that is not there.
     */
    method MapArea(base: nat, top: nat, ghost done: set<VPage>) returns (ret: Ret, ghost done': set<VPage>)
      requires base % 4096 == 0 && top % 4096 == 0 && base <= top <= MIRROR_VADDR && Building(done)
      requires forall p :: base / 4096 <= p < top / 4096 ==> p !in done && Owned(|mem|, held, p)
      modifies `mem, `held, pages, pages.refCnt, pages.kernelRange
      ensures ret == OK || ret == ENOMEM
      ensures ret == OK ==>
        Building(done') && pages.refCnt == old(pages.refCnt) && pages.kernelRange == old(pages.kernelRange)
          && |mem| == old(|mem|) == |held|
      ensures ret == OK ==> done' == done + Area(base / 4096, top / 4096)
      ensures ret == OK ==> HeldOutside(old(held), held, base / 4096, top / 4096)
      ensures ret == OK && Physmem.NoOwners(old(pages.kernelRange[..])) ==> Physmem.NoOwners(pages.kernelRange[..])
      ensures ret == OK <==>
        |old(pages.free)| + |Tables(done)| >= |Tables(done + Area(base / 4096, top / 4096))|
      ensures ret == OK ==> |pages.free| + |Tables(done')| == |old(pages.free)| + |Tables(done)|
    {
      hide Building, Walk, HeldOutside, Tables, Area, Bump, Physmem.NoOwners, Physmem.PhysPages.Valid;
      done' := done;
      var paddr := base;
      BuildingSizes(done');
      NoPageYet(held, done, base / 4096);
      while paddr < top
        invariant base <= paddr <= top && paddr % 4096 == 0 && Building(done')
        invariant |mem| == old(|mem|) == |held| == |old(held)|
        invariant pages.refCnt == old(pages.refCnt) && pages.kernelRange == old(pages.kernelRange)
        invariant Physmem.NoOwners(old(pages.kernelRange[..])) ==> Physmem.NoOwners(pages.kernelRange[..])
        invariant done' == done + Area(base / 4096, paddr / 4096)
        invariant HeldOutside(old(held), held, base / 4096, paddr / 4096)
        invariant |pages.free| + |Tables(done')| == |old(pages.free)| + |Tables(done)|
        modifies `mem, `held, pages, pages.refCnt, pages.kernelRange
      {
        assert paddr / 4096 < top / 4096 && (paddr + 4096) / 4096 == paddr / 4096 + 1;
        assert old(Owned(|mem|, held, paddr / 4096));
        NextPage(old(held), held, done, base / 4096, paddr / 4096);
        var r := MapHelper(paddr, done');
        if r != OK {
          TooFew(done, base / 4096, paddr / 4096, top / 4096);
          return ENOMEM, done';
        }
        done' := done' + {paddr / 4096};
        BuildingSizes(done');
        paddr := paddr + 4096;
      }
      ret := OK;
    }

    lemma BuildingSizes(done: set<VPage>)
      requires Building(done)
      ensures |held| == |mem|
    {}

    /** The pages the kernel runs in, and those of the BIOS and the video memory. */
    static ghost predicate IdentityMapped(p: VPage, base: nat, top: nat) {
      base / 4096 <= p < top / 4096 || Physmem.BIOS_N_VIDEO_START / 4096 <= p < Physmem.BIOS_N_VIDEO_END / 4096
    }

    /**
     sos_paging_subsystem_setup: the kernel and the BIOS area are mapped where they are, the directory maps itself, and
     nothing else is mapped; every reference count is right.
     */
    method Setup(base: nat, top: nat) returns (ret: Ret)
      requires pages.Valid() && pages.totalPages == |mem| == |held| && pages.free != []
      requires base % 4096 == 0 && top % 4096 == 0 && base <= top <= MIRROR_VADDR
      requires top <= Physmem.BIOS_N_VIDEO_START || base >= Physmem.BIOS_N_VIDEO_END
      requires forall f :: 0 <= f < |mem| ==> held[f] == pages.refCnt[f]
      requires forall f :: IdentityMapped(f, base, top) ==> Owned(|mem|, held, f)
      modifies this, pages, pages.refCnt, pages.kernelRange
      ensures ret == if |old(pages.free)| >= 1 + TablesFor(base, top) then OK else ENOMEM
      ensures ret == OK ==> |pages.free| == |old(pages.free)| - 1 - TablesFor(base, top)
      ensures ret == OK ==> Valid()
      ensures ret == OK ==> forall p :: 0 <= p < PAGES && p / 1024 != MIRROR ==>
        Walk(mem, pd, p) == if IdentityMapped(p, base, top) then Some(Mapping(p, true, false)) else None
      ensures ret == OK && Physmem.NoOwners(old(pages.kernelRange[..])) ==> Physmem.NoOwners(pages.kernelRange[..])
      ensures ret == OK ==> pages.refCnt == old(pages.refCnt) && pages.kernelRange == old(pages.kernelRange)
    {
      hide Building, Walk, VmOk, Mirrored, Physmem.PhysPages.Valid, Tables, Area, HeldOutside, TablesFor;
      TablesNeeded(base, top);
      InitDirectory();
      ghost var done: set<VPage> := {};
      var r;
      r, done := MapArea(base, top, done);
      if r != OK { return ENOMEM; }
      BuildingSizes(done);
      StillOwned(|mem|, old(held), held, base, top);
      r, done := MapArea(Physmem.BIOS_N_VIDEO_START, Physmem.BIOS_N_VIDEO_END, done);
      if r != OK { return ENOMEM; }
      MapDirectory(done);
      ret := OK;
    }

    /** The directory is mapped in the mirror, and the MMU told to use it. */
    method MapDirectory(ghost done: set<VPage>)
      requires Building(done)
      modifies `mem, `tlb
      ensures Valid() && |mem| == |old(mem)|
      ensures forall p :: 0 <= p < PAGES && p / 1024 != MIRROR ==>
        Walk(mem, pd, p) == if p in done then Some(Mapping(p, true, false)) else None
    {
      hide Building, Walk, VmOk, Mirrored, Physmem.PhysPages.Valid;
      Finished(done);
      mem := Put(mem, pd, MIRROR, Entry(true, true, false, pd));
      tlb := map[];
      assert mem == Mirrored(old(mem), pd) by { MirroredIs(old(mem), pd); }
    }

    /** The directory is allocated and cleared. */
    method InitDirectory()
      requires pages.Valid() && pages.totalPages == |mem| == |held| && pages.free != []
      requires forall f :: 0 <= f < |mem| ==> held[f] == pages.refCnt[f]
      modifies `mem, `pd, pages, pages.refCnt, pages.kernelRange
      ensures Building({}) && |mem| == old(|mem|) && pages.refCnt == old(pages.refCnt)
      ensures |pages.free| == |old(pages.free)| - 1
      ensures pages.kernelRange == old(pages.kernelRange)
      ensures Physmem.NoOwners(old(pages.kernelRange[..])) ==> Physmem.NoOwners(pages.kernelRange[..])
    {
      var paddr := pages.RefNew();
      pd := paddr / 4096;
      mem := mem[pd := Zero()];
      EmptyDirectory(mem, pd, pages.refCnt[..], held);
    }

    lemma Finished(done: set<VPage>)
      requires Building(done)
      ensures pages.Valid() && pages.totalPages == |mem| && pd < |mem|
      ensures VmOk(Mirrored(mem, pd), pd, pages.refCnt[..], held)
      ensures forall p :: 0 <= p < PAGES && p / 1024 != MIRROR ==>
        Walk(Mirrored(mem, pd), pd, p) == if p in done then Some(Mapping(p, true, false)) else None
    {}
  }

  /** The address the code computes for directory entry `i` lies in page 255 of the mirror, at entry `i`. */
  lemma PdeAddress(i: nat)
    requires i < 1024
    ensures var va := DIRECTORY + 4 * i;
      va % 4 == 0 && va / 4096 == MIRROR * 1024 + MIRROR < PAGES && va % 4096 / 4 == i
  {}

  /** The address the code computes for entry `j` of table `i` lies in page `i` of the mirror, at entry `j`. */
  lemma PteAddress(i: nat, j: nat)
    requires i < 1024 && j < 1024
    ensures var va := TableAt(i) + 4 * j; va % 4 == 0 && va / 4096 == MIRROR * 1024 + i < PAGES && va % 4096 / 4 == j
  {}

  /** virt_to_pd_index and virt_to_pt_index. */
  lemma SplitAddress(vaddr: nat)
    requires vaddr < 0x1_0000_0000
    ensures var i, j := vaddr / 0x400000, vaddr / 4096 % 1024;
      i < 1024 && j < 1024 && vaddr / 4096 == i * 1024 + j < PAGES && (i == MIRROR <==> InMirror(vaddr))
      && vaddr / 4096 / 1024 == i
  {
    assert vaddr / 4096 / 1024 == vaddr / 0x400000;
  }

  // ---------------------------------------------------------------- the TLB stays right

  lemma FilledCoherent(tlb: Tlb, tlb': Tlb, mem: Memory, pd: Pfn, p: VPage, except: set<VPage>)
    requires p < PAGES && Coherent(tlb, mem, pd, except) && Filled(tlb, tlb', mem, pd, p)
    ensures Coherent(tlb', mem, pd, except)
  {}

  /** A directory entry that appears brings no translation the TLB could hold a wrong copy of. */
  lemma PdeSetCoherent(tlb: Tlb, tlb': Tlb, mem: Memory, pd: Pfn, i: nat, t: Pfn, user: bool)
    requires i < 1024 && i != MIRROR && Shape(mem, pd) && Coherent(tlb, mem, pd, {}) && !HasTable(mem, pd, i)
    requires Filled(tlb, tlb', mem, pd, MIRROR * 1024 + MIRROR)
    ensures Coherent(tlb', Put(mem, pd, i, Entry(true, true, user, t)), pd, {})
    ensures MIRROR * 1024 + i !in tlb' && forall q :: q in tlb' ==> q / 1024 != i
  {
    FilledCoherent(tlb, tlb', mem, pd, MIRROR * 1024 + MIRROR, {});
    forall q | q in tlb'
      ensures q / 1024 != i && q != MIRROR * 1024 + i
      ensures Walk(Put(mem, pd, i, Entry(true, true, user, t)), pd, q) == Some(tlb'[q])
    {
      assert q < PAGES && Walk(mem, pd, q) == Some(tlb'[q]);
      SelfMap(mem, pd, i);
      PutPdeWalk(mem, pd, i, Entry(true, true, user, t), q);
    }
  }

  lemma NewPdeShape(mem: Memory, pd: Pfn, i: nat, t: Pfn, user: bool)
    requires i < 1024 && i != MIRROR && Shape(mem, pd) && !HasTable(mem, pd, i) && 1 <= t < |mem|
    requires NotATable(mem, pd, t)
    ensures var mem1 := Put(mem, pd, i, Entry(true, true, user, t));
      Shape(mem1, pd) && HasTable(mem1, pd, i) && TableOf(mem1, pd, i) == t
        && mem1[t := Zero()] == NewTable(mem, pd, i, t, user)
  {
    var mem1 := Put(mem, pd, i, Entry(true, true, user, t));
    assert forall k: nat {:trigger HasTable(mem1, pd, k)} :: k != i ==> HasTable(mem1, pd, k) == HasTable(mem, pd, k);
  }

  /** Clearing the new table, whatever was in its frame, changes no translation the TLB holds. */
  lemma ClearCoherent(tlb: Tlb, tlb': Tlb, mem: Memory, pd: Pfn, i: nat)
    requires Shape(mem, pd) && Coherent(tlb, mem, pd, {}) && HasTable(mem, pd, i)
    requires Filled(tlb, tlb', mem, pd, MIRROR * 1024 + i)
    requires forall q :: q in tlb ==> q / 1024 != i
    ensures Coherent(tlb', mem[TableOf(mem, pd, i) := Zero()], pd, {})
  {
    FilledCoherent(tlb, tlb', mem, pd, MIRROR * 1024 + i, {});
    forall q | q in tlb' ensures Walk(mem[TableOf(mem, pd, i) := Zero()], pd, q) == Some(tlb'[q]) {
      assert q < PAGES && Walk(mem, pd, q) == Some(tlb'[q]) && q / 1024 != i;
      TableWalk(mem, pd, i, Zero(), q);
    }
  }

  lemma PteCoherent(tlb: Tlb, tlb': Tlb, mem: Memory, pd: Pfn, i: nat, j: nat, e: Entry)
    requires j < 1024 && Shape(mem, pd) && Coherent(tlb, mem, pd, {}) && HasTable(mem, pd, i)
    requires Filled(tlb, tlb', mem, pd, MIRROR * 1024 + i)
    ensures Coherent(tlb', Put(mem, TableOf(mem, pd, i), j, e), pd, {i * 1024 + j})
  {
    FilledCoherent(tlb, tlb', mem, pd, MIRROR * 1024 + i, {});
    forall q | q in tlb' && q != i * 1024 + j
      ensures Walk(Put(mem, TableOf(mem, pd, i), j, e), pd, q) == Some(tlb'[q])
    {
      assert q < PAGES && Walk(mem, pd, q) == Some(tlb'[q]);
      PutPteWalk(mem, pd, i, j, e, q);
    }
  }

  /** Dropping a table without entries needs no more than the invlpg of its page in the mirror. */
  lemma DropCoherent(tlb: Tlb, tlb': Tlb, mem: Memory, pd: Pfn, i: nat)
    requires Shape(mem, pd) && Coherent(tlb, mem, pd, {}) && HasTable(mem, pd, i)
    requires Present(mem[TableOf(mem, pd, i)], 1024) == 0
    requires Filled(tlb, tlb', mem, pd, MIRROR * 1024 + MIRROR)
    ensures Coherent(tlb', DropTable(mem, pd, i), pd, {MIRROR * 1024 + i})
  {
    FilledCoherent(tlb, tlb', mem, pd, MIRROR * 1024 + MIRROR, {});
    NonePresent(mem[TableOf(mem, pd, i)], 1024);
    forall q | q in tlb' && q != MIRROR * 1024 + i ensures Walk(DropTable(mem, pd, i), pd, q) == Some(tlb'[q]) {
      assert q < PAGES && Walk(mem, pd, q) == Some(tlb'[q]);
      assert mem[pd][q / 1024].present && mem[mem[pd][q / 1024].pfn][q % 1024].present;
      PutPdeWalk(mem, pd, i, NO_ENTRY, q);
    }
  }

  lemma VmShape(mem: Memory, pd: Pfn, refs: seq<nat>, held: seq<int>)
    requires VmOk(mem, pd, refs, held)
    ensures Shape(mem, pd) && |refs| == |held| == |mem|
  {}

  function OneMore(refs: seq<nat>, f: Pfn): (r: seq<nat>)
    ensures r == Bump(refs, f, 1)
  {
    if Managed(|refs|, f) then refs[f := refs[f] + 1] else refs
  }

  /** `mem1` is `mem` with a new table `i`. */
  ghost predicate IsNewTable(mem: Memory, mem1: Memory, pd: Pfn, i: nat, user: bool)
    requires pd < |mem| == |mem1| && i < 1024
  {
    var t := TableOf(mem1, pd, i);
    1 <= t < |mem| && NotATable(mem, pd, t) && mem1 == NewTable(mem, pd, i, t, user)
  }

  /**
   After map: the page of `vaddr` is where it was asked to be, for the kernel, and for the user if both levels say so;
   every other page keeps its translation, but for the page of the mirror that shows a new table.
   */
  ghost predicate Remapped(mem: Memory, mem': Memory, pd: Pfn, vaddr: nat, user: bool, e: Entry)
    requires vaddr < 0x1_0000_0000 && pd < |mem| == |mem'|
  {
    var i := vaddr / 0x400000;
    && Walk(mem', pd, vaddr / 4096) == Some(Mapping(e.pfn, e.write, mem'[pd][i].user && e.user))
    && mem'[pd][i].user == (if HasTable(mem, pd, i) then mem[pd][i].user else user)
    && (forall p :: 0 <= p < PAGES && p != vaddr / 4096 && p != MIRROR * 1024 + i ==>
      Walk(mem', pd, p) == Walk(mem, pd, p))
    && (HasTable(mem, pd, i) ==> Walk(mem', pd, MIRROR * 1024 + i) == Walk(mem, pd, MIRROR * 1024 + i))
  }

  /**
   After unmap: nothing at `vaddr`; every other page keeps its translation, but for the page of the mirror that showed
   the table, which goes if the table goes.
   */
  ghost predicate Dropped(mem: Memory, mem': Memory, pd: Pfn, vaddr: nat)
    requires vaddr < 0x1_0000_0000 && pd < |mem| == |mem'|
  {
    var i := vaddr / 0x400000;
    && Walk(mem', pd, vaddr / 4096) == None
    && (forall p :: 0 <= p < PAGES && p != vaddr / 4096 && p != MIRROR * 1024 + i ==>
      Walk(mem', pd, p) == Walk(mem, pd, p))
    && Walk(mem', pd, MIRROR * 1024 + i) == (if HasTable(mem', pd, i) then Walk(mem, pd, MIRROR * 1024 + i) else None)
  }

  lemma UnmapTranslates(mem: Memory, pd: Pfn, vaddr: nat, i: nat, j: nat, last: bool)
    requires vaddr < 0x1_0000_0000 && i == vaddr / 0x400000 && j == vaddr / 4096 % 1024
    requires Shape(mem, pd) && InTable(mem, pd, i, j)
    requires last ==> forall x :: 0 <= x < 1024 && x != j ==> !mem[TableOf(mem, pd, i)][x].present
    ensures Dropped(mem, Unmapped(mem, pd, i, j, last), pd, vaddr)
  {
    var mem1, mem2 := Put(mem, TableOf(mem, pd, i), j, NO_ENTRY), Unmapped(mem, pd, i, j, last);
    PutPteShape(mem, pd, i, j, NO_ENTRY);
    assert mem1[pd] == mem[pd];
    if last { DropTableShape(mem1, pd, i); }
    SplitAddress(vaddr);
    SelfMap(mem, pd, i);
    SelfMap(mem2, pd, i);
    forall p: nat | p < PAGES && p != vaddr / 4096 && p != MIRROR * 1024 + i
      ensures Walk(mem2, pd, p) == Walk(mem, pd, p)
    {
      PutPteWalk(mem, pd, i, j, NO_ENTRY, p);
      if last && p / 1024 != i { PutPdeWalk(mem1, pd, i, NO_ENTRY, p); }
      if last && p / 1024 == i { assert p % 1024 != j; }
    }
  }

  lemma AfterInvlpg(tlb: Tlb, mem: Memory, pd: Pfn, p: VPage)
    requires Coherent(tlb, mem, pd, {p})
    ensures Coherent(tlb - {p}, mem, pd, {})
  {}

  /** The translations after a page was mapped, possibly in a new table. */
  lemma MapTranslates(mem: Memory, mem1: Memory, pd: Pfn, vaddr: nat, i: nat, j: nat, user: bool, e: Entry)
    requires i < 1024 && i != MIRROR && j < 1024 && Shape(mem, pd) && |mem1| == |mem| && Shape(mem1, pd)
    requires HasTable(mem1, pd, i) && e.present
    requires HasTable(mem, pd, i) ==> mem1 == mem
    requires !HasTable(mem, pd, i) ==> IsNewTable(mem, mem1, pd, i, user)
    requires vaddr < 0x1_0000_0000 && i == vaddr / 0x400000 && j == vaddr / 4096 % 1024
    ensures Remapped(mem, Put(mem1, TableOf(mem1, pd, i), j, e), pd, vaddr, user, e)
  {
    var mem2 := Put(mem1, TableOf(mem1, pd, i), j, e);
    PutPteShape(mem1, pd, i, j, e);
    assert mem2[pd] == mem1[pd];
    SplitAddress(vaddr);
    SelfMap(mem1, pd, i);
    SelfMap(mem2, pd, i);
    forall p: nat | p < PAGES && p != i * 1024 + j && p != MIRROR * 1024 + i
      ensures Walk(mem2, pd, p) == Walk(mem, pd, p)
    {
      PutPteWalk(mem1, pd, i, j, e, p);
      if !HasTable(mem, pd, i) {
        NewTableWalk(mem, pd, i, TableOf(mem1, pd, i), user, p);
      }
    }
  }

  lemma NewTableWalk(mem: Memory, pd: Pfn, i: nat, t: Pfn, user: bool, p: VPage)
    requires i < 1024 && i != MIRROR && Shape(mem, pd) && !HasTable(mem, pd, i) && 1 <= t < |mem|
    requires NotATable(mem, pd, t)
    requires p < PAGES && p != MIRROR * 1024 + i
    ensures Walk(NewTable(mem, pd, i, t, user), pd, p) == Walk(mem, pd, p)
  {
    NewPdeShape(mem, pd, i, t, user);
    if p / 1024 != i {
      PutPdeWalk(mem, pd, i, Entry(true, true, user, t), p);
      TableWalk(Put(mem, pd, i, Entry(true, true, user, t)), pd, i, Zero(), p);
    }
  }

  /** A page that was just mapped, and is held, has two references at least. */
  lemma HeldAndMapped(mem: Memory, pd: Pfn, refs: seq<nat>, held: seq<int>, i: nat, j: nat, e: Entry)
    requires Shape(mem, pd) && HasTable(mem, pd, i) && j < 1024
    requires VmOk(Put(mem, TableOf(mem, pd, i), j, e), pd, refs, held)
    requires e.present && |held| == |mem| && Owned(|mem|, held, e.pfn)
    ensures Managed(|mem|, e.pfn) ==> |refs| == |mem| && refs[e.pfn] >= 2
  {
    var mem' := Put(mem, TableOf(mem, pd, i), j, e);
    if Managed(|mem|, e.pfn) {
      PutPteShape(mem, pd, i, j, e);
      SomeMaps(mem'[TableOf(mem, pd, i)], j, 1024);
      SomeRefs(mem', pd, e.pfn, i, 1024);
      assert refs[e.pfn] == Refs(mem', pd, e.pfn, 1024) + One(e.pfn == pd) + held[e.pfn];
    }
  }

  lemma OwnedIsCounted(mem: Memory, pd: Pfn, refs: seq<nat>, held: seq<int>, f: Pfn)
    requires VmOk(mem, pd, refs, held) && Owned(|mem|, held, f) && Managed(|mem|, f)
    ensures f != pd && refs[f] == Refs(mem, pd, f, 1024) + held[f]
  {}

  /** A caller takes or gives back a reference to a page that is neither the directory nor a table. */
  lemma BumpKeeps(mem: Memory, pd: Pfn, refs: seq<nat>, held: seq<int>, refs': seq<nat>, f: Pfn, d: int)
    requires VmOk(mem, pd, refs, held) && refs' == Bump(refs, f, d)
    requires Managed(|mem|, f) ==> held[f] + d >= 0
    requires NotATable(mem, pd, f) || (Managed(|mem|, f) && refs[f] == 0)
    ensures VmOk(mem, pd, refs', Bump(held, f, d))
  {
    if Managed(|mem|, f) && refs[f] == 0 { FreeIsUnknown(mem, pd, refs, held, f); }
    BumpCounted(mem, pd, refs, held, refs', f, d);
  }

  // ---------------------------------------------------------------- how little, and how much, the TLB needs

  /**
   Dropping a directory entry needs exactly the invlpg of its page in the mirror, for any TLB that was right before, if
   and only if its table has no entry left. The reference count of the table is what tells.
   */
  lemma DropExactly(mem: Memory, pd: Pfn, i: nat)
    requires Shape(mem, pd) && HasTable(mem, pd, i)
    ensures (forall tlb :: Coherent(tlb, mem, pd, {}) ==> Coherent(tlb, DropTable(mem, pd, i), pd, {MIRROR * 1024 + i}))
      <==> Present(mem[TableOf(mem, pd, i)], 1024) == 0
  {
    var t := TableOf(mem, pd, i);
    NonePresent(mem[t], 1024);
    if Present(mem[t], 1024) == 0 {
      forall tlb | Coherent(tlb, mem, pd, {}) ensures Coherent(tlb, DropTable(mem, pd, i), pd, {MIRROR * 1024 + i}) {
        DropCoherent(tlb, tlb, mem, pd, i);
      }
    } else {
      var j :| 0 <= j < 1024 && mem[t][j].present;
      var p := i * 1024 + j;
      assert p / 1024 == i && p % 1024 == j && Walk(mem, pd, p).Some?;
      var tlb: Tlb := map[p := Walk(mem, pd, p).value];
      assert Coherent(tlb, mem, pd, {});
      assert Walk(DropTable(mem, pd, i), pd, p) == None;
      assert p in tlb && !Coherent(tlb, DropTable(mem, pd, i), pd, {MIRROR * 1024 + i});
    }
  }

  /**
   Between the directory entry of a new table and its memset, the old contents of its frame are seen as translations. A
   TLB that could load them (without any access to those pages) would be left right by the memset if and only if
   there was none to load: map relies on the TLB being filled by accesses only.
   */
  lemma WindowExactly(mem: Memory, pd: Pfn, i: nat)
    requires Shape(mem, pd) && HasTable(mem, pd, i)
    ensures (forall tlb :: Coherent(tlb, mem, pd, {}) ==> Coherent(tlb, mem[TableOf(mem, pd, i) := Zero()], pd, {}))
      <==> forall j :: 0 <= j < 1024 ==> !mem[TableOf(mem, pd, i)][j].present
  {
    var t := TableOf(mem, pd, i);
    var mem' := mem[t := Zero()];
    if forall j :: 0 <= j < 1024 ==> !mem[t][j].present {
      forall tlb | Coherent(tlb, mem, pd, {}) ensures Coherent(tlb, mem', pd, {}) {
        forall q | q in tlb ensures Walk(mem', pd, q) == Some(tlb[q]) {
          assert q < PAGES && Walk(mem, pd, q) == Some(tlb[q]);
          assert mem[mem[pd][q / 1024].pfn][q % 1024].present;
          TableWalk(mem, pd, i, Zero(), q);
        }
      }
    } else {
      var j :| 0 <= j < 1024 && mem[t][j].present;
      var p := i * 1024 + j;
      assert p / 1024 == i && p % 1024 == j && Walk(mem, pd, p).Some?;
      var tlb: Tlb := map[p := Walk(mem, pd, p).value];
      assert Coherent(tlb, mem, pd, {});
      assert Walk(mem', pd, p) == None;
      assert p in tlb && !Coherent(tlb, mem', pd, {});
    }
  }

  /** Unmap undoes map: where nothing was mapped, all translations outside the mirror are what they were. */
  lemma UnmapUndoesMap(mem: Memory, mem1: Memory, mem2: Memory, pd: Pfn, vaddr: nat, user: bool, e: Entry, p: VPage)
    requires vaddr < 0x1_0000_0000 && pd < |mem| == |mem1| == |mem2| && p < PAGES && p / 1024 != MIRROR
    requires Walk(mem, pd, vaddr / 4096) == None && Remapped(mem, mem1, pd, vaddr, user, e)
    requires Dropped(mem1, mem2, pd, vaddr)
    ensures Walk(mem2, pd, p) == Walk(mem, pd, p)
  {
    SplitAddress(vaddr);
    hide Walk;
  }

  // ---------------------------------------------------------------- setup

  /** Memory once the directory maps itself. */
  function Mirrored(mem: Memory, pd: Pfn): (r: Memory)
    requires pd < |mem|
    ensures |r| == |mem|
  {
    Put(mem, pd, MIRROR, Entry(true, true, false, pd))
  }

  lemma EntryAbsent(mem: Memory, pd: Pfn, i: nat, j: nat)
    requires Shape(mem, pd) && HasTable(mem, pd, i) && j < 1024 && Walk(mem, pd, i * 1024 + j) == None
    ensures !mem[TableOf(mem, pd, i)][j].present
  {
    assert (i * 1024 + j) / 1024 == i && (i * 1024 + j) % 1024 == j;
  }

  lemma MirroredPut(mem: Memory, pd: Pfn, t: Pfn, j: nat, e: Entry)
    requires pd < |mem| && t < |mem| && t != pd && j < 1024
    ensures Mirrored(Put(mem, t, j, e), pd) == Put(Mirrored(mem, pd), t, j, e)
  {}

  lemma MirroredNew(mem: Memory, pd: Pfn, i: nat, t: Pfn)
    requires pd < |mem| && t < |mem| && t != pd && i < 1024 && i != MIRROR
    ensures Mirrored(Put(mem[t := Zero()], pd, i, Entry(true, true, false, t)), pd)
      == NewTable(Mirrored(mem, pd), pd, i, t, false)
  {
    var e, m := Entry(true, true, false, t), Entry(true, true, false, pd);
    assert mem[pd][i := e][MIRROR := m] == mem[pd][MIRROR := m][i := e];
  }

  lemma HelperGives(mem: Memory, pd: Pfn, refs: seq<nat>, held: seq<int>, f: Pfn)
    requires |refs| == |mem| && VmOk(mem, pd, OneMore(refs, f), held) && Owned(|mem|, held, f)
    ensures VmOk(mem, pd, refs, Bump(held, f, -1))
  {
    OwnedIsNoTable(mem, pd, OneMore(refs, f), held, f);
    assert refs == Bump(OneMore(refs, f), f, -1);
    BumpKeeps(mem, pd, OneMore(refs, f), held, refs, f, -1);
  }

  lemma HelperTranslates(mem: Memory, mem': Memory, pd: Pfn, vaddr: nat, e: Entry, done: set<VPage>)
    requires pd < |mem| == |mem'| && vaddr < MIRROR_VADDR && e == Entry(true, true, false, vaddr / 4096)
    requires Remapped(mem, mem', pd, vaddr, false, e)
    requires forall p :: 0 <= p < PAGES && p / 1024 != MIRROR ==>
      Walk(mem, pd, p) == if p in done then Some(Mapping(p, true, false)) else None
    ensures forall p :: 0 <= p < PAGES && p / 1024 != MIRROR ==>
      Walk(mem', pd, p) == if p in done + {vaddr / 4096} then Some(Mapping(p, true, false)) else None
  {
    hide Walk;
  }

  /** The directory alone. */
  lemma EmptyDirectory(mem: Memory, pd: Pfn, refs: seq<nat>, held: seq<int>)
    requires 1 <= pd < |mem| == |refs| == |held| && mem[pd] == Zero() && refs[pd] == 1 && held[pd] == 0
    requires forall f :: 0 <= f < |mem| && f != pd ==> held[f] == refs[f]
    ensures VmOk(Mirrored(mem, pd), pd, refs, held)
    ensures forall p :: 0 <= p < PAGES && p / 1024 != MIRROR ==> Walk(Mirrored(mem, pd), pd, p) == None
  {
    var m := Mirrored(mem, pd);
    assert forall i: nat {:trigger HasTable(m, pd, i)} :: !HasTable(m, pd, i);
    forall f | 1 <= f < |mem| ensures Refs(m, pd, f, 1024) == 0 { OnlyVia(m, pd, f, 0, 1024); }
  }

  /** The page numbers in [from, to). */
  function Area(from: nat, to: nat): (s: set<VPage>)
    ensures forall p :: p in s <==> from <= p < to
    ensures |s| == if from <= to then to - from else 0
  {
    if from >= to then {} else Area(from, to - 1) + {to - 1}
  }

  /** The tables that map the pages of `done`. */
  function Tables(done: set<VPage>): set<nat> { set p | p in done :: p / 1024 }

  ghost predicate HeldOutside(held: seq<int>, held': seq<int>, from: nat, to: nat) {
    |held'| == |held| && forall f :: 0 <= f < |held| && !(from <= f < to) ==> held'[f] == held[f]
  }

  /** How many tables the setup needs: that of the BIOS area, and those of the kernel that are others. */
  function TablesFor(base: nat, top: nat): nat {
    if base >= top then 1
    else if base < 0x400000 then (top - 1) / 0x400000 + 1
    else (top - 1) / 0x400000 - base / 0x400000 + 2
  }

  lemma TableCounted(mem: Memory, pd: Pfn, refs: seq<nat>, held: seq<int>, i: nat)
    requires VmOk(mem, pd, refs, held) && HasTable(mem, pd, i)
    ensures |refs| == |mem| && Managed(|mem|, TableOf(mem, pd, i)) && refs[TableOf(mem, pd, i)] > 0
  {
    TableRefs(mem, pd, i);
  }

  /** Tables are there for the pages that are mapped, and for no others. */
  lemma TableIfMapped(mem: Memory, pd: Pfn, refs: seq<nat>, held: seq<int>, done: set<VPage>, i: nat)
    requires VmOk(mem, pd, refs, held) && i < 1024 && i != MIRROR
    requires forall p :: 0 <= p < PAGES && p / 1024 != MIRROR ==>
      Walk(mem, pd, p) == if p in done then Some(Mapping(p, true, false)) else None
    ensures HasTable(mem, pd, i) <==> i in Tables(done)
  {
    hide Counted, NoAlias;
    if HasTable(mem, pd, i) {
      var t := mem[TableOf(mem, pd, i)];
      NonePresent(t, 1024);
      var j: nat :| j < 1024 && t[j].present;
      assert (i * 1024 + j) / 1024 == i && (i * 1024 + j) % 1024 == j;
      assert Walk(mem, pd, i * 1024 + j).Some?;
      assert i * 1024 + j in done;
    }
    if i in Tables(done) {
      var p :| p in done && p / 1024 == i;
      assert Walk(mem, pd, p).Some?;
    }
  }

  lemma TablesPlus(done: set<VPage>, p: VPage)
    ensures Tables(done + {p}) == Tables(done) + {p / 1024}
  {
    forall i ensures i in Tables(done + {p}) <==> i in Tables(done) + {p / 1024} {
      if i in Tables(done) {
        var q :| q in done && q / 1024 == i;
        assert q in done + {p};
      } else if i == p / 1024 {
        assert p in done + {p};
      }
    }
  }

  lemma NoPageYet(held: seq<int>, done: set<VPage>, p: nat)
    ensures done == done + Area(p, p) && HeldOutside(held, held, p, p)
  {}

  lemma NextPage(held: seq<int>, held': seq<int>, done: set<VPage>, from: nat, p: nat)
    requires HeldOutside(held, held', from, p) && p !in done && from <= p && Owned(|held|, held, p)
    ensures p !in done + Area(from, p) && Owned(|held|, held', p)
    ensures done + Area(from, p) + {p} == done + Area(from, p + 1)
    ensures HeldOutside(held, Bump(held', p, -1), from, p + 1)
  {}

  lemma TooFew(done: set<VPage>, from: nat, p: nat, to: nat)
    requires from <= p < to && p / 1024 !in Tables(done + Area(from, p))
    ensures |Tables(done + Area(from, to))| > |Tables(done + Area(from, p))|
  {
    var less, all := Tables(done + Area(from, p)), Tables(done + Area(from, to));
    forall i | i in less ensures i in all {
      var q :| q in done + Area(from, p) && q / 1024 == i;
      assert q in done + Area(from, to);
    }
    assert p in done + Area(from, to);
    Smaller(less, all, p / 1024);
  }

  lemma Smaller(a: set<nat>, b: set<nat>, x: nat)
    requires a <= b && x in b && x !in a
    ensures |a| < |b|
  {
    assert b == a + (b - a) && x in b - a;
  }

  lemma TablesUnion(a: set<VPage>, b: set<VPage>)
    ensures Tables(a + b) == Tables(a) + Tables(b)
  {
    forall i ensures i in Tables(a + b) <==> i in Tables(a) + Tables(b) {
      if i in Tables(a) {
        var p :| p in a && p / 1024 == i;
        assert p in a + b;
      } else if i in Tables(b) {
        var p :| p in b && p / 1024 == i;
        assert p in a + b;
      }
    }
  }

  lemma TablesOfArea(from: nat, to: nat)
    requires from < to
    ensures Tables(Area(from, to)) == Area(from / 1024, (to - 1) / 1024 + 1)
  {
    forall i ensures i in Tables(Area(from, to)) <==> i in Area(from / 1024, (to - 1) / 1024 + 1) {
      if i in Area(from / 1024, (to - 1) / 1024 + 1) {
        var p := if i == from / 1024 then from else i * 1024;
        assert p in Area(from, to) && p / 1024 == i;
      }
    }
  }

  lemma KernelTables(base: nat, top: nat)
    requires base % 4096 == 0 && top % 4096 == 0 && base < top
    ensures Tables(Area(base / 4096, top / 4096)) == Area(base / 0x400000, (top - 1) / 0x400000 + 1)
  {
    hide Area, Tables;
    TablesOfArea(base / 4096, top / 4096);
    assert base / 4096 / 1024 == base / 0x400000 && (top / 4096 - 1) / 1024 == (top - 1) / 0x400000;
  }

  lemma WithTableZero(from: nat, to: nat)
    requires from < to
    ensures |Area(from, to) + Area(0, 1)| == if from == 0 then to else to - from + 1
  {
    hide Area;
    if from == 0 {
      assert Area(from, to) + Area(0, 1) == Area(from, to);
    } else {
      assert Area(from, to) !! Area(0, 1);
    }
  }

  lemma TablesForIs(base: nat, top: nat)
    requires base <= top
    ensures base < top ==> base / 0x400000 < (top - 1) / 0x400000 + 1
    ensures TablesFor(base, top) == if base == top then 1
      else if base / 0x400000 == 0 then (top - 1) / 0x400000 + 1
      else (top - 1) / 0x400000 + 1 - base / 0x400000 + 1
  {}

  lemma WithBiosTable(kernel: set<VPage>, from: nat, to: nat)
    requires from <= to && Tables(kernel) == Area(from, to)
    ensures |Tables(kernel + Area(160, 256))| == if from == to then 1 else if from == 0 then to else to - from + 1
  {
    hide Area, Tables;
    TablesOfArea(160, 256);
    TablesUnion(kernel, Area(160, 256));
    if from < to {
      WithTableZero(from, to);
    } else {
      assert Area(from, to) + Area(0, 1) == Area(0, 1);
    }
  }

  lemma TablesNeeded(base: nat, top: nat)
    requires base % 4096 == 0 && top % 4096 == 0 && base <= top
    ensures Tables({}) == {} && |Tables({} + Area(base / 4096, top / 4096))| <= TablesFor(base, top)
    ensures |Tables({} + Area(base / 4096, top / 4096) + Area(160, 256))| == TablesFor(base, top)
  {
    hide Area, Tables, TablesFor;
    TablesOfNone();
    TablesForIs(base, top);
    var kernel := Area(base / 4096, top / 4096);
    assert {} + kernel == kernel;
    if base < top {
      KernelTables(base, top);
      WithBiosTable(kernel, base / 0x400000, (top - 1) / 0x400000 + 1);
    } else {
      NoneIn(kernel);
      WithBiosTable(kernel, 0, 0);
    }
  }

  lemma NoneIn(a: set<VPage>)
    requires |a| == 0
    ensures a == {} && Tables(a) == Area(0, 0)
  {}

  /** The tables that are there once the setup is done. */
  lemma FirstTables(mem: Memory, pd: Pfn, refs: seq<nat>, held: seq<int>, base: nat, top: nat, i: nat)
    requires VmOk(mem, pd, refs, held) && i < 1024 && i != MIRROR
    requires base % 4096 == 0 && top % 4096 == 0 && base <= top
    requires forall p :: 0 <= p < PAGES && p / 1024 != MIRROR ==>
      Walk(mem, pd, p) == if Mmu.IdentityMapped(p, base, top) then Some(Mapping(p, true, false)) else None
    ensures HasTable(mem, pd, i) <==> i == 0 || (base < top && base / 0x400000 <= i <= (top - 1) / 0x400000)
  {
    hide VmOk, Walk, HasTable, Area, Tables;
    var kernel := Area(base / 4096, top / 4096);
    assert forall p :: p in kernel + Area(160, 256) <==> Mmu.IdentityMapped(p, base, top);
    TableIfMapped(mem, pd, refs, held, kernel + Area(160, 256), i);
    TablesUnion(kernel, Area(160, 256));
    TablesOfArea(160, 256);
    if base < top { KernelTables(base, top); } else { NoneIn(kernel); }
  }

  lemma TablesOfNone()
    ensures Tables({}) == {}
  {}

  lemma StillOwned(n: nat, held: seq<int>, held': seq<int>, base: nat, top: nat)
    requires n == |held| && HeldOutside(held, held', base / 4096, top / 4096)
    requires top <= Physmem.BIOS_N_VIDEO_START || base >= Physmem.BIOS_N_VIDEO_END
    requires forall f :: Mmu.IdentityMapped(f, base, top) ==> Owned(n, held, f)
    ensures forall p :: Physmem.BIOS_N_VIDEO_START / 4096 <= p < Physmem.BIOS_N_VIDEO_END / 4096 ==>
      !(base / 4096 <= p < top / 4096) && Owned(n, held', p)
  {
    forall p: nat | Physmem.BIOS_N_VIDEO_START / 4096 <= p < Physmem.BIOS_N_VIDEO_END / 4096
      ensures !(base / 4096 <= p < top / 4096) && Owned(n, held', p)
    {
      assert Mmu.IdentityMapped(p, base, top);
      assert Owned(n, held, p);
    }
  }

  lemma MirroredIs(mem: Memory, pd: Pfn)
    requires pd < |mem|
    ensures Mirrored(mem, pd) == Put(mem, pd, MIRROR, Entry(true, true, false, pd))
  {}
}
