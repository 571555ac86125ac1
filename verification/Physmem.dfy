/**
 Physical pages and their reference counts (os/physmem.c): an array of page descriptors, a list of free pages and
 a list of used pages. Pages are designated by their physical address.
 */
module Physmem {

  const PAGE := 4096
  /** SOS_PAGE_SIZE: page 0 is set aside so that address 0 can mean "no page". */
  const PHYSMEM_BASE := 4096
  const BIOS_N_VIDEO_START := 0xa0000
  const BIOS_N_VIDEO_END := 0x100000
  /** sizeof(struct physical_page_descr). */
  const DESCR_SIZE := 20

  datatype Ret = OK | FALSE | TRUE | EINVAL | ENOMEM
  datatype Mark = Reserved | Free | Kernel | HwMap

  function AlignInf(x: nat): nat { x / PAGE * PAGE }

  function AlignSup(x: nat): nat { (x + PAGE - 1) / PAGE * PAGE }

  predicate NoDup<T(==)>(s: seq<T>) { forall i, j :: 0 <= i < j < |s| ==> s[i] != s[j] }

  /** What the page at address `a` is used for, for a kernel loaded at [bKernel, coreTop). */
  function Classify(a: nat, bKernel: nat, coreTop: nat): Mark {
    if a < PHYSMEM_BASE then Reserved
    else if a < BIOS_N_VIDEO_START then Free
    else if a < BIOS_N_VIDEO_END then HwMap
    else if a < bKernel then Free
    else if AlignInf(bKernel) <= a && a < coreTop then Kernel
    else Free
  }

  /** Whether the page is in use from the start. */
  predicate InUse(m: Mark) { m == Kernel || m == HwMap }

  /** Top of the array of page descriptors, which follows the kernel. */
  function CoreTop(ram: nat, eKernel: nat): nat { AlignSup(eKernel) + AlignSup(ram / PAGE * DESCR_SIZE) }

  /**
   Every page of the kernel core is kept out of the free list if and only if the kernel starts above the conventional
   memory, on a page boundary (or inside the BIOS area): otherwise its first page is classified as free.
   */
  lemma KernelIsProtected(bKernel: nat, coreTop: nat)
    requires bKernel < coreTop
    ensures (forall a: nat :: a % PAGE == 0 && AlignInf(bKernel) <= a < coreTop ==>
      InUse(Classify(a, bKernel, coreTop)))
      <==> BIOS_N_VIDEO_START <= bKernel && (bKernel % PAGE == 0 || bKernel < BIOS_N_VIDEO_END)
  {
    var base := AlignInf(bKernel);
    assert base % PAGE == 0 && base <= bKernel < base + PAGE;
    if forall a: nat :: a % PAGE == 0 && base <= a < coreTop ==> InUse(Classify(a, bKernel, coreTop)) {
      assert InUse(Classify(base, bKernel, coreTop));
    }
  }

  /** `l` without its only occurrence of `x`. */
  function Remove(l: seq<nat>, x: nat): seq<nat> {
    if l == [] then [] else if l[0] == x then l[1..] else [l[0]] + Remove(l[1..], x)
  }

  lemma {:induction false} RemoveFacts(l: seq<nat>, x: nat)
    requires NoDup(l)
    ensures NoDup(Remove(l, x)) && (forall y :: y in Remove(l, x) <==> y in l && y != x)
    ensures |Remove(l, x)| == if x in l then |l| - 1 else |l|
  {
    if l == [] {
    } else {
      var r := l[1..];
      assert l == [l[0]] + r;
      assert NoDup(r) && l[0] !in r;
      RemoveFacts(r, x);
    }
  }

  lemma {:induction false} SameLength(a: seq<nat>, b: seq<nat>)
    requires NoDup(a) && NoDup(b) && forall x :: x in a <==> x in b
    ensures |a| == |b|
  {
    if a == [] {
      if b != [] { FirstIn(b); }
    } else {
      FirstIn(a);
      RemoveFacts(a, a[0]);
      RemoveFacts(b, a[0]);
      SameLength(Remove(a, a[0]), Remove(b, a[0]));
    }
  }

  class PhysPages {
    /**
     physical_page_descr_array: per page, the reference count and the kernel range the page is mapped in (0 for none).
     */
    var refCnt: array<nat>
    var kernelRange: array<int>
    /** free_ppage and used_ppage, as page numbers. */
    var free: seq<nat>
    var used: seq<nat>
    var totalPages: nat
    var usedPages: nat

    /**
     A page is in the free list exactly when nobody references it, in the used list exactly when someone does; free
     pages belong to no range.
     */
    ghost predicate Valid()
      reads this, refCnt, kernelRange
    {
      && refCnt != kernelRange as object && kernelRange.Length == refCnt.Length == totalPages && totalPages >= 1
      && NoDup(free) && NoDup(used) && usedPages == |used|
      && refCnt[0] == 0 && 0 !in free && 0 !in used
      && (forall p :: p in free <==> 1 <= p < refCnt.Length && refCnt[p] == 0)
      && (forall p :: p in used <==> 1 <= p < refCnt.Length && refCnt[p] > 0)
      && (forall p :: 0 <= p < refCnt.Length && refCnt[p] == 0 ==> kernelRange[p] == 0)
    }

    /** The page descriptor index for an address, if the address is that of a managed page. */
    function Page(paddr: nat): (p: nat)
      reads this
      ensures p != 0 ==> paddr == p * PAGE && p < totalPages
      ensures p == 0 ==> paddr % PAGE != 0 || paddr < PHYSMEM_BASE || paddr >= totalPages * PAGE
    {
      if paddr % PAGE != 0 then 0
      else if paddr < PHYSMEM_BASE || paddr >= totalPages * PAGE then 0
      else paddr / PAGE
    }

    constructor ()
      ensures Valid() && fresh(refCnt) && fresh(kernelRange)
    {
      refCnt, kernelRange := new nat[1](_ => 0), new int[1](_ => 0);
      free, used, totalPages, usedPages := [], [], 1, 0;
    }

    /** What the loop of the setup has done for the pages below `n`. */
    ghost predicate Scanned(n: nat, bKernel: nat, coreTop: nat)
      reads this, refCnt, kernelRange
    {
      && refCnt != kernelRange as object && kernelRange.Length == refCnt.Length && n <= refCnt.Length
      && totalPages == n && usedPages == |used| && NoDup(free) && NoDup(used)
      && (forall p :: 0 <= p < n ==> refCnt[p] == if InUse(Classify(p * PAGE, bKernel, coreTop)) then 1 else 0)
      && (forall p :: 0 <= p < n ==> kernelRange[p] == 0)
      && (forall p :: p in free <==> 1 <= p < n && !InUse(Classify(p * PAGE, bKernel, coreTop)))
      && (forall p :: p in used <==> 1 <= p < n && InUse(Classify(p * PAGE, bKernel, coreTop)))
    }

    /** sos_physmem_subsystem_setup, for a kernel that the linker put at [bKernel, eKernel). */
    method Setup(ram: nat, bKernel: nat, eKernel: nat) returns (ret: Ret, coreBase: nat, coreTop: nat)
      requires bKernel < eKernel
      modifies this
      ensures coreBase == AlignInf(bKernel) && coreTop == CoreTop(AlignInf(ram), eKernel)
      ensures ret == if coreTop > AlignInf(ram) then ENOMEM else OK
      ensures ret == OK ==> fresh(refCnt) && fresh(kernelRange) && totalPages == ram / PAGE && Valid()
      ensures ret == OK <==> free != []
      ensures ret == OK ==> forall p :: 0 <= p < ram / 4096 ==>
        (p in free <==> p >= 1 && (p * 4096 < 0xa0000 || (p * 4096 >= 0x100000 && !(bKernel <= p * 4096 < coreTop))))
      ensures coreTop % 4096 == 0 && eKernel + ram / 4096 * DESCR_SIZE <= coreTop
      ensures coreTop < eKernel + ram / 4096 * DESCR_SIZE + 2 * 4096
      ensures ret == OK && bKernel >= 0x100000 ==>
        |free| == ram / 4096 - 1 - (0x100000 - 0xa0000) / 4096 - (coreTop - AlignSup(bKernel)) / 4096
      ensures ret == OK ==> forall p :: 0 <= p < refCnt.Length ==>
        refCnt[p] == (if InUse(Classify(p * PAGE, bKernel, coreTop)) then 1 else 0) && kernelRange[p] == 0
    {
      hide Classify, InUse, Scanned;
      var size := AlignInf(ram);
      free, used := [], [];
      totalPages, usedPages := 0, 0;
      coreBase := AlignInf(bKernel);
      coreTop := AlignSup(eKernel) + AlignSup(size / PAGE * DESCR_SIZE);
      if coreTop > size {
        return ENOMEM, coreBase, coreTop;
      }
      refCnt, kernelRange := new nat[size / PAGE], new int[size / PAGE];
      Scan(size, bKernel, coreTop);
      AllScanned(ram / PAGE, bKernel, coreTop);
      if bKernel >= BIOS_N_VIDEO_END { InitialCount(ram / PAGE, bKernel, coreTop); }
      ret := OK;
    }

    /** The loop of the setup. */
    method Scan(size: nat, bKernel: nat, coreTop: nat)
      requires refCnt != kernelRange as object && kernelRange.Length == refCnt.Length && refCnt.Length * PAGE == size
      requires free == [] && used == [] && totalPages == 0 && usedPages == 0
      modifies this, refCnt, kernelRange
      ensures refCnt == old(refCnt) && kernelRange == old(kernelRange) && totalPages == refCnt.Length
      ensures Scanned(size / PAGE, bKernel, coreTop)
    {
      var addr := 0;
      while addr < size
        invariant addr % PAGE == 0 && addr <= size && refCnt == old(refCnt) && kernelRange == old(kernelRange)
        invariant Scanned(addr / PAGE, bKernel, coreTop)
      {
        Mark(addr / PAGE, bKernel, coreTop);
        addr := addr + PAGE;
      }
    }

    lemma AllScanned(n: nat, bKernel: nat, coreTop: nat)
      requires Scanned(n, bKernel, coreTop) && refCnt.Length == n >= 2
      ensures Valid() && free != []
      ensures forall p :: 0 <= p < n ==>
        (p in free <==> p >= 1 && (p * 4096 < 0xa0000 || (p * 4096 >= 0x100000 && !(bKernel <= p * 4096 < coreTop))))
    {
      assert Classify(1 * PAGE, bKernel, coreTop) == Free;
      assert 1 in free;
    }

    lemma InitialCount(n: nat, bKernel: nat, coreTop: nat)
      requires Scanned(n, bKernel, coreTop) && BIOS_N_VIDEO_END <= bKernel < coreTop <= n * PAGE && coreTop % PAGE == 0
      ensures |free| == n - 1 - (BIOS_N_VIDEO_END - BIOS_N_VIDEO_START) / PAGE - (coreTop - AlignSup(bKernel)) / PAGE
    {
      var core := AlignSup(bKernel) / PAGE;
      assert core <= coreTop / PAGE <= n && (coreTop - AlignSup(bKernel)) / PAGE == coreTop / PAGE - core;
      forall p: nat
        ensures p in used
          <==> (BIOS_N_VIDEO_START / PAGE <= p < BIOS_N_VIDEO_END / PAGE || core <= p < coreTop / PAGE)
      {
        assert p * PAGE < coreTop <==> p < coreTop / PAGE;
        assert bKernel <= p * PAGE <==> core <= p;
        if AlignInf(bKernel) <= p * PAGE && p * PAGE < bKernel { assert p * PAGE % PAGE == 0; }
      }
      TwoAreas(used, BIOS_N_VIDEO_START / PAGE, BIOS_N_VIDEO_END / PAGE, core, coreTop / PAGE);
      Apart(free, used);
      Census(free + used, n);
    }

    /** The body of the loop of the setup. */
    method Mark(p: nat, bKernel: nat, coreTop: nat)
      requires p < refCnt.Length && Scanned(p, bKernel, coreTop)
      modifies this, refCnt, kernelRange
      ensures refCnt == old(refCnt) && kernelRange == old(kernelRange) && Scanned(p + 1, bKernel, coreTop)
    {
      kernelRange[p] := 0;
      totalPages := totalPages + 1;
      match Classify(p * PAGE, bKernel, coreTop) {
        case Free =>
          refCnt[p] := 0;
          free := [p] + free;
        case Reserved =>
          refCnt[p] := 0;
        case _ =>
          refCnt[p] := 1;
          used := [p] + used;
          usedPages := usedPages + 1;
      }
    }

    /** sos_physmem_ref_physpage_new: a page that was free, or 0 when there is none. */
    method RefNew() returns (paddr: nat)
      requires Valid()
      modifies `free, `used, `usedPages, refCnt, kernelRange
      ensures Valid()
      ensures KeepOwners(refCnt[..], old(kernelRange[..]), kernelRange[..])
      ensures old(free) == [] ==> paddr == 0 && free == old(free) && used == old(used) && refCnt[..] == old(refCnt[..])
      ensures old(free) != [] ==>
        && paddr == old(free)[0] * PAGE && 1 <= old(free)[0] < totalPages && old(refCnt[free[0]]) == 0
        && refCnt[..] == old(refCnt[..])[old(free)[0] := 1]
        && free == old(free)[1..] && used == old(used) + [old(free)[0]]
      ensures kernelRange[..] == if old(free) == [] then old(kernelRange[..])
        else old(kernelRange[..])[old(free)[0] := 0]
    {
      if free == [] { return 0; }
      var p := free[0];
      assert p in free && free == [p] + free[1..];
      free := free[1..];
      assert refCnt[p] == 0;
      refCnt[p] := refCnt[p] + 1;
      kernelRange[p] := 0;
      used := used + [p];
      usedPages := usedPages + 1;
      paddr := p * PAGE;
    }

    /** sos_physmem_ref_physpage_at: TRUE when the page was already in use. */
    method RefAt(paddr: nat) returns (ret: Ret)
      requires Valid()
      modifies `free, `used, `usedPages, refCnt, kernelRange
      ensures Valid()
      ensures KeepOwners(refCnt[..], old(kernelRange[..]), kernelRange[..])
      ensures Page(paddr) == 0 ==>
        ret == EINVAL && refCnt[..] == old(refCnt[..]) && free == old(free) && used == old(used)
      ensures Page(paddr) != 0 ==> refCnt[..] == old(refCnt[..])[Page(paddr) := old(refCnt[Page(paddr)] + 1)]
      ensures Page(paddr) != 0 ==> ret == if old(refCnt[Page(paddr)]) == 0 then FALSE else TRUE
      ensures ret == TRUE ==> free == old(free) && used == old(used)
      ensures ret == FALSE ==> free == Remove(old(free), Page(paddr)) && used == old(used) + [Page(paddr)]
      ensures kernelRange[..] == if ret == FALSE then old(kernelRange[..])[Page(paddr) := 0] else old(kernelRange[..])
    {
      var p := Page(paddr);
      if p == 0 { return EINVAL; }
      RemoveFacts(free, p);
      refCnt[p] := refCnt[p] + 1;
      if refCnt[p] == 1 {
        free := Remove(free, p);
        kernelRange[p] := 0;
        used := used + [p];
        usedPages := usedPages + 1;
        return FALSE;
      }
      ret := TRUE;
    }

    /** sos_physmem_unref_physpage: TRUE when that was the last reference, and the page is free now. */
    method Unref(paddr: nat) returns (ret: Ret)
      requires Valid()
      modifies `free, `used, `usedPages, refCnt, kernelRange
      ensures Valid()
      ensures KeepOwners(refCnt[..], old(kernelRange[..]), kernelRange[..])
      ensures Page(paddr) == 0 || old(refCnt[Page(paddr)]) == 0 ==>
        ret == EINVAL && refCnt[..] == old(refCnt[..]) && kernelRange[..] == old(kernelRange[..]) && free == old(free)
          && used == old(used)
      ensures ret == FALSE ==> free == old(free) && used == old(used)
      ensures ret == TRUE ==> free == [Page(paddr)] + old(free) && used == Remove(old(used), Page(paddr))
      ensures Page(paddr) != 0 && old(refCnt[Page(paddr)]) > 0 ==>
        && refCnt[..] == old(refCnt[..])[Page(paddr) := old(refCnt[Page(paddr)] - 1)]
        && ret == (if old(refCnt[Page(paddr)]) == 1 then TRUE else FALSE)
        && kernelRange[..] == if ret == TRUE then old(kernelRange[..])[Page(paddr) := 0] else old(kernelRange[..])
    {
      var p := Page(paddr);
      if p == 0 { return EINVAL; }
      if refCnt[p] <= 0 { return EINVAL; }
      ret := FALSE;
      RemoveFacts(used, p);
      refCnt[p] := refCnt[p] - 1;
      if refCnt[p] <= 0 {
        kernelRange[p] := 0;
        used := Remove(used, p);
        usedPages := usedPages - 1;
        free := [p] + free;
        ret := TRUE;
      }
    }

    /** sos_physmem_get_kmem_range. */
    method GetKmemRange(paddr: nat) returns (r: int)
      requires Valid()
      ensures r == if Page(paddr) == 0 then 0 else kernelRange[Page(paddr)]
    {
      if Page(paddr) == 0 { return 0; }
      r := kernelRange[Page(paddr)];
    }

    /** sos_physmem_set_kmem_range. It must not give a range to a free page, which it does not check. */
    method SetKmemRange(paddr: nat, r: int) returns (ret: Ret)
      requires Valid()
      modifies kernelRange
      ensures Valid() <==> Page(paddr) == 0 || refCnt[Page(paddr)] > 0 || r == 0
      ensures refCnt[..] == old(refCnt[..])
      ensures Page(paddr) == 0 ==> ret == EINVAL && kernelRange[..] == old(kernelRange[..])
      ensures Page(paddr) != 0 ==> ret == OK && kernelRange[..] == old(kernelRange[..])[Page(paddr) := r]
    {
      if Page(paddr) == 0 { return EINVAL; }
      kernelRange[Page(paddr)] := r;
      ret := OK;
    }

    /** sos_physmem_get_state: the number of pages, and of those in the used list. */
    method GetState() returns (total: nat, inUse: nat)
      requires Valid()
      ensures total == totalPages && inUse == |used|
      ensures |free| + inUse == total - 1
    {
      Apart(free, used);
      Census(free + used, totalPages);
      total, inUse := totalPages, usedPages;
    }
  }

  /** Every page keeps its owner, unless it became free. */
  ghost predicate KeepOwners(refs: seq<nat>, owners: seq<int>, owners': seq<int>) {
    |owners| == |owners'| == |refs| && forall f :: 0 <= f < |refs| ==> owners'[f] == if refs[f] == 0 then 0
      else owners[f]
  }

  lemma KeepTrans(refs1: seq<nat>, refs2: seq<nat>, a: seq<int>, b: seq<int>, c: seq<int>)
    requires KeepOwners(refs1, a, b) && KeepOwners(refs2, b, c)
    requires forall f :: 0 <= f < |refs1| && refs1[f] == 0 && f < |refs2| ==> refs2[f] == 0
    ensures KeepOwners(refs2, a, c)
  {}

  ghost predicate NoOwners(owners: seq<int>) { forall f :: 0 <= f < |owners| ==> owners[f] == 0 }

  lemma Apart(a: seq<nat>, b: seq<nat>)
    requires NoDup(a) && NoDup(b) && forall x :: x in a ==> x !in b
    ensures NoDup(a + b)
  {
    forall i, j | 0 <= i < j < |a + b| ensures (a + b)[i] != (a + b)[j] {
      if i < |a| && j >= |a| { assert a[i] in a && b[j - |a|] in b; }
    }
  }

  lemma FirstIn(l: seq<nat>)
    requires l != []
    ensures l[0] in l
  {}

  /** A list without repetition of the numbers of two intervals. */
  lemma {:induction false} TwoAreas(l: seq<nat>, lo: nat, hi: nat, from: nat, to: nat)
    requires NoDup(l) && lo <= hi <= from <= to && forall p :: p in l <==> lo <= p < hi || from <= p < to
    ensures |l| == (hi - lo) + (to - from)
    decreases hi + to
  {
    if from < to {
      RemoveFacts(l, to - 1);
      assert to - 1 in l;
      TwoAreas(Remove(l, to - 1), lo, hi, from, to - 1);
    } else if lo < hi {
      RemoveFacts(l, hi - 1);
      assert hi - 1 in l;
      TwoAreas(Remove(l, hi - 1), lo, hi - 1, from, to);
    } else if l != [] {
      FirstIn(l);
    }
  }

  /** A list without repetition of all numbers from 1 below `n` has n - 1 elements. */
  lemma {:induction false} Census(l: seq<nat>, n: nat)
    requires n >= 1 && NoDup(l) && forall p :: p in l <==> 1 <= p < n
    ensures |l| == n - 1
    decreases n
  {
    if n == 1 {
      if l != [] { FirstIn(l); }
    } else {
      RemoveFacts(l, n - 1);
      assert n - 1 in l;
      Census(Remove(l, n - 1), n - 1);
    }
  }
}
