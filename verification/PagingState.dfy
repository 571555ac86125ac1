/**
 Two-level page tables that map themselves (hwcore/paging.c), on snapshots: what the MMU does with them, and what one
 change of an entry does to translations and to the counts of references.

 Memory is a sequence of frames, each seen as 1024 entries; directory and table entries have the same format, which is
 what makes the self-map work. Virtual pages are numbered from 0 to 0xfffff.
 */
module PagingState {

  type Pfn = nat
  type VPage = nat

  datatype Option<+T> = None | Some(value: T)

  /** The fields that struct x86_pde and struct x86_pte share, and that translation uses. */
  datatype Entry = Entry(present: bool, write: bool, user: bool, pfn: Pfn)

  const NO_ENTRY := Entry(false, false, false, 0)
  const PAGES := 1024 * 1024

  type Table = t: seq<Entry> | |t| == 1024 witness seq(1024, _ => NO_ENTRY)
  type Memory = seq<Table>

  /** A table without entries. */
  function Zero(): (t: Table)
    ensures forall j :: 0 <= j < 1024 ==> t[j] == NO_ENTRY
  {
    seq(1024, _ => NO_ENTRY)
  }

  /** SOS_PAGING_MIRROR_VADDR, SOS_PAGING_MIRROR_SIZE, and the directory entry of the mirror. */
  const MIRROR_VADDR := 0x40000000 - 0x400000
  const MIRROR_SIZE := 0x400000
  const MIRROR := 255

  /** Where a virtual page is mapped, and what it allows. */
  datatype Mapping = Mapping(pfn: Pfn, write: bool, user: bool)

  /** The walk of the MMU. (Intel IA-32 manual, volume 3, section 3.6.) */
  function Walk(mem: Memory, pd: Pfn, p: VPage): Option<Mapping>
    requires p < PAGES
  {
    if pd >= |mem| then None
    else
      var d := mem[pd][p / 1024];
      if !d.present || d.pfn >= |mem| then None
      else
        var e := mem[d.pfn][p % 1024];
        if !e.present then None else Some(Mapping(e.pfn, d.write && e.write, d.user && e.user))
  }

  /** Memory once entry `j` of frame `f` is `e`. */
  function Put(mem: Memory, f: Pfn, j: nat, e: Entry): Memory
    requires f < |mem| && j < 1024
  {
    mem[f := mem[f][j := e]]
  }

  /** Directory entry `i` leads to a table of its own (entry 255 leads to the directory itself). */
  predicate HasTable(mem: Memory, pd: Pfn, i: nat)
    requires pd < |mem|
  {
    i < 1024 && i != MIRROR && mem[pd][i].present
  }

  function TableOf(mem: Memory, pd: Pfn, i: nat): Pfn
    requires pd < |mem| && i < 1024
  {
    mem[pd][i].pfn
  }

  /** The directory maps itself; the tables are distinct managed frames, and are writable. */
  ghost predicate Shape(mem: Memory, pd: Pfn) {
    && 1 <= pd < |mem|
    && mem[pd][MIRROR] == Entry(true, true, false, pd)
    && (forall i: nat {:trigger HasTable(mem, pd, i)} :: HasTable(mem, pd, i) ==>
          1 <= TableOf(mem, pd, i) < |mem| && TableOf(mem, pd, i) != pd && mem[pd][i].write)
    && (forall i, j {:trigger HasTable(mem, pd, i), HasTable(mem, pd, j)} ::
          HasTable(mem, pd, i) && HasTable(mem, pd, j) && TableOf(mem, pd, i) == TableOf(mem, pd, j) ==> i == j)
  }

  predicate InTable(mem: Memory, pd: Pfn, i: nat, j: nat)
    requires pd < |mem|
  {
    HasTable(mem, pd, i) && j < 1024 && TableOf(mem, pd, i) < |mem|
  }

  function EntryAt(mem: Memory, pd: Pfn, i: nat, j: nat): Entry
    requires pd < |mem| && InTable(mem, pd, i, j)
  {
    mem[TableOf(mem, pd, i)][j]
  }

  // ---------------------------------------------------------------- the self-map

  /**
   The self-map: page 255 * 1024 + i of the address space, at MIRROR_VADDR + 4096 * i, is table i, writable by the
   kernel only; for i = 255 it is the directory.
   */
  lemma SelfMap(mem: Memory, pd: Pfn, i: nat)
    requires Shape(mem, pd) && i < 1024
    ensures MIRROR_VADDR / 4096 == MIRROR * 1024
    ensures var m := Walk(mem, pd, MIRROR * 1024 + i);
      && (HasTable(mem, pd, i) ==> m == Some(Mapping(TableOf(mem, pd, i), true, false)))
      && (i == MIRROR ==> m == Some(Mapping(pd, true, false)))
      && (!HasTable(mem, pd, i) && i != MIRROR ==> m == None)
  {
    assert (MIRROR * 1024 + i) / 1024 == MIRROR && (MIRROR * 1024 + i) % 1024 == i;
    if HasTable(mem, pd, i) { assert TableOf(mem, pd, i) < |mem|; }
  }

  // ---------------------------------------------------------------- the TLB

  type Tlb = map<VPage, Mapping>

  /** What the TLB holds is what a walk would find, but for the pages of `except`. */
  ghost predicate Coherent(tlb: Tlb, mem: Memory, pd: Pfn, except: set<VPage>) {
    forall p :: p in tlb && p !in except ==> p < PAGES && Walk(mem, pd, p) == Some(tlb[p])
  }

  /** Changing an entry of table `i` changes the translation of one page at most. */
  lemma PutPteWalk(mem: Memory, pd: Pfn, i: nat, j: nat, e: Entry, p: VPage)
    requires Shape(mem, pd) && HasTable(mem, pd, i) && j < 1024 && p < PAGES && p != i * 1024 + j
    ensures Walk(Put(mem, TableOf(mem, pd, i), j, e), pd, p) == Walk(mem, pd, p)
  {
    var d := mem[pd][p / 1024];
    if d.present && p / 1024 != MIRROR { assert HasTable(mem, pd, p / 1024); }
  }

  /** Changing the contents of table `i` changes the translations of its own pages only. */
  lemma TableWalk(mem: Memory, pd: Pfn, i: nat, t: Table, p: VPage)
    requires Shape(mem, pd) && HasTable(mem, pd, i) && p < PAGES && p / 1024 != i
    ensures Walk(mem[TableOf(mem, pd, i) := t], pd, p) == Walk(mem, pd, p)
  {
    var d := mem[pd][p / 1024];
    if d.present && p / 1024 != MIRROR { assert HasTable(mem, pd, p / 1024); }
  }

  /** Changing directory entry `i` changes the translations of table `i`'s pages and of its page in the mirror. */
  lemma PutPdeWalk(mem: Memory, pd: Pfn, i: nat, e: Entry, p: VPage)
    requires Shape(mem, pd) && i < 1024 && i != MIRROR && p < PAGES && p / 1024 != i && p != MIRROR * 1024 + i
    ensures Walk(Put(mem, pd, i, e), pd, p) == Walk(mem, pd, p)
  {
    var d := mem[pd][p / 1024];
    if d.present && p / 1024 != MIRROR { assert HasTable(mem, pd, p / 1024); }
  }

  // ---------------------------------------------------------------- counting references

  /** How many of the first `n` entries of a table map frame `f`. */
  function Maps(t: Table, f: Pfn, n: nat): nat
    requires n <= 1024
  {
    if n == 0 then 0 else Maps(t, f, n - 1) + (if t[n - 1].present && t[n - 1].pfn == f then 1 else 0)
  }

  /** How many of the first `n` entries of a table are present. */
  function Present(t: Table, n: nat): nat
    requires n <= 1024
  {
    if n == 0 then 0 else Present(t, n - 1) + (if t[n - 1].present then 1 else 0)
  }

  function One(b: bool): nat { if b then 1 else 0 }

  function MapsIt(e: Entry, f: Pfn): nat { One(e.present && e.pfn == f) }

  lemma {:induction false} MapsPut(t: Table, j: nat, e: Entry, f: Pfn, n: nat)
    requires j < 1024 && n <= 1024
    ensures Maps(t[j := e], f, n) == if j < n then Maps(t, f, n) - MapsIt(t[j], f) + MapsIt(e, f) else Maps(t, f, n)
  {
    if n == 0 {
    } else {
      MapsPut(t, j, e, f, n - 1);
    }
  }

  lemma {:induction false} PresentPut(t: Table, j: nat, e: Entry, n: nat)
    requires j < 1024 && n <= 1024
    ensures Present(t[j := e], n) == if j < n then Present(t, n) - One(t[j].present) + One(e.present) else Present(t, n)
  {
    if n == 0 {
    } else {
      PresentPut(t, j, e, n - 1);
    }
  }

  lemma {:induction false} NonePresent(t: Table, n: nat)
    requires n <= 1024
    ensures Present(t, n) == 0 <==> forall j :: 0 <= j < n ==> !t[j].present
  {
    if n == 0 {
    } else {
      NonePresent(t, n - 1);
    }
  }

  lemma {:induction false} NoneMaps(t: Table, f: Pfn, n: nat)
    requires n <= 1024
    ensures Maps(t, f, n) == 0 <==> forall j :: 0 <= j < n ==> !(t[j].present && t[j].pfn == f)
  {
    if n == 0 {
    } else {
      NoneMaps(t, f, n - 1);
    }
  }

  /** The references that table `i` is responsible for: to the frames it maps, and one per entry to the table itself. */
  function RefsVia(mem: Memory, pd: Pfn, f: Pfn, i: nat): nat
    requires pd < |mem|
  {
    if !HasTable(mem, pd, i) || TableOf(mem, pd, i) >= |mem| then 0
    else
      var t := TableOf(mem, pd, i);
      Maps(mem[t], f, 1024) + (if t == f then Present(mem[t], 1024) else 0)
  }

  /** The references to frame `f` from the first `n` directory entries. */
  function Refs(mem: Memory, pd: Pfn, f: Pfn, n: nat): nat
    requires pd < |mem|
  {
    if n == 0 then 0 else Refs(mem, pd, f, n - 1) + RefsVia(mem, pd, f, n - 1)
  }

  lemma {:induction false} RefsDelta(mem: Memory, mem': Memory, pd: Pfn, f: Pfn, i0: nat, n: nat)
    requires pd < |mem| == |mem'|
    requires forall i :: i != i0 ==> RefsVia(mem', pd, f, i) == RefsVia(mem, pd, f, i)
    ensures Refs(mem', pd, f, n) + (if i0 < n then RefsVia(mem, pd, f, i0) else 0)
         == Refs(mem, pd, f, n) + (if i0 < n then RefsVia(mem', pd, f, i0) else 0)
  {
    if n == 0 {
    } else {
      RefsDelta(mem, mem', pd, f, i0, n - 1);
    }
  }

  lemma {:induction false} NoRefs(mem: Memory, pd: Pfn, f: Pfn, i: nat, n: nat)
    requires pd < |mem| && Refs(mem, pd, f, n) == 0 && i < n
    ensures RefsVia(mem, pd, f, i) == 0
  {
    if n == 0 {
    } else if i < n - 1 {
      NoRefs(mem, pd, f, i, n - 1);
    }
  }
}
