/**
 What mapping and unmapping a page does to the counts of references of physical pages, one change at a time.

 `refs` is the reference count of each frame (os/physmem.c), and `held` the references that somebody other than the
 page tables and the MMU owns: callers, and this code in the middle of an operation.
 */
module PagingSteps {
  import opened PagingState

  predicate Managed(n: nat, f: Pfn) { 1 <= f < n }

  /**
   The accounting: each managed frame has one reference per entry that maps it, one per present entry if it is a
   table, one if it is the directory, and those its owners hold.
   */
  ghost predicate Counted(mem: Memory, pd: Pfn, refs: seq<nat>, held: seq<int>)
    requires pd < |mem|
  {
    && |refs| == |mem| == |held|
    && (forall f {:trigger refs[f]} :: 1 <= f < |mem| ==> refs[f] == Refs(mem, pd, f, 1024) + One(f == pd) + held[f])
  }

  /** No entry maps a table or the directory: they are reached through the mirror only. */
  ghost predicate NoAlias(mem: Memory, pd: Pfn)
    requires pd < |mem|
  {
    forall i, j {:trigger InTable(mem, pd, i, j)} :: InTable(mem, pd, i, j) && EntryAt(mem, pd, i, j).present ==>
      NotATable(mem, pd, EntryAt(mem, pd, i, j).pfn)
  }

  ghost predicate NotATable(mem: Memory, pd: Pfn, f: Pfn)
    requires pd < |mem|
  {
    f != pd && forall i {:trigger HasTable(mem, pd, i)} :: HasTable(mem, pd, i) ==> TableOf(mem, pd, i) != f
  }

  /** Nobody else holds the directory or a table, and no table is empty. */
  ghost predicate Tidy(mem: Memory, pd: Pfn, held: seq<int>)
    requires Shape(mem, pd) && |held| == |mem|
  {
    && held[pd] == 0 && (forall f :: 0 <= f < |held| ==> held[f] >= 0)
    && (forall i {:trigger HasTable(mem, pd, i)} :: HasTable(mem, pd, i) ==>
          held[TableOf(mem, pd, i)] == 0 && Present(mem[TableOf(mem, pd, i)], 1024) > 0)
  }

  ghost predicate VmOk(mem: Memory, pd: Pfn, refs: seq<nat>, held: seq<int>) {
    Shape(mem, pd) && Counted(mem, pd, refs, held) && NoAlias(mem, pd) && Tidy(mem, pd, held)
  }

  /** The tables are the same ones with the same contents, but for table `i`. */
  ghost predicate OthersAgree(mem: Memory, mem': Memory, pd: Pfn, i: nat)
    requires pd < |mem| == |mem'| && Shape(mem, pd)
  {
    forall k {:trigger HasTable(mem', pd, k)} {:trigger HasTable(mem, pd, k)} :: k != i ==>
      && HasTable(mem', pd, k) == HasTable(mem, pd, k)
      && (HasTable(mem, pd, k) ==>
        TableOf(mem', pd, k) == TableOf(mem, pd, k) && mem'[TableOf(mem, pd, k)] == mem[TableOf(mem, pd, k)])
  }

  // ---------------------------------------------------------------- taking and giving back references

  /** One more, or one less, for a managed frame. */
  function Bump(s: seq<int>, f: Pfn, d: int): (r: seq<int>)
    ensures |r| == |s|
  {
    if Managed(|s|, f) then s[f := s[f] + d] else s
  }

  lemma BumpCounted(mem: Memory, pd: Pfn, refs: seq<nat>, held: seq<int>, refs': seq<nat>, f: Pfn, d: int)
    requires pd < |mem| && Counted(mem, pd, refs, held) && refs' == Bump(refs, f, d)
    ensures Counted(mem, pd, refs', Bump(held, f, d))
  {}

  // ---------------------------------------------------------------- table entries

  /**
   Who holds what once the entry `old` of table `t` is replaced by `e`: the references of the entries change hands.
   */
  function HeldAfter(held: seq<int>, t: Pfn, old_: Entry, e: Entry): (r: seq<int>)
    ensures |r| == |held|
    ensures forall f :: 1 <= f < |held| ==>
      (r[f] == held[f] + MapsIt(old_, f) - MapsIt(e, f) + (if f == t then One(old_.present) - One(e.present) else 0))
  {
    var freed := if old_.present then Bump(Bump(held, t, 1), old_.pfn, 1) else held;
    if e.present then Bump(Bump(freed, t, -1), e.pfn, -1) else freed
  }

  lemma PutPteVia(mem: Memory, pd: Pfn, i: nat, j: nat, e: Entry, f: Pfn, k: nat)
    requires Shape(mem, pd) && HasTable(mem, pd, i) && j < 1024
    ensures var t := TableOf(mem, pd, i);
      var mem' := Put(mem, t, j, e);
      RefsVia(mem', pd, f, k) == RefsVia(mem, pd, f, k) +
        (if k == i then MapsIt(e, f) - MapsIt(mem[t][j], f)
          + (if f == t then One(e.present) - One(mem[t][j].present) else 0) else 0)
  {
    var t := TableOf(mem, pd, i);
    var mem' := Put(mem, t, j, e);
    assert HasTable(mem', pd, k) == HasTable(mem, pd, k);
    if k == i {
      MapsPut(mem[t], j, e, f, 1024);
      PresentPut(mem[t], j, e, 1024);
    }
  }

  lemma PutPteShape(mem: Memory, pd: Pfn, i: nat, j: nat, e: Entry)
    requires Shape(mem, pd) && HasTable(mem, pd, i) && j < 1024
    ensures Shape(Put(mem, TableOf(mem, pd, i), j, e), pd)
    ensures OthersAgree(mem, Put(mem, TableOf(mem, pd, i), j, e), pd, i)
  {
    var mem' := Put(mem, TableOf(mem, pd, i), j, e);
    assert mem'[pd] == mem[pd];
    assert forall k {:trigger HasTable(mem', pd, k)} :: HasTable(mem', pd, k) == HasTable(mem, pd, k);
  }

  /** Replacing an entry of a table hands the references of the old entry over, and takes those of the new one. */
  lemma PutPteCounted(mem: Memory, pd: Pfn, refs: seq<nat>, held: seq<int>, i: nat, j: nat, e: Entry)
    requires Shape(mem, pd) && HasTable(mem, pd, i) && j < 1024 && Counted(mem, pd, refs, held)
    ensures var t := TableOf(mem, pd, i);
      Counted(Put(mem, t, j, e), pd, refs, HeldAfter(held, t, mem[t][j], e))
  {
    var t := TableOf(mem, pd, i);
    var mem' := Put(mem, t, j, e);
    hide Shape;
    forall f | 1 <= f < |mem|
      ensures refs[f] == Refs(mem', pd, f, 1024) + One(f == pd) + HeldAfter(held, t, mem[t][j], e)[f]
    {
      forall k ensures RefsVia(mem', pd, f, k) == RefsVia(mem, pd, f, k) +
        (if k == i then MapsIt(e, f) - MapsIt(mem[t][j], f)
          + (if f == t then One(e.present) - One(mem[t][j].present) else 0) else 0) {
        PutPteVia(mem, pd, i, j, e, f, k);
      }
      RefsDelta(mem, mem', pd, f, i, 1024);
      assert refs[f] == Refs(mem, pd, f, 1024) + One(f == pd) + held[f];
    }
  }

  lemma PutPteNoAlias(mem: Memory, pd: Pfn, i: nat, j: nat, e: Entry)
    requires Shape(mem, pd) && HasTable(mem, pd, i) && j < 1024 && NoAlias(mem, pd)
    requires e.present ==> NotATable(mem, pd, e.pfn)
    ensures NoAlias(Put(mem, TableOf(mem, pd, i), j, e), pd)
  {
    var t := TableOf(mem, pd, i);
    var mem' := Put(mem, t, j, e);
    PutPteShape(mem, pd, i, j, e);
    forall x, y | InTable(mem', pd, x, y) && EntryAt(mem', pd, x, y).present
      ensures NotATable(mem', pd, EntryAt(mem', pd, x, y).pfn)
    {
      assert InTable(mem, pd, x, y);
      if TableOf(mem, pd, x) == t && y == j {
        SameTables(mem, mem', pd, e.pfn);
      } else {
        SameTables(mem, mem', pd, EntryAt(mem, pd, x, y).pfn);
      }
    }
  }

  lemma SameTables(mem: Memory, mem': Memory, pd: Pfn, f: Pfn)
    requires pd < |mem| == |mem'| && mem'[pd] == mem[pd] && NotATable(mem, pd, f)
    ensures NotATable(mem', pd, f)
  {
    forall i | HasTable(mem', pd, i) ensures TableOf(mem', pd, i) != f { assert HasTable(mem, pd, i); }
  }

  // ---------------------------------------------------------------- directory entries

  /** A new, empty table. */
  function NewTable(mem: Memory, pd: Pfn, i: nat, t: Pfn, user: bool): (r: Memory)
    requires pd < |mem| && t < |mem| && i < 1024
    ensures |r| == |mem|
  {
    Put(mem, pd, i, Entry(true, true, user, t))[t := Zero()]
  }

  lemma NewTableShape(mem: Memory, pd: Pfn, i: nat, t: Pfn, user: bool)
    requires Shape(mem, pd) && i < 1024 && i != MIRROR && !HasTable(mem, pd, i) && 1 <= t < |mem|
    requires NotATable(mem, pd, t)
    ensures var mem' := NewTable(mem, pd, i, t, user);
      && Shape(mem', pd) && HasTable(mem', pd, i) && TableOf(mem', pd, i) == t
      && OthersAgree(mem, mem', pd, i)
  {
    var mem' := NewTable(mem, pd, i, t, user);
    assert mem'[pd] == mem[pd][i := Entry(true, true, user, t)];
    assert forall k {:trigger HasTable(mem', pd, k)} :: k != i ==> HasTable(mem', pd, k) == HasTable(mem, pd, k);
  }

  lemma NewTableVia(mem: Memory, pd: Pfn, i: nat, t: Pfn, user: bool, f: Pfn, k: nat)
    requires Shape(mem, pd) && i < 1024 && i != MIRROR && !HasTable(mem, pd, i) && 1 <= t < |mem|
    requires NotATable(mem, pd, t)
    ensures RefsVia(NewTable(mem, pd, i, t, user), pd, f, k) == RefsVia(mem, pd, f, k)
  {
    NewTableShape(mem, pd, i, t, user);
    if k == i {
      NoneMaps(Zero(), f, 1024);
      NonePresent(Zero(), 1024);
    } else if HasTable(mem, pd, k) {
      assert NewTable(mem, pd, i, t, user)[TableOf(mem, pd, k)] == mem[TableOf(mem, pd, k)];
    }
  }

  lemma NewTableCounted(mem: Memory, pd: Pfn, refs: seq<nat>, held: seq<int>, i: nat, t: Pfn, user: bool)
    requires Shape(mem, pd) && i < 1024 && i != MIRROR && !HasTable(mem, pd, i) && 1 <= t < |mem|
    requires NotATable(mem, pd, t)
    requires Counted(mem, pd, refs, held)
    ensures Counted(NewTable(mem, pd, i, t, user), pd, refs, held)
  {
    var mem' := NewTable(mem, pd, i, t, user);
    hide Shape, NotATable, NewTable;
    forall f | 1 <= f < |mem| ensures refs[f] == Refs(mem', pd, f, 1024) + One(f == pd) + held[f] {
      forall k ensures RefsVia(mem', pd, f, k) == RefsVia(mem, pd, f, k) { NewTableVia(mem, pd, i, t, user, f, k); }
      RefsDelta(mem, mem', pd, f, i, 1024);
    }
  }

  lemma NewTableNoAlias(mem: Memory, pd: Pfn, i: nat, t: Pfn, user: bool)
    requires Shape(mem, pd) && i < 1024 && i != MIRROR && !HasTable(mem, pd, i) && 1 <= t < |mem|
    requires NotATable(mem, pd, t)
    requires NoAlias(mem, pd) && Refs(mem, pd, t, 1024) == 0
    ensures NoAlias(NewTable(mem, pd, i, t, user), pd)
  {
    var mem' := NewTable(mem, pd, i, t, user);
    NewTableShape(mem, pd, i, t, user);
    hide NewTable;
    forall x, y | InTable(mem', pd, x, y) && EntryAt(mem', pd, x, y).present
      ensures NotATable(mem', pd, EntryAt(mem', pd, x, y).pfn)
    {
      assert x != i;
      assert InTable(mem, pd, x, y);
      var f := EntryAt(mem', pd, x, y).pfn;
      NoRefs(mem, pd, t, x, 1024);
      NoneMaps(mem[TableOf(mem, pd, x)], t, 1024);
      assert f != t;
      forall k | HasTable(mem', pd, k) ensures TableOf(mem', pd, k) != f { if k != i { assert HasTable(mem, pd, k); } }
    }
  }

  /** Directory entry `i` becomes absent. */
  function DropTable(mem: Memory, pd: Pfn, i: nat): Memory
    requires pd < |mem| && i < 1024
  {
    Put(mem, pd, i, NO_ENTRY)
  }

  lemma DropTableShape(mem: Memory, pd: Pfn, i: nat)
    requires Shape(mem, pd) && HasTable(mem, pd, i)
    ensures var mem' := DropTable(mem, pd, i);
      && Shape(mem', pd) && !HasTable(mem', pd, i)
      && OthersAgree(mem, mem', pd, i)
  {
    var mem' := DropTable(mem, pd, i);
    assert forall k {:trigger HasTable(mem', pd, k)} :: k != i ==> HasTable(mem', pd, k) == HasTable(mem, pd, k);
  }

  lemma DropTableCounted(mem: Memory, pd: Pfn, refs: seq<nat>, held: seq<int>, i: nat)
    requires Shape(mem, pd) && HasTable(mem, pd, i) && Counted(mem, pd, refs, held)
    requires Present(mem[TableOf(mem, pd, i)], 1024) == 0
    ensures Counted(DropTable(mem, pd, i), pd, refs, held)
  {
    var mem', t := DropTable(mem, pd, i), TableOf(mem, pd, i);
    DropTableShape(mem, pd, i);
    NonePresent(mem[t], 1024);
    hide Shape, DropTable;
    forall f | 1 <= f < |mem| ensures refs[f] == Refs(mem', pd, f, 1024) + One(f == pd) + held[f] {
      NoneMaps(mem[t], f, 1024);
      forall k ensures RefsVia(mem', pd, f, k) == RefsVia(mem, pd, f, k) {
        if k != i && HasTable(mem, pd, k) { assert mem'[TableOf(mem, pd, k)] == mem[TableOf(mem, pd, k)]; }
      }
      RefsDelta(mem, mem', pd, f, i, 1024);
    }
  }

  lemma DropTableNoAlias(mem: Memory, pd: Pfn, i: nat)
    requires Shape(mem, pd) && HasTable(mem, pd, i) && NoAlias(mem, pd)
    ensures NoAlias(DropTable(mem, pd, i), pd)
  {
    var mem' := DropTable(mem, pd, i);
    DropTableShape(mem, pd, i);
    hide DropTable;
    forall x, y | InTable(mem', pd, x, y) && EntryAt(mem', pd, x, y).present
      ensures NotATable(mem', pd, EntryAt(mem', pd, x, y).pfn)
    {
      assert x != i && InTable(mem, pd, x, y);
      var f := EntryAt(mem', pd, x, y).pfn;
      assert f == EntryAt(mem, pd, x, y).pfn;
      forall k | HasTable(mem', pd, k) ensures TableOf(mem', pd, k) != f { assert HasTable(mem, pd, k); }
    }
  }

  // ---------------------------------------------------------------- the count of a table

  lemma {:induction false} OnlyVia(mem: Memory, pd: Pfn, f: Pfn, i: nat, n: nat)
    requires pd < |mem| && forall k :: k != i ==> RefsVia(mem, pd, f, k) == 0
    ensures Refs(mem, pd, f, n) == if i < n then RefsVia(mem, pd, f, i) else 0
  {
    if n == 0 {
    } else {
      OnlyVia(mem, pd, f, i, n - 1);
    }
  }

  /** The references to a table are its present entries. */
  lemma TableRefs(mem: Memory, pd: Pfn, i: nat)
    requires Shape(mem, pd) && NoAlias(mem, pd) && HasTable(mem, pd, i)
    ensures Refs(mem, pd, TableOf(mem, pd, i), 1024) == Present(mem[TableOf(mem, pd, i)], 1024)
  {
    var t := TableOf(mem, pd, i);
    forall k | HasTable(mem, pd, k) ensures Maps(mem[TableOf(mem, pd, k)], t, 1024) == 0 {
      forall j | 0 <= j < 1024 ensures !(mem[TableOf(mem, pd, k)][j].present && mem[TableOf(mem, pd, k)][j].pfn == t) {
        assert InTable(mem, pd, k, j);
        assert EntryAt(mem, pd, k, j).present ==> NotATable(mem, pd, EntryAt(mem, pd, k, j).pfn);
      }
      NoneMaps(mem[TableOf(mem, pd, k)], t, 1024);
    }
    OnlyVia(mem, pd, t, i, 1024);
  }

  // ---------------------------------------------------------------- map and unmap

  /** The caller of map owns a reference to the page it maps, if it is one that is counted. */
  ghost predicate Owned(n: nat, held: seq<int>, f: Pfn)
    requires |held| == n
  {
    Managed(n, f) ==> held[f] >= 1
  }

  lemma OwnedIsNoTable(mem: Memory, pd: Pfn, refs: seq<nat>, held: seq<int>, f: Pfn)
    requires VmOk(mem, pd, refs, held) && Owned(|mem|, held, f)
    ensures NotATable(mem, pd, f)
  {}

  lemma FreeIsUnknown(mem: Memory, pd: Pfn, refs: seq<nat>, held: seq<int>, t: Pfn)
    requires VmOk(mem, pd, refs, held) && 1 <= t < |mem| && refs[t] == 0
    ensures NotATable(mem, pd, t) && Refs(mem, pd, t, 1024) == 0 && held[t] == 0
  {
    forall i | HasTable(mem, pd, i) ensures TableOf(mem, pd, i) != t { TableRefs(mem, pd, i); }
  }

  /** Once the entries of table `i` are settled and nobody else holds it, all is in order again. */
  lemma TidyAfterPut(mem: Memory, pd: Pfn, held: seq<int>, i: nat, j: nat, e: Entry)
    requires Shape(mem, pd) && HasTable(mem, pd, i) && j < 1024 && |held| == |mem| && e.present
    requires held[pd] == 0 && (forall f :: 0 <= f < |held| ==> held[f] >= 0)
    requires forall k :: HasTable(mem, pd, k) ==>
      held[TableOf(mem, pd, k)] == 0 && (k != i ==> Present(mem[TableOf(mem, pd, k)], 1024) > 0)
    ensures Shape(Put(mem, TableOf(mem, pd, i), j, e), pd) && Tidy(Put(mem, TableOf(mem, pd, i), j, e), pd, held)
  {
    var t := TableOf(mem, pd, i);
    PutPteShape(mem, pd, i, j, e);
    PresentPut(mem[t], j, e, 1024);
    SomePresent(mem[t], j, 1024);
  }

  lemma {:induction false} SomePresent(t: Table, j: nat, n: nat)
    requires j < n <= 1024
    ensures t[j].present ==> Present(t, n) >= 1
  {
    if j < n - 1 { SomePresent(t, j, n - 1); }
  }

  /** sos_paging_map where there was no table. */
  lemma MapNewKeeps(mem: Memory, pd: Pfn, refs: seq<nat>, held: seq<int>, i: nat, j: nat, t: Pfn, user: bool, e: Entry,
      refs': seq<nat>)
    requires VmOk(mem, pd, refs, held) && i < 1024 && i != MIRROR && !HasTable(mem, pd, i) && j < 1024
    requires 1 <= t < |mem| && refs[t] == 0 && e.present && Owned(|mem|, held, e.pfn)
    requires refs' == Bump(refs[t := 1], e.pfn, 1)
    ensures VmOk(Put(NewTable(mem, pd, i, t, user), t, j, e), pd, refs', held)
  {
    FreeIsUnknown(mem, pd, refs, held, t);
    OwnedIsNoTable(mem, pd, refs, held, e.pfn);
    var mem1, held1 := NewTable(mem, pd, i, t, user), Bump(held, t, 1);
    BumpCounted(mem, pd, refs, held, refs[t := 1], t, 1);
    NewTableShape(mem, pd, i, t, user);
    NewTableCounted(mem, pd, refs[t := 1], held1, i, t, user);
    NewTableNoAlias(mem, pd, i, t, user);
    assert mem1[t] == Zero();
    assert NotATable(mem1, pd, e.pfn) by {
      forall k | HasTable(mem1, pd, k)
        ensures TableOf(mem1, pd, k) != e.pfn
      {
        if k != i { assert HasTable(mem, pd, k); }
      }
    }
    PutPteCounted(mem1, pd, refs[t := 1], held1, i, j, e);
    PutPteNoAlias(mem1, pd, i, j, e);
    var held2 := HeldAfter(held1, t, mem1[t][j], e);
    BumpCounted(Put(mem1, t, j, e), pd, refs[t := 1], held2, refs', e.pfn, 1);
    assert Bump(held2, e.pfn, 1) == held;
    TidyAfterPut(mem1, pd, held, i, j, e);
  }

  /** sos_paging_map where nothing was mapped. */
  lemma MapFreshKeeps(mem: Memory, pd: Pfn, refs: seq<nat>, held: seq<int>, i: nat, j: nat, e: Entry, refs': seq<nat>)
    requires VmOk(mem, pd, refs, held) && InTable(mem, pd, i, j) && !EntryAt(mem, pd, i, j).present
    requires e.present && Owned(|mem|, held, e.pfn)
    requires refs' == Bump(Bump(refs, TableOf(mem, pd, i), 1), e.pfn, 1)
    ensures VmOk(Put(mem, TableOf(mem, pd, i), j, e), pd, refs', held)
  {
    var t := TableOf(mem, pd, i);
    OwnedIsNoTable(mem, pd, refs, held, e.pfn);
    var refs1, held1 := refs[t := refs[t] + 1], Bump(held, t, 1);
    BumpCounted(mem, pd, refs, held, refs1, t, 1);
    PutPteCounted(mem, pd, refs1, held1, i, j, e);
    PutPteNoAlias(mem, pd, i, j, e);
    var held2 := HeldAfter(held1, t, mem[t][j], e);
    PutPteShape(mem, pd, i, j, e);
    BumpCounted(Put(mem, t, j, e), pd, refs1, held2, refs', e.pfn, 1);
    assert Bump(held2, e.pfn, 1) == held;
    TidyAfterPut(mem, pd, held, i, j, e);
  }

  /** sos_paging_map over a page that was mapped there, which loses one reference. */
  lemma MapOverKeeps(mem: Memory, pd: Pfn, refs: seq<nat>, held: seq<int>, i: nat, j: nat, e: Entry, refs1: seq<nat>,
      refs': seq<nat>)
    requires VmOk(mem, pd, refs, held) && InTable(mem, pd, i, j) && EntryAt(mem, pd, i, j).present
    requires e.present && Owned(|mem|, held, e.pfn)
    requires refs1 == Bump(refs, EntryAt(mem, pd, i, j).pfn, -1) && refs' == Bump(refs1, e.pfn, 1)
    ensures VmOk(Put(mem, TableOf(mem, pd, i), j, e), pd, refs', held)
  {
    var t, g := TableOf(mem, pd, i), EntryAt(mem, pd, i, j).pfn;
    OwnedIsNoTable(mem, pd, refs, held, e.pfn);
    PutPteCounted(mem, pd, refs, held, i, j, e);
    PutPteNoAlias(mem, pd, i, j, e);
    PutPteShape(mem, pd, i, j, e);
    var mem' := Put(mem, t, j, e);
    var held1 := HeldAfter(held, t, mem[t][j], e);
    BumpCounted(mem', pd, refs, held1, refs1, g, -1);
    BumpCounted(mem', pd, refs1, Bump(held1, g, -1), refs', e.pfn, 1);
    assert Bump(Bump(held1, g, -1), e.pfn, 1) == held;
    TidyAfterPut(mem, pd, held, i, j, e);
  }

  lemma {:induction false} SomeRefs(mem: Memory, pd: Pfn, f: Pfn, i: nat, n: nat)
    requires pd < |mem| && i < n
    ensures Refs(mem, pd, f, n) >= RefsVia(mem, pd, f, i)
  {
    if i < n - 1 { SomeRefs(mem, pd, f, i, n - 1); }
  }

  lemma {:induction false} SomeMaps(t: Table, j: nat, n: nat)
    requires j < n <= 1024 && t[j].present
    ensures Maps(t, t[j].pfn, n) >= 1
  {
    if j < n - 1 { SomeMaps(t, j, n - 1); }
  }

  /** A page that is mapped is referenced, and so is the table that maps it; they are different pages. */
  lemma MappedIsReferenced(mem: Memory, pd: Pfn, refs: seq<nat>, held: seq<int>, i: nat, j: nat)
    requires VmOk(mem, pd, refs, held) && InTable(mem, pd, i, j) && EntryAt(mem, pd, i, j).present
    ensures refs[TableOf(mem, pd, i)] == Present(mem[TableOf(mem, pd, i)], 1024) >= 1
    ensures EntryAt(mem, pd, i, j).pfn != TableOf(mem, pd, i)
    ensures Managed(|mem|, EntryAt(mem, pd, i, j).pfn) ==> refs[EntryAt(mem, pd, i, j).pfn] >= 1
  {
    var t := TableOf(mem, pd, i);
    TableRefs(mem, pd, i);
    assert refs[t] == Refs(mem, pd, t, 1024) + One(t == pd) + held[t];
    SomePresent(mem[t], j, 1024);
    var g := EntryAt(mem, pd, i, j).pfn;
    if Managed(|mem|, g) {
      SomeMaps(mem[t], j, 1024);
      SomeRefs(mem, pd, g, i, 1024);
      assert refs[g] == Refs(mem, pd, g, 1024) + One(g == pd) + held[g];
    }
  }

  /** Memory after sos_paging_unmap: the entry is gone, and the table with it if it was the last one. */
  function Unmapped(mem: Memory, pd: Pfn, i: nat, j: nat, last: bool): Memory
    requires pd < |mem| && InTable(mem, pd, i, j)
  {
    var mem1 := Put(mem, TableOf(mem, pd, i), j, NO_ENTRY);
    if last then DropTable(mem1, pd, i) else mem1
  }

  lemma UnmapCounted(mem: Memory, pd: Pfn, refs: seq<nat>, held: seq<int>, i: nat, j: nat, refs1: seq<nat>,
      refs2: seq<nat>)
    requires VmOk(mem, pd, refs, held) && InTable(mem, pd, i, j) && EntryAt(mem, pd, i, j).present
    requires refs1 == Bump(refs, EntryAt(mem, pd, i, j).pfn, -1) && refs2 == Bump(refs1, TableOf(mem, pd, i), -1)
    ensures var mem1 := Put(mem, TableOf(mem, pd, i), j, NO_ENTRY);
      && Shape(mem1, pd) && NoAlias(mem1, pd) && Counted(mem1, pd, refs2, held) && OthersAgree(mem, mem1, pd, i)
      && HasTable(mem1, pd, i) && TableOf(mem1, pd, i) == TableOf(mem, pd, i)
      && refs2[TableOf(mem, pd, i)] == Present(mem1[TableOf(mem, pd, i)], 1024)
  {
    var t, g := TableOf(mem, pd, i), EntryAt(mem, pd, i, j).pfn;
    var mem1, held1 := Put(mem, t, j, NO_ENTRY), HeldAfter(held, t, mem[t][j], NO_ENTRY);
    PutPteCounted(mem, pd, refs, held, i, j, NO_ENTRY);
    PutPteNoAlias(mem, pd, i, j, NO_ENTRY);
    PutPteShape(mem, pd, i, j, NO_ENTRY);
    BumpCounted(mem1, pd, refs, held1, refs1, g, -1);
    BumpCounted(mem1, pd, refs1, Bump(held1, g, -1), refs2, t, -1);
    assert Bump(Bump(held1, g, -1), t, -1) == held;
    assert HasTable(mem1, pd, i) by { assert mem1[pd] == mem[pd]; }
    TableRefs(mem1, pd, i);
    assert refs2[t] == Refs(mem1, pd, t, 1024) + One(t == pd) + held[t];
  }

  /**
   sos_paging_unmap. The count of the table drops to zero exactly when no entry is left, so the directory entry that
   is then dropped leads to nothing.
   */
  lemma UnmapKeeps(mem: Memory, pd: Pfn, refs: seq<nat>, held: seq<int>, i: nat, j: nat, refs1: seq<nat>,
      refs2: seq<nat>)
    requires VmOk(mem, pd, refs, held) && InTable(mem, pd, i, j) && EntryAt(mem, pd, i, j).present
    requires refs1 == Bump(refs, EntryAt(mem, pd, i, j).pfn, -1) && refs2 == Bump(refs1, TableOf(mem, pd, i), -1)
    ensures VmOk(Unmapped(mem, pd, i, j, refs2[TableOf(mem, pd, i)] == 0), pd, refs2, held)
    ensures refs2[TableOf(mem, pd, i)] == 0
      <==> (forall x :: 0 <= x < 1024 && x != j ==> !mem[TableOf(mem, pd, i)][x].present)
  {
    var t := TableOf(mem, pd, i);
    var mem1 := Put(mem, t, j, NO_ENTRY);
    UnmapCounted(mem, pd, refs, held, i, j, refs1, refs2);
    NonePresent(mem1[t], 1024);
    assert forall x :: 0 <= x < 1024 ==> mem1[t][x] == if x == j then NO_ENTRY else mem[t][x];
    if refs2[t] == 0 {
      DropTableShape(mem1, pd, i);
      DropTableCounted(mem1, pd, refs2, held, i);
      DropTableNoAlias(mem1, pd, i);
      TidyAfterUnmap(mem, mem1, DropTable(mem1, pd, i), pd, held, i);
    } else {
      TidyAfterUnmap(mem, mem1, mem1, pd, held, i);
    }
  }

  lemma TidyAfterUnmap(mem: Memory, mem1: Memory, mem2: Memory, pd: Pfn, held: seq<int>, i: nat)
    requires pd < |mem| == |mem1| == |mem2| == |held| && Shape(mem, pd) && Shape(mem1, pd) && Shape(mem2, pd)
    requires Tidy(mem, pd, held) && OthersAgree(mem, mem1, pd, i) && OthersAgree(mem1, mem2, pd, i)
    requires HasTable(mem, pd, i)
    requires HasTable(mem2, pd, i) ==>
      TableOf(mem2, pd, i) == TableOf(mem, pd, i) && Present(mem2[TableOf(mem, pd, i)], 1024) > 0
    ensures Tidy(mem2, pd, held)
  {
    forall k | HasTable(mem2, pd, k)
      ensures held[TableOf(mem2, pd, k)] == 0 && Present(mem2[TableOf(mem2, pd, k)], 1024) > 0
    {
      if k != i { assert HasTable(mem1, pd, k) && HasTable(mem, pd, k); }
    }
  }
}
