/**
 The physical pages behind the kernel area: what mapping and unmapping a page (hwcore/paging.c) and recording its owner
 (os/physmem.c) do to the tables that the lookup of a range reads.
 */
module KmemPages {
  import opened KmemState

  /** Pages of a page table, and the page of the mirror that shows the table of page `p`. */
  const TABLE_PAGES := 1024
  const MIRROR_PAGE := TOP_PAGE

  function MirrorPage(p: int): int { MIRROR_PAGE + p / TABLE_PAGES }

  /** Nothing maps physical page `f`: what sos_physmem_ref_physpage_new gives. */
  predicate IsFresh(g: Pages, f: Frame) { f != 0 && f !in g.frameOf.Values }

  /** Nothing else is mapped through the table of page `p`. */
  predicate LastOfTable(frameOf: map<int, Frame>, p: int) {
    forall q :: q in frameOf && q / TABLE_PAGES == p / TABLE_PAGES ==> q == p
  }

  function Behind(g: Pages, p: int): set<Frame> { if p in g.frameOf then {g.frameOf[p]} else {} }

  /**
   Physical page `f` is mapped at page `p`, through a new table `t` if there was none, and told that it belongs to `n`.
   */
  function WithPage(g: Pages, p: int, n: Ptr, f: Frame, t: Option<Frame>): Pages {
    var tables := if t.Some? then g.frameOf[MirrorPage(p) := t.value] else g.frameOf;
    Pages(tables[p := f], (g.rangeOf - Behind(g, p) - Table(t))[f := n])
  }

  function Table(t: Option<Frame>): set<Frame> { if t.Some? then {t.value} else {} }

  /** A table for page `p` is there, or `t` is a fresh page for one. */
  ghost predicate TableReady(g: Pages, p: int, f: Frame, t: Option<Frame>) {
    if MirrorPage(p) in g.frameOf then t.None?
      else t.Some? && IsFresh(g, t.value) && t.value != f
  }

  /** Physical page `f`, which nothing mapped, is mapped at page `p` for range `n`. */
  ghost predicate NewPage(g: Pages, g': Pages, p: int, n: Ptr, f: Frame, t: Option<Frame>) {
    IsFresh(g, f) && TableReady(g, p, f, t) && g' == WithPage(g, p, n, f, t)
  }

  /** The owners that the pages taken had before do not matter. */
  lemma NewPageStale(g: Pages, g1: Pages, p: int, n: Ptr, f: Frame, t: Option<Frame>)
    requires IsFresh(g1, f) && TableReady(g1, p, f, t)
    requires g1 == g.(rangeOf := if t.Some? then g.rangeOf - {f} - {t.value} else g.rangeOf - {f})
    ensures NewPage(g, WithPage(g1, p, n, f, t), p, n, f, t)
  {
    assert WithPage(g1, p, n, f, t).rangeOf == WithPage(g, p, n, f, t).rangeOf;
  }

  /** The physical page taken for a page, and the one taken for its table if there was none. */
  datatype Taken = Taken(page: Frame, table: Option<Frame>)

  /** The pages from page `base` on are mapped for range `n`, one after the other. */
  function WithPages(g: Pages, base: int, taken: seq<Taken>, n: Ptr): Pages {
    if taken == [] then g
    else
      var k := |taken| - 1;
      WithPage(WithPages(g, base, taken[..k], n), base + k, n, taken[k].page, taken[k].table)
  }

  /** ... and each of these steps takes pages that nothing maps, and a table exactly if there is none. */
  ghost predicate NewPages(g: Pages, g': Pages, base: int, taken: seq<Taken>, n: Ptr)
    decreases |taken|
  {
    if taken == [] then g' == g
    else
      var k := |taken| - 1;
      var h := WithPages(g, base, taken[..k], n);
      NewPages(g, h, base, taken[..k], n) && NewPage(h, g', base + k, n, taken[k].page, taken[k].table)
  }

  lemma NoPages(g: Pages, base: int, n: Ptr)
    ensures NewPages(g, g, base, [], n)
  {}

  lemma {:induction false} NewPagesAre(g: Pages, g': Pages, base: int, taken: seq<Taken>, n: Ptr)
    requires NewPages(g, g', base, taken, n)
    ensures g' == WithPages(g, base, taken, n)
  {}

  lemma {:induction false} NewPagesStep(g: Pages, h: Pages, g': Pages, base: int, taken: seq<Taken>, n: Ptr,
      last: Taken)
    requires NewPages(g, h, base, taken, n) && NewPage(h, g', base + |taken|, n, last.page, last.table)
    ensures NewPages(g, g', base, taken + [last], n)
  {
    NewPagesAre(g, h, base, taken, n);
    assert (taken + [last])[..|taken|] == taken;
    hide NewPage, WithPage;
  }

  lemma WithPageOk(mapped: map<int, Ptr>, g: Pages, p: int, n: Ptr, f: Frame, t: Option<Frame>)
    requires FramesOk(mapped, g) && InArea(p) && IsFresh(g, f) && TableReady(g, p, f, t)
    ensures FramesOk(mapped[p := n], WithPage(g, p, n, f, t))
  {
    var g', mapped' := WithPage(g, p, n, f, t), mapped[p := n];
    forall q | q in g.frameOf ensures g.frameOf[q] != f && (t.Some? ==> g.frameOf[q] != t.value) {
      assert g.frameOf[q] in g.frameOf.Values;
    }
    assert !InArea(MirrorPage(p));
    forall q | q in mapped' ensures InArea(q) && Names(g', q, mapped'[q]) {
      if q != p { assert Names(g, q, mapped[q]); }
    }
    forall q | q in g'.frameOf && q !in mapped' ensures !InArea(q) && Unowned(g', q) {
      if q in g.frameOf && !(t.Some? && q == MirrorPage(p)) { assert Unowned(g, q); }
    }
  }

  /** The owner a page had before nothing mapped it any more does not matter. */
  lemma StaleOk(mapped: map<int, Ptr>, g: Pages, f: Frame)
    requires FramesOk(mapped, g) && IsFresh(g, f)
    ensures FramesOk(mapped, g.(rangeOf := g.rangeOf - {f}))
  {
    var g' := g.(rangeOf := g.rangeOf - {f});
    forall q | q in g.frameOf ensures g.frameOf[q] != f { assert g.frameOf[q] in g.frameOf.Values; }
    forall q | q in mapped ensures InArea(q) && Names(g', q, mapped[q]) { assert Names(g, q, mapped[q]); }
    forall q | q in g'.frameOf && q !in mapped ensures !InArea(q) && Unowned(g', q) { assert Unowned(g, q); }
  }

  /** sos_paging_unmap of page `p`, whose physical page nobody else references: it forgets its owner. */
  function UnmapOne(g: Pages, p: int): Pages {
    if p !in g.frameOf then g
    else
      Pages(g.frameOf - {p} - (if LastOfTable(g.frameOf, p) then {MirrorPage(p)} else {}), g.rangeOf - {g.frameOf[p]})
  }

  /** ... of `n` pages from page `base` on. */
  function UnmapAll(g: Pages, base: int, n: int): Pages {
    if n <= 0 then g else UnmapOne(UnmapAll(g, base, n - 1), base + n - 1)
  }

  function WithoutPages(mapped: map<int, Ptr>, lo: int, hi: int): map<int, Ptr> {
    map p | p in mapped && !(lo <= p < hi) :: mapped[p]
  }

  lemma UnmapOneOk(mapped: map<int, Ptr>, g: Pages, p: int)
    requires FramesOk(mapped, g) && InArea(p)
    ensures FramesOk(mapped - {p}, UnmapOne(g, p))
  {
    if p in g.frameOf {
      var g', mapped' := UnmapOne(g, p), mapped - {p};
      assert p in mapped;
      assert !InArea(MirrorPage(p));
      forall q | q in mapped' ensures InArea(q) && Names(g', q, mapped'[q]) { assert Names(g, q, mapped[q]); }
      forall q | q in g'.frameOf && q !in mapped' ensures !InArea(q) && Unowned(g', q) { assert Unowned(g, q); }
    } else {
      assert p !in mapped;
      assert mapped - {p} == mapped;
    }
  }

  lemma {:induction false} UnmapAllOk(mapped: map<int, Ptr>, g: Pages, base: int, n: int)
    requires FramesOk(mapped, g) && BASE_PAGE <= base && base + n <= TOP_PAGE
    ensures FramesOk(WithoutPages(mapped, base, base + n), UnmapAll(g, base, n))
  {
    if n <= 0 {
      assert WithoutPages(mapped, base, base + n) == mapped;
    } else {
      UnmapAllOk(mapped, g, base, n - 1);
      hide FramesOk, UnmapOne;
      UnmapOneOk(WithoutPages(mapped, base, base + n - 1), UnmapAll(g, base, n - 1), base + n - 1);
      assert WithoutPages(mapped, base, base + n) == WithoutPages(mapped, base, base + n - 1) - {base + n - 1};
    }
  }
}
