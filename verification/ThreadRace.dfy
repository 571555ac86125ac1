/**
 Why the enqueue that ends sos_create_kernel_thread (os/thread.c:173) needs interrupts disabled: the links of the ready
 queue, one write at a time, when an interrupt handler enqueues threads between two writes of list_add_tail.

 `ThreadState.RacedQueue` is the queue that results; `RaceExactly` says at which points an interrupt does no harm.
 */
module ThreadRace {
  import opened ThreadState

  /** The links of the ready queue (ready.rdy_next and rdy_prev of the threads), and its head. */
  datatype Links = Links(next: map<Tid, Tid>, prev: map<Tid, Tid>, head: Option<Tid>)

  function Succ(s: seq<Tid>, i: nat): Tid
    requires i < |s|
  {
    if i + 1 < |s| then s[i + 1] else s[0]
  }

  function Pred(s: seq<Tid>, i: nat): Tid
    requires i < |s|
  {
    if i == 0 then s[|s| - 1] else s[i - 1]
  }

  predicate Follows(next: map<Tid, Tid>, s: seq<Tid>) {
    forall i: nat :: i < |s| ==> s[i] in next && next[s[i]] == Succ(s, i)
  }

  /** Following `next` from the head, one finds the elements of `s` and is back at the head. */
  predicate IsChain(l: Links, s: seq<Tid>) {
    NoDup(s) && Follows(l.next, s) && if s == [] then l.head == None else l.head == Some(s[0])
  }

  /** A well-formed ring: `prev` is the inverse of `next`. */
  predicate IsRing(l: Links, s: seq<Tid>) {
    IsChain(l, s) && forall i: nat :: i < |s| ==> s[i] in l.prev && l.prev[s[i]] == Pred(s, i)
  }

  function Get(m: map<Tid, Tid>, t: Tid): Tid { if t in m then m[t] else t }

  // ---------------------------------------------------------------- list_add_tail, one write at a time

  /** The four writes that insert `t` at the left of the head `h` (os/list.h:50-56). */
  function Write(l: Links, h: Tid, t: Tid, i: nat): Links {
    if i == 1 then l.(next := l.next[Get(l.prev, h) := t])
    else if i == 2 then l.(prev := l.prev[t := Get(l.prev, h)])
    else if i == 3 then l.(prev := l.prev[h := t])
    else l.(next := l.next[t := h])
  }

  /** The three writes that make `t` a list of its own (os/list.h:36-39). */
  function WriteAlone(l: Links, t: Tid, i: nat): Links {
    if i == 1 then l.(next := l.next[t := t])
    else if i == 2 then l.(prev := l.prev[t := t])
    else l.(head := Some(t))
  }

  /** The first `n` writes. */
  function Done(l: Links, h: Tid, t: Tid, n: nat): Links { if n == 0 then l else Write(Done(l, h, t, n - 1), h, t, n) }

  /** Those after the first `n`. */
  function Rest(l: Links, h: Tid, t: Tid, n: nat): Links
    decreases 4 - n
  {
    if n >= 4 then l else Rest(Write(l, h, t, n + 1), h, t, n + 1)
  }

  function DoneAlone(l: Links, t: Tid, n: nat): Links { if n == 0 then l else WriteAlone(DoneAlone(l, t, n - 1), t, n) }

  function RestAlone(l: Links, t: Tid, n: nat): Links
    decreases 3 - n
  {
    if n >= 3 then l else RestAlone(WriteAlone(l, t, n + 1), t, n + 1)
  }

  /** list_add_tail (os/list.h:80-85). */
  function AddTail(l: Links, t: Tid): Links {
    match l.head
    case None => RestAlone(l, t, 0)
    case Some(h) => Rest(l, h, t, 0)
  }

  /** What handlers do, with interrupts disabled. */
  function AddAll(l: Links, ws: seq<Tid>): Links {
    if ws == [] then l else AddTail(AddAll(l, ws[..|ws| - 1]), ws[|ws| - 1])
  }

  function Min(a: nat, b: nat): nat { if a < b then a else b }

  /** list_add_tail of `t`, interrupted at `point` by handlers that add `ws`. */
  function Raced(l: Links, t: Tid, point: nat, ws: seq<Tid>): Links {
    if point == 0 then AddTail(AddAll(l, ws), t)
    else
      match l.head
      case None => RestAlone(AddAll(DoneAlone(l, t, Min(point - 1, 3)), ws), t, Min(point - 1, 3))
      case Some(h) => Rest(AddAll(Done(l, h, t, Min(point - 1, 4)), ws), h, t, Min(point - 1, 4))
  }

  // ---------------------------------------------------------------- what list_add_tail does when nobody interrupts

  lemma AddTailRing(l: Links, s: seq<Tid>, t: Tid)
    requires IsRing(l, s) && t !in s
    ensures IsRing(AddTail(l, t), s + [t])
  {
    var q, l' := s + [t], AddTail(l, t);
    if s == [] {
      assert q == [t];
      assert l' == WriteAlone(WriteAlone(WriteAlone(l, t, 1), t, 2), t, 3);
    } else {
      var h := s[0];
      assert Get(l.prev, h) == s[|s| - 1];
      AddTailIs(l, h, t);
      forall i: nat | i < |q|
        ensures q[i] in l'.next && l'.next[q[i]] == Succ(q, i) && q[i] in l'.prev && l'.prev[q[i]] == Pred(q, i)
      {
        if i < |s| { assert s[i] in l.next && s[i] in l.prev; }
      }
    }
  }

  lemma AddTailIs(l: Links, h: Tid, t: Tid)
    requires l.head == Some(h) && h != t
    ensures AddTail(l, t)
      == l.(next := l.next[Get(l.prev, h) := t][t := h], prev := l.prev[t := Get(l.prev, h)][h := t])
  {
    assert AddTail(l, t) == Write(Write(Write(Write(l, h, t, 1), h, t, 2), h, t, 3), h, t, 4);
  }

  lemma {:induction false} AddAllRing(l: Links, s: seq<Tid>, ws: seq<Tid>)
    requires IsRing(l, s) && NoDup(s + ws)
    ensures IsRing(AddAll(l, ws), s + ws)
    decreases |ws|
  {
    if ws == [] {
      assert s + ws == s;
    } else {
      var b, w := ws[..|ws| - 1], ws[|ws| - 1];
      assert s + ws == (s + b) + [w];
      LastIsNew(s + b, w);
      hide IsRing, AddTail;
      AddAllRing(l, s, b);
      AddTailRing(AddAll(l, b), s + b, w);
    }
  }

  lemma LastIsNew(s: seq<Tid>, w: Tid)
    requires NoDup(s + [w])
    ensures NoDup(s) && w !in s
  {
    var q := s + [w];
    forall i | 0 <= i < |s| ensures s[i] != w { assert q[i] != q[|s|]; }
    forall i, j | 0 <= i < j < |s| ensures s[i] != s[j] { assert q[i] != q[j]; }
  }

  // ---------------------------------------------------------------- interrupted

  lemma {:induction false} SameStart(l: Links, m: Links, ws: seq<Tid>)
    requires ws != [] && AddTail(l, ws[0]) == AddTail(m, ws[0])
    ensures AddAll(l, ws) == AddAll(m, ws)
    decreases |ws|
  {
    hide AddTail;
    var b := ws[..|ws| - 1];
    if b == [] {
      assert AddAll(l, b) == l && AddAll(m, b) == m;
    } else {
      SameStart(l, m, b);
    }
  }

  lemma DoneIs(l: Links, h: Tid, t: Tid)
    requires l.head == Some(h) && h != t
    ensures Done(l, h, t, 1) == l.(next := l.next[Get(l.prev, h) := t])
    ensures Done(l, h, t, 2) == l.(next := l.next[Get(l.prev, h) := t], prev := l.prev[t := Get(l.prev, h)])
    ensures Done(l, h, t, 3) == l.(next := l.next[Get(l.prev, h) := t], prev := l.prev[t := Get(l.prev, h)][h := t])
    ensures Done(l, h, t, 4) == AddTail(l, t)
  {
    AddTailIs(l, h, t);
    hide AddTail;
    assert Done(l, h, t, 1) == Write(l, h, t, 1);
    assert Done(l, h, t, 2) == Write(Done(l, h, t, 1), h, t, 2);
    assert Done(l, h, t, 3) == Write(Done(l, h, t, 2), h, t, 3);
    assert Done(l, h, t, 4) == Write(Done(l, h, t, 3), h, t, 4);
  }

  /** An insertion overwrites the link of the last element, whatever it was. */
  lemma Overwrites(l: Links, h: Tid, u: Tid, w: Tid)
    requires l.head == Some(h) && h != w
    ensures AddTail(l.(next := l.next[Get(l.prev, h) := u]), w) == AddTail(l, w)
  {
    var m, p := l.(next := l.next[Get(l.prev, h) := u]), Get(l.prev, h);
    AddTailIs(l, h, w);
    AddTailIs(m, h, w);
    hide AddTail;
    assert l.next[p := u][p := w] == l.next[p := w];
  }

  /**
   Handlers that come after the first write, or the first two, undo them: they leave the ring they would have made
   alone.
   */
  lemma EarlyWrites(l: Links, s: seq<Tid>, t: Tid, n: nat, ws: seq<Tid>)
    requires IsRing(l, s) && s != [] && 1 <= n <= 2 && ws != [] && t !in s && t !in ws && NoDup(s + ws)
    ensures IsRing(AddAll(Done(l, s[0], t, n), ws), s + ws)
  {
    hide AddTail, IsRing, Done, NoDup, AddAll;
    var h := s[0];
    var x := Done(l, h, t, n);
    var y := if n == 1 then l else l.(prev := l.prev[t := Get(l.prev, h)]);
    ExtraPrev(l, s, t, Get(l.prev, h));
    DoneIs(l, h, t);
    assert x == y.(next := y.next[Get(y.prev, h) := t]);
    NotFirst(s, ws);
    Overwrites(y, h, t, ws[0]);
    SameStart(x, y, ws);
    AddAllRing(y, s, ws);
  }

  lemma ExtraPrev(l: Links, s: seq<Tid>, t: Tid, p: Tid)
    requires IsRing(l, s) && s != [] && t !in s
    ensures IsRing(l.(prev := l.prev[t := p]), s) && l.head == Some(s[0]) && s[0] != t
  {}

  lemma NotFirst(s: seq<Tid>, ws: seq<Tid>)
    requires s != [] && ws != [] && NoDup(s + ws)
    ensures s[0] != ws[0]
  {
    assert (s + ws)[0] == s[0] && (s + ws)[|s|] == ws[0];
  }

  /** Handlers that come after the third write go on from the new element, whose own link is not there yet. */
  lemma LateWrite(l: Links, s: seq<Tid>, t: Tid, ws: seq<Tid>)
    requires IsRing(l, s) && s != [] && ws != [] && t !in s && NoDup(s + [t] + ws)
    ensures IsRing(AddAll(Done(l, s[0], t, 3), ws), s + [t] + ws)
  {
    hide AddTail, IsRing, Done, NoDup, AddAll;
    var h := s[0];
    var x, y := Done(l, h, t, 3), AddTail(l, t);
    AddTailRing(l, s, t);
    ExtraPrev(l, s, t, t);
    DoneIs(l, h, t);
    AddTailIs(l, h, t);
    NotFirst(s + [t], ws);
    assert y == x.(next := x.next[Get(x.prev, h) := h]);
    Overwrites(x, h, h, ws[0]);
    SameStart(x, y, ws);
    AddAllRing(y, s + [t], ws);
  }

  /** Two chains along the same links from the same head are the same. */
  lemma {:induction false} ChainPrefix(l: Links, s: seq<Tid>, q: seq<Tid>, n: nat)
    requires IsChain(l, s) && IsChain(l, q) && n < |s| && n < |q|
    ensures s[n] == q[n]
  {
    if n == 0 {
    } else {
      ChainPrefix(l, s, q, n - 1);
      assert l.next[s[n - 1]] == s[n] && l.next[q[n - 1]] == q[n];
    }
  }

  lemma ChainUnique(l: Links, s: seq<Tid>, q: seq<Tid>)
    requires IsChain(l, s) && IsChain(l, q)
    ensures s == q
  {
    if s != [] && q != [] {
      forall n | 0 <= n < |s| && n < |q| ensures s[n] == q[n] { ChainPrefix(l, s, q, n); }
      if |s| < |q| { ChainEnds(l.next, s, q); }
      if |q| < |s| { ChainEnds(l.next, q, s); }
    }
  }

  lemma ChainEnds(next: map<Tid, Tid>, s: seq<Tid>, q: seq<Tid>)
    requires Follows(next, s) && Follows(next, q) && s != [] && |s| < |q| && forall n :: 0 <= n < |s| ==> s[n] == q[n]
    ensures q[|s|] == q[0]
  {
    var n: nat := |s| - 1;
    assert next[s[n]] == Succ(s, n) && next[q[n]] == Succ(q, n);
  }

  lemma RestIs(l: Links, h: Tid, t: Tid, n: nat)
    requires 1 <= n <= 3
    ensures Rest(l, h, t, n).next == l.next[t := h] && Rest(l, h, t, n).head == l.head
  {
    assert n == 3 ==> Rest(l, h, t, n) == Write(l, h, t, 4);
    assert n == 2 ==> Rest(l, h, t, n) == Write(Write(l, h, t, 3), h, t, 4);
    assert n == 1 ==> Rest(l, h, t, n) == Write(Write(Write(l, h, t, 2), h, t, 3), h, t, 4);
  }

  lemma SamePlaces(q: seq<Tid>, s: seq<Tid>, t: Tid, ws: seq<Tid>)
    requires q == s + [t] + ws && NoDup(q)
    ensures NoDup(s + [t]) && NoDup(s + ws) && NoDup([t] + ws) && NoDup(ws) && t !in s && t !in ws
    ensures NoDup(s + ws + [t])
  {
    forall i | 0 <= i < |s| ensures s[i] != t { assert q[i] != q[|s|]; }
    forall i | 0 <= i < |ws| ensures ws[i] != t { assert q[|s|] != q[|s| + 1 + i]; }
    forall i, j | 0 <= i < j < |s + ws| ensures (s + ws)[i] != (s + ws)[j] {
      assert q[if i < |s| then i else i + 1] != q[if j < |s| then j else j + 1];
    }
    forall i, j | 0 <= i < j < |s + [t]| ensures (s + [t])[i] != (s + [t])[j] { assert q[i] != q[j]; }
    forall i, j | 0 <= i < j < |[t] + ws| ensures ([t] + ws)[i] != ([t] + ws)[j] { assert q[|s| + i] != q[|s| + j]; }
    forall i, j | 0 <= i < j < |ws| ensures ws[i] != ws[j] { assert q[|s| + 1 + i] != q[|s| + 1 + j]; }
  }

  /** On a list that is not empty. */
  lemma RacedFull(l: Links, s: seq<Tid>, t: Tid, point: nat, ws: seq<Tid>)
    requires IsRing(l, s) && s != [] && ws != [] && point >= 1 && NoDup(s + [t] + ws)
    ensures point == 1 ==> IsRing(Raced(l, t, point, ws), s + ws + [t])
    ensures 2 <= point <= 3 ==> IsChain(Raced(l, t, point, ws), s + ws)
    ensures point == 4 ==> IsChain(Raced(l, t, point, ws), s + [t])
    ensures point >= 5 ==> IsRing(Raced(l, t, point, ws), s + [t] + ws)
  {
    var h, n := s[0], Min(point - 1, 4);
    var x := AddAll(Done(l, h, t, n), ws);
    SamePlaces(s + [t] + ws, s, t, ws);
    assert l.head == Some(h);
    hide AddAll, AddTail, Done, Rest, NoDup;
    assert Raced(l, t, point, ws) == Rest(x, h, t, n);
    if n == 0 {
      DoneNone(l, h, t);
      AddAllRing(l, s, ws);
      AddTailRing(x, s + ws, t);
      RestAll(x, h, t);
    } else if n <= 2 {
      EarlyWrites(l, s, t, n, ws);
      RestIs(x, h, t, n);
      assert Follows(x.next[t := h], s + ws);
    } else if n == 3 {
      LateWrite(l, s, t, ws);
      RestIs(x, h, t, n);
      CutChain(x, s, t, ws);
    } else {
      DoneIs(l, h, t);
      AddTailRing(l, s, t);
      AddAllRing(AddTail(l, t), s + [t], ws);
      RestNone(x, h, t);
    }
  }

  lemma DoneNone(l: Links, h: Tid, t: Tid)
    ensures Done(l, h, t, 0) == l
  {}

  lemma RestNone(l: Links, h: Tid, t: Tid)
    ensures Rest(l, h, t, 4) == l
  {}

  lemma RestAll(l: Links, h: Tid, t: Tid)
    ensures l.head == Some(h) ==> Rest(l, h, t, 0) == AddTail(l, t)
  {}

  /** The last write closes the chain at the new element, and loses what handlers put after it. */
  lemma CutChain(l: Links, s: seq<Tid>, t: Tid, ws: seq<Tid>)
    requires IsRing(l, s + [t] + ws) && s != [] && t !in s
    ensures Follows(l.next[t := s[0]], s + [t]) && l.head == Some(s[0])
  {
    var q, r := s + [t] + ws, s + [t];
    forall i: nat | i < |r| ensures r[i] in l.next[t := s[0]] && l.next[t := s[0]][r[i]] == Succ(r, i) {
      assert q[i] == r[i];
      if i < |s| { assert Succ(q, i) == q[i + 1] == r[i + 1]; }
    }
  }

  /** Handlers do not touch the links of a thread they do not add. */
  lemma {:induction false} AddAllFrame(l: Links, s: seq<Tid>, ws: seq<Tid>, u: Tid)
    requires IsRing(l, s) && NoDup(s + ws) && u !in s && u !in ws
    ensures var l' := AddAll(l, ws); Get(l'.next, u) == Get(l.next, u) && Get(l'.prev, u) == Get(l.prev, u)
    ensures var l' := AddAll(l, ws); (u in l.next ==> u in l'.next) && (u in l.prev ==> u in l'.prev)
    decreases |ws|
  {
    if ws == [] {
    } else {
      var b, w := ws[..|ws| - 1], ws[|ws| - 1];
      assert s + ws == (s + b) + [w];
      LastIsNew(s + b, w);
      AddAllRing(l, s, b);
      AddAllFrame(l, s, b, u);
      hide NoDup, AddAll;
      AddTailFrame(AddAll(l, b), s + b, w, u);
    }
  }

  lemma AddTailFrame(l: Links, s: seq<Tid>, w: Tid, u: Tid)
    requires IsRing(l, s) && w !in s && u !in s && u != w
    ensures var l' := AddTail(l, w); Get(l'.next, u) == Get(l.next, u) && Get(l'.prev, u) == Get(l.prev, u)
    ensures var l' := AddTail(l, w); (u in l.next ==> u in l'.next) && (u in l.prev ==> u in l'.prev)
  {
    if s == [] {
      AloneIs(l, w);
    } else {
      assert Get(l.prev, s[0]) == s[|s| - 1] && s[0] in s && s[|s| - 1] in s;
      AddTailIs(l, s[0], w);
    }
    hide AddTail;
  }

  lemma AloneIs(l: Links, t: Tid)
    ensures RestAlone(l, t, 0) == Links(l.next[t := t], l.prev[t := t], Some(t))
    ensures RestAlone(l, t, 1) == Links(l.next, l.prev[t := t], Some(t))
    ensures RestAlone(l, t, 2) == Links(l.next, l.prev, Some(t)) && RestAlone(l, t, 3) == l
    ensures DoneAlone(l, t, 0) == l && DoneAlone(l, t, 1) == l.(next := l.next[t := t])
    ensures DoneAlone(l, t, 2) == l.(next := l.next[t := t], prev := l.prev[t := t])
    ensures DoneAlone(l, t, 3) == RestAlone(l, t, 0)
  {
    assert RestAlone(l, t, 2) == WriteAlone(l, t, 3);
    assert RestAlone(l, t, 1) == WriteAlone(WriteAlone(l, t, 2), t, 3);
    assert RestAlone(l, t, 0) == WriteAlone(WriteAlone(WriteAlone(l, t, 1), t, 2), t, 3);
    assert DoneAlone(l, t, 1) == WriteAlone(l, t, 1);
    assert DoneAlone(l, t, 2) == WriteAlone(DoneAlone(l, t, 1), t, 2);
    assert DoneAlone(l, t, 3) == WriteAlone(DoneAlone(l, t, 2), t, 3);
  }

  /** On an empty list: what handlers added before the head is written is lost. */
  lemma RacedEmpty(l: Links, t: Tid, point: nat, ws: seq<Tid>)
    requires l.head == None && ws != [] && point >= 1 && NoDup([t] + ws)
    ensures point <= 3 ==> IsRing(Raced(l, t, point, ws), [t])
    ensures point >= 4 ==> IsRing(Raced(l, t, point, ws), [t] + ws)
  {
    hide AddAll, NoDup, DoneAlone, RestAlone, IsRing;
    var n := Min(point - 1, 3);
    var x := DoneAlone(l, t, n);
    var y := AddAll(x, ws);
    assert [] + [t] + ws == [t] + ws && [] + ws == ws;
    SamePlaces([t] + ws, [], t, ws);
    AloneIs(l, t);
    AloneIs(y, t);
    if n == 3 {
      AloneRing(x, t);
      AddAllRing(x, [t], ws);
    } else {
      NoRing(x);
      AddAllFrame(x, [], ws, t);
      AloneRing(RestAlone(y, t, n), t);
    }
  }

  lemma NoRing(l: Links)
    requires l.head == None
    ensures IsRing(l, [])
  {}

  lemma AloneRing(l: Links, t: Tid)
    requires l.head == Some(t) && t in l.next && l.next[t] == t && t in l.prev && l.prev[t] == t
    ensures IsRing(l, [t])
  {}

  // ---------------------------------------------------------------- the theorem

  /**
   The `next` links after an interrupted enqueue are those of `RacedQueue` if the interrupt came in the window; outside
   of it the ring is whole, with the threads in the order of their enqueues.
   */
  lemma RacedChain(l: Links, s: seq<Tid>, t: Tid, point: nat, ws: seq<Tid>)
    requires IsRing(l, s) && ws != [] && NoDup(s + [t] + ws)
    ensures InWindow(s, point) ==> IsChain(Raced(l, t, point, ws), RacedQueue(s, t, point, ws))
    ensures BeforeWindow(s, point) ==> IsRing(Raced(l, t, point, ws), s + ws + [t])
    ensures !BeforeWindow(s, point) && !InWindow(s, point) ==> IsRing(Raced(l, t, point, ws), s + [t] + ws)
  {
    SamePlaces(s + [t] + ws, s, t, ws);
    hide AddAll, AddTail, IsRing, NoDup, Rest, Done, RestAlone, DoneAlone;
    if point == 0 {
      AddAllRing(l, s, ws);
      NotAmong(s, t, ws);
      AddTailRing(AddAll(l, ws), s + ws, t);
    } else if s == [] {
      EmptyHead(l);
      assert s + [t] == [t] && [t] + ws == s + [t] + ws;
      RacedEmpty(l, t, point, ws);
      if InWindow(s, point) { RingIsChain(Raced(l, t, point, ws), [t]); }
    } else {
      RacedFull(l, s, t, point, ws);
    }
  }

  lemma EmptyHead(l: Links)
    requires IsRing(l, [])
    ensures l.head == None
  {}

  lemma RingIsChain(l: Links, s: seq<Tid>)
    requires IsRing(l, s)
    ensures IsChain(l, s)
  {}

  lemma NotAmong(s: seq<Tid>, t: Tid, ws: seq<Tid>)
    requires t !in s && t !in ws
    ensures t !in s + ws
  {}

  /** All the threads that were made ready are found from the head of the queue. */
  ghost predicate AllFound(l: Links, s: seq<Tid>, t: Tid, ws: seq<Tid>) {
    exists q :: IsRing(l, q) && forall u :: u in q <==> u in s || u == t || u in ws
  }

  /**
   The enqueue of a new thread, interrupted anywhere by handlers that enqueue `ws`, leaves a ring of all threads if and
   only if the interrupt does not come between its first and its last write (on an empty list, between its test and its
   last write).
   */
  lemma RaceExactly(l: Links, s: seq<Tid>, t: Tid, point: nat, ws: seq<Tid>)
    requires IsRing(l, s) && ws != [] && NoDup(s + [t] + ws)
    ensures AllFound(Raced(l, t, point, ws), s, t, ws) <==> !InWindow(s, point)
  {
    hide Raced, IsRing, NoDup;
    var r := Raced(l, t, point, ws);
    RacedChain(l, s, t, point, ws);
    if InWindow(s, point) {
      if AllFound(r, s, t, ws) {
        var q :| IsRing(r, q) && forall u :: u in q <==> u in s || u == t || u in ws;
        RingIsChain(r, q);
        ChainUnique(r, q, RacedQueue(s, t, point, ws));
        OneIsLost(s, t, point, ws);
      }
    } else if BeforeWindow(s, point) {
      assert forall u :: u in s + ws + [t] <==> u in s || u == t || u in ws;
    } else {
      assert forall u :: u in s + [t] + ws <==> u in s || u == t || u in ws;
    }
  }

  lemma OneIsLost(s: seq<Tid>, t: Tid, point: nat, ws: seq<Tid>)
    requires InWindow(s, point) && ws != [] && NoDup(s + [t] + ws)
    ensures exists u :: (u == t || u in ws) && u !in RacedQueue(s, t, point, ws)
  {
    SamePlaces(s + [t] + ws, s, t, ws);
    if s != [] && point <= 3 {
      assert t !in RacedQueue(s, t, point, ws);
    } else {
      var w := ws[0];
      assert w in ws;
      assert w !in s by { forall i | 0 <= i < |s| ensures s[i] != w { assert (s + ws)[i] != (s + ws)[|s|]; } }
      assert w !in RacedQueue(s, t, point, ws);
    }
  }

  /**
   The failing interleaving: thread 1 is ready, thread 2 is being enqueued, and after the second write a tick makes
   thread 3 ready. Thread 2 is in the count of the queue, and never found in it.
   */
  lemma LostThread(l: Links)
    requires l == Links(map[1 := 1], map[1 := 1], Some(1))
    ensures IsRing(l, [1]) && IsChain(Raced(l, 2, 3, [3]), [1, 3]) && !AllFound(Raced(l, 2, 3, [3]), [1], 2, [3])
  {
    assert [1] + [2] + [3] == [1, 2, 3] && [1] + [3] == [1, 3];
    RacedChain(l, [1], 2, 3, [3]);
    RaceExactly(l, [1], 2, 3, [3]);
  }
}
