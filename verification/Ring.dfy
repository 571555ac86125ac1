/**
 The circular doubly-linked lists of os/list.h, on which every queue of the kernel is built. The macros rewrite the
 `prev` and `next` links of the elements, and the variable that points to the head; each does to the sequence of
 elements, from the head, what its name says, and touches no other ring.
 */
module Ring {

  class Node {
    var prev: Node?
    var next: Node?

    constructor ()
      ensures prev == null && next == null
    {
      prev, next := null, null;
    }
  }

  predicate NoDup<T(==)>(s: seq<T>) { forall i, j :: 0 <= i < j < |s| ==> s[i] != s[j] }

  /** The nodes of `s` are linked in a circle, in this order: `next` and `prev` are inverses, and the ends meet. */
  ghost predicate Linked(s: seq<Node>)
    reads s
  {
    && NoDup(s)
    && (forall i {:trigger s[i].next} :: 0 <= i < |s| - 1 ==> s[i].next == s[i + 1])
    && (forall i {:trigger s[i].prev} :: 0 < i < |s| ==> s[i].prev == s[i - 1])
    && (s != [] ==> s[0].prev == s[|s| - 1] && s[|s| - 1].next == s[0])
  }

  /** The list that starts at `head` consists of the elements of `s`. */
  ghost predicate IsList(head: Node?, s: seq<Node>)
    reads s
  {
    Linked(s) && (if s == [] then head == null else head == s[0])
  }

  /** `s` without the element at `k`. */
  function Cut<T>(s: seq<T>, k: nat): (r: seq<T>)
    requires k < |s|
  {
    s[..k] + s[k + 1..]
  }

  function Insert<T>(s: seq<T>, k: nat, x: T): (r: seq<T>)
    requires k <= |s|
  {
    s[..k] + [x] + s[k..]
  }

  /** list_singleton. */
  method Singleton(item: Node) returns (list: Node?)
    modifies item
    ensures IsList(list, [item])
  {
    item.prev := item;
    item.next := item;
    list := item;
  }

  /** list_get_tail. */
  method GetTail(list: Node?, ghost s: seq<Node>) returns (tail: Node?)
    requires IsList(list, s)
    ensures if s == [] then tail == null else tail == s[|s| - 1]
  {
    if list == null { return null; }
    tail := list.prev;
  }

  /** A circle has no beginning. */
  lemma Turn(a: seq<Node>, b: seq<Node>)
    requires Linked(a + b)
    ensures Linked(b + a)
  {
    var s, t := a + b, b + a;
    if a == [] || b == [] {
      assert t == s;
    } else {
      forall i ensures 0 <= i < |b| ==> t[i] == s[|a| + i] {}
      forall i ensures |b| <= i < |t| ==> t[i] == s[i - |b|] {}
      forall i | 0 <= i < |t| - 1 ensures t[i].next == t[i + 1] {
        if i < |b| { assert s[|a| + i].next == t[i].next; } else { assert s[i - |b|].next == t[i].next; }
      }
      forall i | 0 < i < |t| ensures t[i].prev == t[i - 1] {
        if i < |b| { assert s[|a| + i].prev == t[i].prev; } else { assert s[i - |b|].prev == t[i].prev; }
      }
      assert s[|a| - 1].next == t[|t| - 1].next;
      assert s[|a|].prev == t[0].prev;
    }
  }

  /** __list_insert_atleft of the head: `item` closes the circle. */
  method InsertAtEnd(head: Node, item: Node, ghost s: seq<Node>)
    requires Linked(s) && s != [] && head == s[0] && item !in s
    modifies s, item
    ensures Linked(s + [item])
  {
    ghost var last := s[|s| - 1];
    assert head.prev == last && last in s;
    head.prev.next := item;
    item.prev := head.prev;
    head.prev := item;
    item.next := head;
    ghost var t := s + [item];
    forall i | 0 <= i < |t| - 1 ensures t[i].next == t[i + 1] {
      assert t[i] == s[i];
      if i < |s| - 1 { assert s[i] != last; assert s[i].next == old(s[i].next); }
    }
    forall i | 0 < i < |t| ensures t[i].prev == t[i - 1] {
      if i < |s| { assert s[i] != s[0]; assert s[i].prev == old(s[i].prev); }
    }
  }

  /** The same at the other side: after the last element. */
  method InsertPastEnd(last: Node, item: Node, ghost s: seq<Node>)
    requires Linked(s) && s != [] && last == s[|s| - 1] && item !in s
    modifies s, item
    ensures Linked(s + [item])
  {
    assert last.next == s[0];
    last.next.prev := item;
    item.next := last.next;
    last.next := item;
    item.prev := last;
    ghost var t := s + [item];
    forall i | 0 <= i < |t| - 1 ensures t[i].next == t[i + 1] {
      if i < |s| - 1 { assert s[i] != last; assert s[i].next == old(s[i].next); }
    }
    forall i | 0 < i < |t| ensures t[i].prev == t[i - 1] {
      if i < |s| { assert s[i] != s[0]; assert s[i].prev == old(s[i].prev); }
    }
  }

  /** list_insert_before, for the element at `k`. */
  method InsertBefore(list: Node?, beforeThis: Node, item: Node, ghost s: seq<Node>,
      ghost k: nat) returns (list': Node?)
    requires IsList(list, s) && k < |s| && beforeThis == s[k] && item !in s
    modifies s, item
    ensures IsList(list', Insert(s, k, item))
  {
    ghost var r := s[k..] + s[..k];
    assert s == s[..k] + s[k..];
    Turn(s[..k], s[k..]);
    InsertAtEnd(beforeThis, item, r);
    assert r + [item] == s[k..] + (s[..k] + [item]);
    Turn(s[k..], s[..k] + [item]);
    assert s[..k] + [item] + s[k..] == Insert(s, k, item);
    assert list == beforeThis <==> k == 0;
    hide Linked;
    list' := list;
    if list == beforeThis { list' := item; }
  }

  /** list_insert_after, for the element at `k`. */
  method InsertAfter(list: Node?, afterThis: Node, item: Node, ghost s: seq<Node>, ghost k: nat)
    requires IsList(list, s) && k < |s| && afterThis == s[k] && item !in s
    modifies s, item
    ensures IsList(list, Insert(s, k + 1, item))
  {
    ghost var r := s[k + 1..] + s[..k + 1];
    assert s == s[..k + 1] + s[k + 1..];
    Turn(s[..k + 1], s[k + 1..]);
    InsertPastEnd(afterThis, item, r);
    assert r + [item] == s[k + 1..] + (s[..k + 1] + [item]);
    Turn(s[k + 1..], s[..k + 1] + [item]);
  }

  /** list_add_head. */
  method AddHead(list: Node?, item: Node, ghost s: seq<Node>) returns (list': Node?)
    requires IsList(list, s) && item !in s
    modifies s, item
    ensures IsList(list', [item] + s)
  {
    if list != null {
      list' := InsertBefore(list, list, item, s, 0);
      assert Insert(s, 0, item) == [item] + s;
    } else {
      list' := Singleton(item);
      assert [item] + s == [item];
    }
    list' := item;
  }

  /** list_add_tail. */
  method AddTail(list: Node?, item: Node, ghost s: seq<Node>) returns (list': Node?)
    requires IsList(list, s) && item !in s
    modifies s, item
    ensures IsList(list', s + [item])
  {
    if list != null {
      InsertAtEnd(list, item, s);
      list' := list;
    } else {
      list' := Singleton(item);
      assert s + [item] == [item];
    }
  }

  /** The second case of list_delete: `item` leaves a circle of several elements, of which it is the last. */
  method Unlink(item: Node, ghost s: seq<Node>)
    requires Linked(s + [item]) && s != []
    modifies s, item
    ensures Linked(s) && item.prev == null && item.next == null
  {
    ghost var t := s + [item];
    assert item == t[|s|] && t[0] == s[0] && t[|s| - 1] == s[|s| - 1];
    assert item.prev == s[|s| - 1] && item.next == s[0];
    assert item !in s by { forall i | 0 <= i < |s| ensures s[i] != item { assert t[i] != t[|s|]; } }
    item.prev.next := item.next;
    item.next.prev := item.prev;
    item.prev := null;
    item.next := null;
    forall i, j | 0 <= i < j < |s| ensures s[i] != s[j] { assert t[i] != t[j]; }
    forall i | 0 <= i < |s| - 1 ensures s[i].next == s[i + 1] {
      assert s[i] != s[|s| - 1] && t[i] == s[i] && t[i + 1] == s[i + 1];
      assert old(t[i].next) == t[i + 1];
    }
    forall i | 0 < i < |s| ensures s[i].prev == s[i - 1] {
      assert s[i] != s[0] && t[i] == s[i] && t[i - 1] == s[i - 1];
      assert old(t[i].prev) == t[i - 1];
    }
  }

  /** list_delete, of the element at `k`. */
  method Delete(list: Node?, item: Node, ghost s: seq<Node>, ghost k: nat) returns (list': Node?)
    requires IsList(list, s) && k < |s| && item == s[k]
    modifies s
    ensures IsList(list', Cut(s, k)) && item.prev == null && item.next == null
  {
    if |s| > 1 { NextIsOther(s, k); }
    if item.next == item && item.prev == item {
      item.next := null;
      item.prev := null;
      list' := null;
    } else {
      list' := list;
      NotAlone(s, k);
      ghost var r := s[k + 1..] + s[..k];
      assert s == s[..k + 1] + s[k + 1..];
      Turn(s[..k + 1], s[k + 1..]);
      assert s[k + 1..] + s[..k + 1] == r + [item];
      if item == list {
        list' := item.next;
        assert (r + [item])[|r|].next == (r + [item])[0];
      }
      Unlink(item, r);
      Turn(s[k + 1..], s[..k]);
    }
  }

  lemma NextIsOther(s: seq<Node>, k: nat)
    requires Linked(s) && k < |s| && |s| > 1
    ensures s[k].next != s[k]
  {
    if k < |s| - 1 { assert s[k].next == s[k + 1]; }
  }

  lemma NotAlone(s: seq<Node>, k: nat)
    requires Linked(s) && k < |s| && !(s[k].next == s[k] && s[k].prev == s[k])
    ensures |s| > 1
  {}

  /** list_pop_head. */
  method PopHead(list: Node?, ghost s: seq<Node>) returns (item: Node, list': Node?)
    requires IsList(list, s) && s != []
    modifies s
    ensures item == s[0] && IsList(list', s[1..]) && item.prev == null && item.next == null
  {
    item := list;
    list' := Delete(list, item, s, 0);
    assert Cut(s, 0) == s[1..];
  }

  /** list_foreach_forward: the elements the iterator visits. */
  method Foreach(list: Node?, ghost s: seq<Node>) returns (visited: seq<Node>, nbElements: nat)
    requires IsList(list, s)
    ensures visited == s && nbElements == |s|
  {
    visited, nbElements := [], 0;
    var it := list;
    while it != null && (nbElements == 0 || it != list)
      invariant nbElements <= |s| && visited == s[..nbElements]
      invariant s == [] ==> it == null
      invariant s != [] ==> it == if nbElements == |s| then s[0] else s[nbElements]
      decreases |s| - nbElements
    {
      assert nbElements < |s|;
      visited := visited + [it];
      nbElements := nbElements + 1;
      it := it.next;
    }
  }

  function Reversed<T>(s: seq<T>): (r: seq<T>)
    ensures |r| == |s|
    ensures forall i :: 0 <= i < |s| ==> r[i] == s[|s| - 1 - i]
  {
    if s == [] then [] else [s[|s| - 1]] + Reversed(s[..|s| - 1])
  }

  /** list_foreach_backward. */
  method ForeachBackward(list: Node?, ghost s: seq<Node>) returns (visited: seq<Node>, nbElements: nat)
    requires IsList(list, s)
    ensures visited == Reversed(s) && nbElements == |s|
  {
    visited, nbElements := [], 0;
    var it := GetTail(list, s);
    while it != null && (nbElements == 0 || it != list.prev)
      invariant nbElements <= |s| && visited == Reversed(s)[..nbElements]
      invariant s == [] ==> it == null
      invariant s != [] ==> list != null && it == if nbElements == |s| then s[|s| - 1] else s[|s| - 1 - nbElements]
      decreases |s| - nbElements
    {
      assert nbElements < |s|;
      visited := visited + [it];
      assert s[|s| - 1 - nbElements].prev == if nbElements == |s| - 1 then s[|s| - 1] else s[|s| - 2 - nbElements];
      nbElements := nbElements + 1;
      it := it.prev;
    }
  }

  /** list_collapse: every element is taken off, in order, and the list ends up empty. */
  method Collapse(list: Node?, ghost s: seq<Node>) returns (list': Node?, visited: seq<Node>)
    requires IsList(list, s)
    modifies s
    ensures list' == null && visited == s
    ensures forall x :: x in s ==> x.prev == null && x.next == null
  {
    list', visited := list, [];
    while list' != null
      invariant |visited| <= |s| && visited == s[..|visited|] && IsList(list', s[|visited|..]) && NoDup(s)
      invariant forall x :: x in visited ==> x.prev == null && x.next == null
      decreases |s| - |visited|
    {
      hide Linked;
      ghost var k := |visited|;
      Halves(s, k);
      var it;
      it, list' := PopHead(list', s[k..]);
      assert s[k..][1..] == s[k + 1..] && s[..k + 1] == s[..k] + [s[k]];
      visited := visited + [it];
    }
  }

  lemma Halves(s: seq<Node>, k: nat)
    requires NoDup(s) && k <= |s|
    ensures forall x :: x in s[..k] ==> x !in s[k..]
    ensures forall x :: x in s[k..] ==> x in s
  {}
}
