/** Intrusive circular lists (include/kernel/klist.h): the pointer rings stand for sequences.
    `s` always lists a ring from its head on; every method touches only the nodes it relinks. */
module Klist {
  import opened Seqs

  function Succ(n: nat, i: nat): (j: nat)
    requires i < n
    ensures j < n
  {
    if i + 1 == n then 0 else i + 1
  }

  /** The nodes of s, in this order, form one ring. */
  ghost predicate Ring(s: seq<Node>)
    reads s
  {
    && s != [] && NoDup(s)
    && forall i :: 0 <= i < |s| ==> Linked(s[i], s[Succ(|s|, i)])
  }

  class Node {
    var next: Node
    var prev: Node

    const owner: nat   // the thread that embeds the node, what sk_list_entry computes; unused in a list head
    const pri: nat     // its current_pri

    /** sk_list_init */
    constructor (owner: nat, pri: nat)
      ensures next == this && prev == this && this.owner == owner && this.pri == pri
      ensures Ring([this])
    {
      next, prev := this, this;
      this.owner, this.pri := owner, pri;
    }
  }

  ghost predicate Linked(a: Node, b: Node)
    reads a, b
  {
    a.next == b && b.prev == a
  }

  /** The ring with n before its i-th node. */
  ghost function Inserted(s: seq<Node>, i: nat, n: Node): seq<Node>
    requires i < |s|
  {
    if i == 0 then s + [n] else s[..i] + [n] + s[i..]
  }

  lemma InsertedNoDup(s: seq<Node>, i: nat, n: Node)
    requires NoDup(s) && i < |s| && n !in s
    ensures NoDup(Inserted(s, i, n))
  {
    var r := Inserted(s, i, n);
    assert forall k :: 0 <= k < |r| ==> r[k] == (if i == 0 then (if k < |s| then s[k] else n)
                                                else if k < i then s[k] else if k == i then n else s[k - 1]);
  }

  /** sk_list_add_tail(pos, n): n goes right before pos; before the head that is the end of the list. */
  method AddTail(pos: Node, n: Node, ghost s: seq<Node>, ghost i: nat)
    requires Ring(s) && i < |s| && s[i] == pos && n !in s
    modifies n, pos, pos.prev
    ensures Ring(Inserted(s, i, n))
  {
    ghost var r := Inserted(s, i, n);
    ghost var p := if i == 0 then |s| - 1 else i - 1;
    assert Linked(s[p], s[Succ(|s|, p)]);
    var prev := pos.prev;
    pos.prev := n;
    n.next := pos;
    n.prev := prev;
    prev.next := n;
    InsertedNoDup(s, i, n);
    forall j | 0 <= j < |r| ensures Linked(r[j], r[Succ(|r|, j)]) {
      ghost var k := if i == 0 || j < i then j else j - 1;
      if r[j] != n && r[j] != prev { assert old(Linked(s[k], s[Succ(|s|, k)])); }
    }
  }

  /** sk_list_add(head, n): n becomes the first element. */
  method Add(head: Node, n: Node, ghost s: seq<Node>)
    requires Ring(s) && s[0] == head && n !in s
    modifies n, head, head.next
    ensures Ring([head, n] + s[1..])
  {
    ghost var r := [head, n] + s[1..];
    assert Linked(s[0], s[Succ(|s|, 0)]);
    var next := head.next;
    next.prev := n;
    n.next := next;
    n.prev := head;
    head.next := n;
    assert forall k :: 0 <= k < |r| ==> r[k] == (if k == 0 then head else if k == 1 then n else s[k - 1]);
    forall j | 0 <= j < |r| ensures Linked(r[j], r[Succ(|r|, j)]) {
      if j > 1 { assert old(Linked(s[j - 1], s[Succ(|s|, j - 1)])); }
    }
  }

  /** sk_list_del: the node leaves its ring and forms its own; on a lone node it changes nothing. */
  method Del(entry: Node, ghost s: seq<Node>, ghost i: nat)
    requires Ring(s) && i < |s| && s[i] == entry
    modifies entry, entry.prev, entry.next
    ensures Ring([entry])
    ensures |s| > 1 ==> Ring(s[..i] + s[i + 1..])
    ensures |s| == 1 ==> entry.next == old(entry.next) && entry.prev == old(entry.prev)
  {
    ghost var r := s[..i] + s[i + 1..];
    ghost var p := if i == 0 then |s| - 1 else i - 1;
    assert Linked(s[p], s[Succ(|s|, p)]) && Linked(s[i], s[Succ(|s|, i)]);
    var prev, next := entry.prev, entry.next;
    next.prev := prev;
    prev.next := next;
    entry.next, entry.prev := entry, entry;
    if |s| > 1 {
      assert forall k :: 0 <= k < |r| ==> r[k] == s[if k < i then k else k + 1];
      forall j | 0 <= j < |r| ensures Linked(r[j], r[Succ(|r|, j)]) {
        ghost var k := if j < i then j else j + 1;
        if r[j] != prev { assert old(Linked(s[k], s[Succ(|s|, k)])); }
      }
    }
  }

  /** sk_list_empty: the head is alone in its ring. */
  method Empty(head: Node, ghost s: seq<Node>) returns (e: bool)
    requires Ring(s) && s[0] == head
    ensures e <==> |s| == 1
  {
    assert Linked(s[0], s[Succ(|s|, 0)]);
    e := head.next == head;
  }

  /** The prio branch of __ipc_list_suspend on the ring of list head s[0]: walk to the first waiter of lower priority
      and link the thread right before it, or at the end. */
  method InsertByPriority(list: Node, n: Node, ghost s: seq<Node>) returns (ghost i: nat)
    requires Ring(s) && s[0] == list && n !in s
    modifies s, n
    ensures 1 <= i <= |s| && Ring(s[..i] + [n] + s[i..])
    ensures forall k :: 1 <= k < i ==> s[k].pri <= n.pri
    ensures i < |s| ==> n.pri < s[i].pri
  {
    i := 1;
    assert Linked(s[0], s[Succ(|s|, 0)]);
    var t := list.next;
    while t != list
      invariant 1 <= i <= |s| && t == (if i == |s| then s[0] else s[i])
      invariant forall k :: 1 <= k < i ==> s[k].pri <= n.pri
      invariant Ring(s)
      decreases |s| - i
    {
      if n.pri < t.pri {
        assert Linked(s[i - 1], s[Succ(|s|, i - 1)]);
        AddTail(t, n, s, i);
        return;
      }
      assert Linked(s[i], s[Succ(|s|, i)]);
      t := t.next;
      i := i + 1;
    }
    assert Linked(s[|s| - 1], s[Succ(|s|, |s| - 1)]);
    AddTail(list, n, s, 0);
    assert s[..i] + [n] + s[i..] == s + [n];
  }

  /** Deleting what was just linked gives back the ring. */
  lemma DelUndoesAdd(s: seq<Node>, i: nat, n: Node)
    requires i < |s| && n !in s
    ensures var j := if i == 0 then |s| else i;
            Inserted(s, i, n)[j] == n && Inserted(s, i, n)[..j] + Inserted(s, i, n)[j + 1..] == s
  {
    var j := if i == 0 then |s| else i;
    assert s == s[..i] + s[i..];
  }
}
