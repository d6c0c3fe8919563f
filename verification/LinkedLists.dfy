/** All lists of the kernel on the tlist nodes of the threads: one node per thread and one head per list. */
module LinkedLists {
  import opened Seqs
  import opened Kernel
  import opened KernelSteps
  import opened Klist

  /** The nodes of a list: its head, then those of its threads. */
  ghost function Spell(head: Node, node: map<Tid, Node>, s: seq<Tid>): (nodes: seq<Node>)
    requires forall t :: t in s ==> t in node
    ensures |nodes| == |s| + 1 && nodes[0] == head
    ensures forall i :: 0 <= i < |s| ==> nodes[i + 1] == node[s[i]]
  {
    [head] + seq(|s|, i requires 0 <= i < |s| => node[s[i]])
  }

  lemma SpellMembers(head: Node, node: map<Tid, Node>, s: seq<Tid>)
    requires forall t :: t in s ==> t in node
    ensures forall x :: x in Spell(head, node, s) <==> x == head || exists t :: t in s && x == node[t]
  {
    var nodes := Spell(head, node, s);
    forall x | x in nodes ensures x == head || exists t :: t in s && x == node[t] {
      var i :| 0 <= i < |nodes| && nodes[i] == x;
      if i > 0 { assert s[i - 1] in s && x == node[s[i - 1]]; }
    }
    forall t | t in s ensures node[t] in nodes {
      var i :| 0 <= i < |s| && s[i] == t;
      assert nodes[i + 1] == node[t];
    }
    assert nodes[0] == head;
  }

  lemma InsertAt<T>(s: seq<T>, n: nat, x: T, i: nat)
    requires n <= |s| && i <= |s|
    ensures (s[..n] + [x] + s[n..])[i] == if i < n then s[i] else if i == n then x else s[i - 1]
  {
  }

  lemma SpellInsert(head: Node, node: map<Tid, Node>, s: seq<Tid>, n: nat, t: Tid)
    requires (forall x :: x in s ==> x in node) && t in node && n <= |s|
    ensures forall x :: x in s[..n] + [t] + s[n..] ==> x in node
    ensures var nodes := Spell(head, node, s);
            Spell(head, node, s[..n] + [t] + s[n..]) == nodes[..n + 1] + [node[t]] + nodes[n + 1..]
  {
    var r, nodes := s[..n] + [t] + s[n..], Spell(head, node, s);
    assert forall x :: x in r ==> x in s || x == t;
    forall i | 0 <= i < |r| + 1
      ensures Spell(head, node, r)[i] == (nodes[..n + 1] + [node[t]] + nodes[n + 1..])[i]
    {
      InsertAt(nodes, n + 1, node[t], i);
      if i > 0 {
        InsertAt(s, n, t, i - 1);
        assert Spell(head, node, r)[i] == node[r[i - 1]];
        if i > n + 1 { assert nodes[i - 1] == node[s[i - 2]]; }
      }
    }
  }

  lemma SpellRemove(head: Node, node: map<Tid, Node>, s: seq<Tid>, n: nat)
    requires (forall x :: x in s ==> x in node) && n < |s|
    ensures forall x :: x in s[..n] + s[n + 1..] ==> x in node
    ensures var nodes := Spell(head, node, s);
            Spell(head, node, s[..n] + s[n + 1..]) == nodes[..n + 1] + nodes[n + 2..]
  {
    var r, nodes := s[..n] + s[n + 1..], Spell(head, node, s);
    forall i | 0 <= i < |r| ensures r[i] == if i < n then s[i] else s[i + 1] { }
    forall i | 0 <= i < |r| + 1 ensures Spell(head, node, r)[i] == (nodes[..n + 1] + nodes[n + 2..])[i] {
      if i > 0 { assert Spell(head, node, r)[i] == node[r[i - 1]]; }
    }
  }

  /** Nodes of different threads and lists are different objects, and know their thread. */
  ghost predicate Distinct(node: map<Tid, Node>, head: map<Ring, Node>)
  {
    && (forall t, u :: t in node && u in node && node[t] == node[u] ==> t == u)
    && (forall r, q :: r in head && q in head && head[r] == head[q] ==> r == q)
    && (forall t, r :: t in node && r in head ==> node[t] != head[r])
    && (forall t :: t in node ==> node[t].owner == t)
  }

  /** No thread is on two lists or twice on one, and all have nodes. */
  ghost predicate Apart(node: map<Tid, Node>, rings: map<Ring, seq<Tid>>)
  {
    && (forall r, t :: r in rings && t in rings[r] ==> t in node)
    && (forall r :: r in rings ==> NoDup(rings[r]))
    && (forall r, q, t :: r in rings && q in rings && t in rings[r] && t in rings[q] ==> r == q)
  }

  ghost predicate Alone(rings: map<Ring, seq<Tid>>, t: Tid)
  {
    forall r :: r in rings ==> t !in rings[r]
  }

  /** The nodes of one list are not those of another, nor those of threads elsewhere. */
  lemma ListsApart(node: map<Tid, Node>, head: map<Ring, Node>, rings: map<Ring, seq<Tid>>, r: Ring, q: Ring)
    requires Distinct(node, head) && Apart(node, rings) && head.Keys == rings.Keys && r in rings && q in rings && r != q
    ensures forall x :: x in Spell(head[q], node, rings[q]) ==> x !in Spell(head[r], node, rings[r])
  {
    SpellMembers(head[r], node, rings[r]);
    SpellMembers(head[q], node, rings[q]);
  }

  lemma OthersApart(node: map<Tid, Node>, head: map<Ring, Node>, rings: map<Ring, seq<Tid>>, r: Ring, t: Tid)
    requires Distinct(node, head) && Apart(node, rings) && head.Keys == rings.Keys && r in rings
    requires t in node && t !in rings[r]
    ensures node[t] !in Spell(head[r], node, rings[r])
  {
    SpellMembers(head[r], node, rings[r]);
  }

  /** In a ring the node before the head is one of the ring. */
  lemma PrevInside(s: seq<Node>, i: nat)
    requires Klist.Ring(s) && i < |s|
    ensures s[i].prev in s && s[i].next in s
  {
    var p := if i == 0 then |s| - 1 else i - 1;
    assert Linked(s[p], s[Succ(|s|, p)]);
    assert Linked(s[i], s[Succ(|s|, i)]);
  }

  ghost function Nodes(node: map<Tid, Node>, head: map<Ring, Node>): (n: set<Node>)
  {
    (set t | t in node :: node[t]) + set r | r in head :: head[r]
  }

  lemma SpellInside(node: map<Tid, Node>, head: map<Ring, Node>, r: Ring, s: seq<Tid>)
    requires r in head && forall t :: t in s ==> t in node
    ensures forall x :: x in Spell(head[r], node, s) ==> x in Nodes(node, head)
  {
    SpellMembers(head[r], node, s);
  }

  // ---- the link words of all nodes, as one value ----

  datatype Links = Links(next: Node, prev: Node)

  ghost function Snap(ns: set<Node>): (m: map<Node, Links>)
    reads ns
  {
    map x | x in ns :: Links(x.next, x.prev)
  }

  ghost predicate LinkedIn(m: map<Node, Links>, a: Node, b: Node)
  {
    a in m && b in m && m[a].next == b && m[b].prev == a
  }

  ghost predicate RingIn(m: map<Node, Links>, s: seq<Node>)
  {
    s != [] && NoDup(s) && forall i :: 0 <= i < |s| ==> LinkedIn(m, s[i], s[Succ(|s|, i)])
  }

  lemma RingSnap(ns: set<Node>, s: seq<Node>)
    requires forall x :: x in s ==> x in ns
    ensures Klist.Ring(s) <==> RingIn(Snap(ns), s)
  {
    var m := Snap(ns);
    forall i | 0 <= i < |s| ensures Linked(s[i], s[Succ(|s|, i)]) <==> LinkedIn(m, s[i], s[Succ(|s|, i)]) {
      assert s[i] in s && s[Succ(|s|, i)] in s;
    }
  }

  /** Nodes of ns outside the ring keep their links. */
  ghost predicate Outside(m: map<Node, Links>, m': map<Node, Links>, ns: set<Node>, nodes: seq<Node>, n: Node)
  {
    forall x :: x in ns && x !in nodes && x != n ==> x in m && x in m' && m'[x] == m[x]
  }

  /** sk_list_add_tail touches only nodes of the ring and the new one. */
  method Append(pos: Node, n: Node, ghost nodes: seq<Node>, ghost ns: set<Node>)
    requires Klist.Ring(nodes) && nodes[0] == pos && n !in nodes
    modifies n, nodes
    ensures Klist.Ring(Inserted(nodes, 0, n))
    ensures Outside(old(Snap(ns)), Snap(ns), ns, nodes, n)
  {
    PrevInside(nodes, 0);
    AddTail(pos, n, nodes, 0);
  }

  /** sk_list_del touches only nodes of the ring. */
  method Remove(entry: Node, ghost nodes: seq<Node>, ghost i: nat, ghost ns: set<Node>)
    requires Klist.Ring(nodes) && i < |nodes| && nodes[i] == entry
    modifies nodes
    ensures Klist.Ring([entry]) && (|nodes| > 1 ==> Klist.Ring(nodes[..i] + nodes[i + 1..]))
    ensures Outside(old(Snap(ns)), Snap(ns), ns, nodes, entry)
    ensures |nodes| == 1 ==> Snap(ns) == old(Snap(ns))
  {
    PrevInside(nodes, i);
    if |nodes| == 1 { assert nodes == [entry]; }
    Del(entry, nodes, i);
  }

  /** The priority search touches only nodes of the ring and the new one. */
  method InsertSorted(list: Node, n: Node, ghost nodes: seq<Node>, ghost ns: set<Node>) returns (ghost i: nat)
    requires Klist.Ring(nodes) && nodes[0] == list && n !in nodes
    modifies n, nodes
    ensures 1 <= i <= |nodes| && Klist.Ring(nodes[..i] + [n] + nodes[i..])
    ensures forall k :: 1 <= k < i ==> nodes[k].pri <= n.pri
    ensures i < |nodes| ==> n.pri < nodes[i].pri
    ensures Outside(old(Snap(ns)), Snap(ns), ns, nodes, n)
  {
    i := InsertByPriority(list, n, nodes);
  }

  /** Rings none of whose nodes changed stay rings. */
  lemma RingKept(m: map<Node, Links>, m': map<Node, Links>, s: seq<Node>)
    requires RingIn(m, s) && forall x :: x in s ==> x in m && x in m' && m'[x] == m[x]
    ensures RingIn(m', s)
  {
    forall i | 0 <= i < |s| ensures LinkedIn(m', s[i], s[Succ(|s|, i)]) {
      assert s[i] in s && s[Succ(|s|, i)] in s;
      assert LinkedIn(m, s[i], s[Succ(|s|, i)]);
    }
  }

  /** Every head's ring spells its list, and the node of a thread on no list is alone. */
  ghost predicate AllSpelled(m: map<Node, Links>, node: map<Tid, Node>, head: map<Ring, Node>,
                             rings: map<Ring, seq<Tid>>)
    requires Apart(node, rings) && head.Keys == rings.Keys
  {
    && (forall r :: r in rings ==> RingIn(m, Spell(head[r], node, rings[r])))
    && (forall t :: t in node && Alone(rings, t) ==> RingIn(m, [node[t]]))
  }

  /** The nodes an operation on list r and thread t may touch. */
  ghost function Near(node: map<Tid, Node>, head: map<Ring, Node>, r: Ring, s: seq<Tid>, t: Tid): (n: set<Node>)
    requires r in head && t in node && forall x :: x in s ==> x in node
  {
    (set x | x in Spell(head[r], node, s)) + {node[t]}
  }

  /** The other nodes keep their links. */
  ghost predicate Same(m: map<Node, Links>, m': map<Node, Links>, node: map<Tid, Node>, head: map<Ring, Node>,
                       near: set<Node>)
  {
    forall x :: x in Nodes(node, head) && x !in near ==> x in m && x in m' && m'[x] == m[x]
  }

  lemma OutsideSame(m: map<Node, Links>, m': map<Node, Links>, node: map<Tid, Node>, head: map<Ring, Node>,
                    r: Ring, s: seq<Tid>, t: Tid)
    requires r in head && t in node && (forall x :: x in s ==> x in node)
    requires Outside(m, m', Nodes(node, head), Spell(head[r], node, s), node[t])
    ensures Same(m, m', node, head, Near(node, head, r, s, t))
  {
  }

  lemma ListKept(m: map<Node, Links>, m': map<Node, Links>, node: map<Tid, Node>, head: map<Ring, Node>,
                 rings: map<Ring, seq<Tid>>, r: Ring, t: Tid, q: Ring)
    requires Distinct(node, head) && Apart(node, rings) && head.Keys == rings.Keys
    requires r in rings && q in rings && r != q && t in node && t !in rings[q]
    requires RingIn(m, Spell(head[q], node, rings[q])) && Same(m, m', node, head, Near(node, head, r, rings[r], t))
    ensures RingIn(m', Spell(head[q], node, rings[q]))
  {
    ListsApart(node, head, rings, r, q);
    OthersApart(node, head, rings, q, t);
    SpellInside(node, head, q, rings[q]);
    RingKept(m, m', Spell(head[q], node, rings[q]));
  }

  lemma NodeKept(m: map<Node, Links>, m': map<Node, Links>, node: map<Tid, Node>, head: map<Ring, Node>,
                 rings: map<Ring, seq<Tid>>, r: Ring, t: Tid, u: Tid)
    requires Distinct(node, head) && Apart(node, rings) && head.Keys == rings.Keys
    requires r in rings && t in node && u in node && u != t && u !in rings[r] && RingIn(m, [node[u]])
    requires Same(m, m', node, head, Near(node, head, r, rings[r], t))
    ensures RingIn(m', [node[u]])
  {
    OthersApart(node, head, rings, r, u);
    assert node[u] in Nodes(node, head);
    RingKept(m, m', [node[u]]);
  }

  /** rings' differs from rings only in list r, and there only in thread t. */
  ghost predicate Moved(rings: map<Ring, seq<Tid>>, rings': map<Ring, seq<Tid>>, r: Ring, t: Tid)
  {
    && r in rings && rings'.Keys == rings.Keys
    && (forall q :: q in rings && q != r ==> rings'[q] == rings[q] && t !in rings[q])
    && (forall x :: x != t ==> (x in rings'[r] <==> x in rings[r]))
  }

  lemma AloneBefore(rings: map<Ring, seq<Tid>>, rings': map<Ring, seq<Tid>>, r: Ring, t: Tid, u: Tid)
    requires Moved(rings, rings', r, t) && u != t && Alone(rings', u)
    ensures Alone(rings, u)
  {
    forall q | q in rings ensures u !in rings[q] { assert u !in rings'[q]; }
  }

  /** Only list r and thread t moved: with the new ring of r and, if t is now on no list, its own node in order, all
      is. */
  lemma AllKept(m: map<Node, Links>, m': map<Node, Links>, node: map<Tid, Node>, head: map<Ring, Node>,
                rings: map<Ring, seq<Tid>>, rings': map<Ring, seq<Tid>>, r: Ring, t: Tid)
    requires Distinct(node, head) && Apart(node, rings) && head.Keys == rings.Keys && AllSpelled(m, node, head, rings)
    requires Apart(node, rings') && Moved(rings, rings', r, t) && t in node
    requires Same(m, m', node, head, Near(node, head, r, rings[r], t))
    requires RingIn(m', Spell(head[r], node, rings'[r])) && (t !in rings'[r] ==> RingIn(m', [node[t]]))
    ensures AllSpelled(m', node, head, rings')
  {
    forall q | q in rings' ensures RingIn(m', Spell(head[q], node, rings'[q])) {
      if q != r { ListKept(m, m', node, head, rings, r, t, q); }
    }
    forall u | u in node && Alone(rings', u) ensures RingIn(m', [node[u]]) {
      assert u !in rings'[r];
      if u != t {
        AloneBefore(rings, rings', r, t, u);
        NodeKept(m, m', node, head, rings, r, t, u);
      }
    }
  }

  lemma LinkApart(node: map<Tid, Node>, rings: map<Ring, seq<Tid>>, r: Ring, n: nat, t: Tid)
    requires Apart(node, rings) && r in rings && t in node && Alone(rings, t) && n <= |rings[r]|
    ensures var s := rings[r][..n] + [t] + rings[r][n..];
            Apart(node, rings[r := s]) && t in s && forall x :: x in s <==> x in rings[r] || x == t
  {
    InsertedMembers(rings[r], n, t);
  }

  lemma UnlinkApart(node: map<Tid, Node>, rings: map<Ring, seq<Tid>>, r: Ring, t: Tid)
    requires Apart(node, rings) && r in rings
    ensures Apart(node, rings[r := Without(rings[r], t)])
    ensures forall x :: x in Without(rings[r], t) <==> x in rings[r] && x != t
  {
    WithoutMembers(rings[r], t);
  }

  lemma TailSplit<T>(s: seq<T>, x: T)
    ensures s[..|s|] + [x] + s[|s|..] == s + [x]
  {
  }

  lemma SortedPlace(node: map<Tid, Node>, nodes: seq<Node>, s: seq<Tid>, t: Tid, n: nat)
    requires (forall x :: x in s ==> x in node) && t in node && |nodes| == |s| + 1 && n <= |s|
    requires forall i :: 0 <= i < |s| ==> nodes[i + 1] == node[s[i]]
    requires forall k :: 1 <= k < n + 1 ==> nodes[k].pri <= node[t].pri
    requires n < |s| ==> node[t].pri < nodes[n + 1].pri
    ensures (forall i :: 0 <= i < n ==> node[s[i]].pri <= node[t].pri) && (n < |s| ==> node[t].pri < node[s[n]].pri)
  {
    forall i | 0 <= i < n ensures node[s[i]].pri <= node[t].pri { assert nodes[i + 1] == node[s[i]]; }
  }

  lemma SpellGrows(head: Node, node: map<Tid, Node>, node': map<Tid, Node>, s: seq<Tid>)
    requires forall t :: t in s ==> t in node && t in node' && node'[t] == node[t]
    ensures Spell(head, node', s) == Spell(head, node, s)
  {
    var a, b := Spell(head, node, s), Spell(head, node', s);
    forall i | 0 <= i < |a| ensures b[i] == a[i] { if i > 0 { assert s[i - 1] in s; } }
  }

  /** A ring whose nodes were all there before is untouched by a new node. */
  lemma RingGrows(m: map<Node, Links>, m': map<Node, Links>, s: seq<Node>)
    requires RingIn(m, s) && forall x :: x in m ==> x in m' && m'[x] == m[x]
    ensures RingIn(m', s)
  {
    forall x | x in s ensures x in m {
      var i :| 0 <= i < |s| && s[i] == x;
      assert LinkedIn(m, s[i], s[Succ(|s|, i)]);
    }
    RingKept(m, m', s);
  }

  lemma HeadGrows(node: map<Tid, Node>, head: map<Ring, Node>, r: Ring, n: Node)
    requires r !in head
    ensures Nodes(node, head[r := n]) == Nodes(node, head) + {n}
  {
    var head' := head[r := n];
    assert head'[r] == n && r in head';
    forall x | x in Nodes(node, head) ensures x in Nodes(node, head') {
      if q :| q in head && head[q] == x { assert q in head' && head'[q] == x; }
    }
  }

  lemma NodeGrows(node: map<Tid, Node>, head: map<Ring, Node>, t: Tid, n: Node)
    requires t !in node
    ensures Nodes(node[t := n], head) == Nodes(node, head) + {n}
  {
    var node' := node[t := n];
    assert node'[t] == n && t in node';
    forall x | x in Nodes(node, head) ensures x in Nodes(node', head) {
      if u :| u in node && node[u] == x { assert u in node' && node'[u] == x; }
    }
  }

  lemma HeadDistinct(node: map<Tid, Node>, head: map<Ring, Node>, r: Ring, n: Node)
    requires Distinct(node, head) && r !in head && n !in Nodes(node, head)
    ensures Distinct(node, head[r := n])
  {
    forall t | t in node ensures node[t] in Nodes(node, head) { }
    forall q | q in head ensures head[q] in Nodes(node, head) { }
  }

  lemma HeadAdded(m: map<Node, Links>, m': map<Node, Links>, node: map<Tid, Node>, head: map<Ring, Node>,
                  rings: map<Ring, seq<Tid>>, r: Ring, n: Node)
    requires Distinct(node, head) && Apart(node, rings) && head.Keys == rings.Keys && AllSpelled(m, node, head, rings)
    requires r !in head && n !in Nodes(node, head) && RingIn(m', [n]) && forall x :: x in m ==> x in m' && m'[x] == m[x]
    ensures var head', rings' := head[r := n], rings[r := []];
            && Distinct(node, head') && Apart(node, rings') && head'.Keys == rings'.Keys
            && AllSpelled(m', node, head', rings')
  {
    var head', rings' := head[r := n], rings[r := []];
    HeadDistinct(node, head, r, n);
    forall q | q in rings' ensures RingIn(m', Spell(head'[q], node, rings'[q])) {
      if q != r { RingGrows(m, m', Spell(head[q], node, rings[q])); } else { assert Spell(n, node, []) == [n]; }
    }
    forall t | t in node && Alone(rings', t) ensures RingIn(m', [node[t]]) {
      assert Alone(rings, t) by { forall q | q in rings ensures t !in rings[q] { assert rings'[q] == rings[q]; } }
      RingGrows(m, m', [node[t]]);
    }
  }

  lemma NodeAdded(m: map<Node, Links>, m': map<Node, Links>, node: map<Tid, Node>, head: map<Ring, Node>,
                  rings: map<Ring, seq<Tid>>, t: Tid, n: Node)
    requires Distinct(node, head) && Apart(node, rings) && head.Keys == rings.Keys && AllSpelled(m, node, head, rings)
    requires t !in node && n !in Nodes(node, head) && n.owner == t && RingIn(m', [n])
    requires forall x :: x in m ==> x in m' && m'[x] == m[x]
    ensures var node' := node[t := n];
            Distinct(node', head) && Apart(node', rings) && AllSpelled(m', node', head, rings)
  {
    var node' := node[t := n];
    forall u | u in node ensures node[u] in Nodes(node, head) { }
    forall q | q in head ensures head[q] in Nodes(node, head) { }
    forall q | q in rings ensures RingIn(m', Spell(head[q], node', rings[q])) {
      SpellGrows(head[q], node, node', rings[q]);
      RingGrows(m, m', Spell(head[q], node, rings[q]));
    }
    forall u | u in node' && Alone(rings, u) ensures RingIn(m', [node'[u]]) {
      if u != t { RingGrows(m, m', [node[u]]); }
    }
  }

  class ListTable {
    var node: map<Tid, Node>             // thread->tlist
    var head: map<Ring, Node>            // sk_thread_prio_table and the suspend_thread lists

    ghost var rings: map<Ring, seq<Tid>> // what the rings spell

    ghost function All(): set<Node>
      reads this
    {
      Nodes(node, head)
    }

    ghost predicate Valid()
      reads this, All()
    {
      && Distinct(node, head) && Apart(node, rings) && head.Keys == rings.Keys
      && AllSpelled(Snap(All()), node, head, rings)
    }

    /** No list and no thread yet. */
    constructor ()
      ensures Valid() && node == map[] && head == map[] && rings == map[]
    {
      node, head, rings := map[], map[], map[];
    }

    ghost method Commit(rings': map<Ring, seq<Tid>>, m: map<Node, Links>)
      requires Distinct(node, head) && Apart(node, rings') && head.Keys == rings'.Keys
      requires m == Snap(All()) && AllSpelled(m, node, head, rings')
      modifies this`rings
      ensures Valid() && rings == rings'
    {
      ghost var ns := All();
      rings := rings';
      assert All() == ns && Snap(ns) == m;
    }

    /** sk_list_init of a new list head. */
    method NewHead(r: Ring)
      requires Valid() && r !in head
      modifies this
      ensures Valid() && node == old(node) && rings == old(rings)[r := []] && head.Keys == old(head.Keys) + {r}
      ensures fresh(All() - old(All()))
    {
      ghost var m, ns := Snap(All()), All();
      var n := new Node(0, 0);
      assert n !in ns;
      ghost var rings' := rings[r := []];
      HeadGrows(node, head, r, n);
      head := head[r := n];
      RingSnap(All(), [n]);
      HeadAdded(m, Snap(All()), node, old(head), rings, r, n);
      Commit(rings', Snap(All()));
    }

    /** sk_list_init of the node of a new thread. */
    method NewNode(t: Tid, pri: nat)
      requires Valid() && t !in node
      modifies this
      ensures Valid() && head == old(head) && rings == old(rings) && node.Keys == old(node.Keys) + {t}
      ensures node[t].pri == pri && (forall u :: u in old(node) ==> node[u] == old(node)[u])
      ensures fresh(node[t]) && All() == old(All()) + {node[t]}
    {
      ghost var m, ns := Snap(All()), All();
      var n := new Node(t, pri);
      assert n !in ns;
      NodeGrows(node, head, t, n);
      node := node[t := n];
      RingSnap(All(), [n]);
      NodeAdded(m, Snap(All()), old(node), head, rings, t, n);
      Commit(rings, Snap(All()));
    }

    /** The ring of list r, and that it lies among the nodes. */
    lemma ListRing(r: Ring)
      requires Valid() && r in rings
      ensures forall x :: x in Spell(head[r], node, rings[r]) ==> x in All()
      ensures Klist.Ring(Spell(head[r], node, rings[r]))
    {
      SpellInside(node, head, r, rings[r]);
      RingSnap(All(), Spell(head[r], node, rings[r]));
    }

    /** The lists after thread t was linked at position n of list r. */
    lemma LinkedAt(r: Ring, n: nat, t: Tid)
      requires Distinct(node, head) && Apart(node, rings) && head.Keys == rings.Keys
      requires r in rings && t in node && Alone(rings, t) && n <= |rings[r]|
      requires var nodes := Spell(head[r], node, rings[r]); Klist.Ring(nodes[..n + 1] + [node[t]] + nodes[n + 1..])
      ensures var s := rings[r][..n] + [t] + rings[r][n..];
              Apart(node, rings[r := s]) && Moved(rings, rings[r := s], r, t) && t in s
              && RingIn(Snap(All()), Spell(head[r], node, s))
    {
      var s := rings[r][..n] + [t] + rings[r][n..];
      LinkApart(node, rings, r, n, t);
      SpellInsert(head[r], node, rings[r], n, t);
      SpellInside(node, head, r, s);
      RingSnap(All(), Spell(head[r], node, s));
    }

    /** All lists after thread t was linked at position n of list r. */
    lemma AfterLink(m: map<Node, Links>, r: Ring, n: nat, t: Tid)
      requires Distinct(node, head) && Apart(node, rings) && head.Keys == rings.Keys && AllSpelled(m, node, head, rings)
      requires r in rings && t in node && Alone(rings, t) && n <= |rings[r]|
      requires Outside(m, Snap(All()), All(), Spell(head[r], node, rings[r]), node[t])
      requires var nodes := Spell(head[r], node, rings[r]); Klist.Ring(nodes[..n + 1] + [node[t]] + nodes[n + 1..])
      ensures var rings' := rings[r := rings[r][..n] + [t] + rings[r][n..]];
              Apart(node, rings') && AllSpelled(Snap(All()), node, head, rings')
    {
      LinkedAt(r, n, t);
      OutsideSame(m, Snap(All()), node, head, r, rings[r], t);
      AllKept(m, Snap(All()), node, head, rings, rings[r := rings[r][..n] + [t] + rings[r][n..]], r, t);
    }

    lemma AfterTail(m: map<Node, Links>, r: Ring, t: Tid)
      requires Distinct(node, head) && Apart(node, rings) && head.Keys == rings.Keys && AllSpelled(m, node, head, rings)
      requires r in rings && t in node && Alone(rings, t)
      requires Outside(m, Snap(All()), All(), Spell(head[r], node, rings[r]), node[t])
      requires Klist.Ring(Inserted(Spell(head[r], node, rings[r]), 0, node[t]))
      ensures var rings' := rings[r := rings[r] + [t]];
              Apart(node, rings') && AllSpelled(Snap(All()), node, head, rings')
    {
      TailSplit(rings[r], t);
      TailSplit(Spell(head[r], node, rings[r]), node[t]);
      AfterLink(m, r, |rings[r]|, t);
    }

    /** The ring of list r is in order and does not hold the node of t. */
    ghost predicate Linkable(r: Ring, t: Tid)
      reads this, All()
    {
      && r in rings && r in head && t in node && (forall x :: x in rings[r] ==> x in node)
      && (forall x :: x in Spell(head[r], node, rings[r]) ==> x in All()) && node[t] in All()
      && node[t] !in Spell(head[r], node, rings[r]) && Klist.Ring(Spell(head[r], node, rings[r]))
    }

    lemma Prepare(r: Ring, t: Tid)
      requires Valid() && r in rings && t in node && Alone(rings, t)
      ensures Linkable(r, t)
    {
      OthersApart(node, head, rings, r, t);
      ListRing(r);
    }

    method AppendNode(r: Ring, t: Tid)
      requires Linkable(r, t)
      modifies All()
      ensures Klist.Ring(Inserted(Spell(head[r], node, rings[r]), 0, node[t]))
      ensures Outside(old(Snap(All())), Snap(All()), All(), Spell(head[r], node, rings[r]), node[t])
    {
      Append(head[r], node[t], Spell(head[r], node, rings[r]), All());
    }

    /** sk_list_add_tail of a thread that is on no list. */
    method LinkTail(r: Ring, t: Tid)
      requires Valid() && r in rings && t in node && Alone(rings, t)
      modifies this`rings, All()
      ensures Valid() && rings == old(rings)[r := old(rings)[r] + [t]]
    {
      ghost var m := Snap(All());
      Prepare(r, t);
      AppendNode(r, t);
      AfterTail(m, r, t);
      Commit(rings[r := rings[r] + [t]], Snap(All()));
    }

    method InsertNode(r: Ring, t: Tid) returns (ghost n: nat)
      requires Linkable(r, t)
      modifies All()
      ensures var nodes := Spell(head[r], node, rings[r]);
              && n <= |rings[r]| && Klist.Ring(nodes[..n + 1] + [node[t]] + nodes[n + 1..])
              && (forall k :: 1 <= k < n + 1 ==> nodes[k].pri <= node[t].pri)
              && (n < |rings[r]| ==> node[t].pri < nodes[n + 1].pri)
              && Outside(old(Snap(All())), Snap(All()), All(), nodes, node[t])
    {
      ghost var i := InsertSorted(head[r], node[t], Spell(head[r], node, rings[r]), All());
      n := i - 1;
    }

    /** The prio branch of __ipc_list_suspend. */
    method LinkByPriority(r: Ring, t: Tid) returns (ghost n: nat)
      requires Valid() && r in rings && t in node && Alone(rings, t)
      modifies this`rings, All()
      ensures Valid() && n <= |old(rings)[r]| && rings == old(rings)[r := old(rings)[r][..n] + [t] + old(rings)[r][n..]]
      ensures forall i :: 0 <= i < n ==> node[old(rings)[r][i]].pri <= node[t].pri
      ensures n < |old(rings)[r]| ==> node[t].pri < node[old(rings)[r][n]].pri
    {
      ghost var m := Snap(All());
      Prepare(r, t);
      n := InsertNode(r, t);
      SortedPlace(node, Spell(head[r], node, rings[r]), rings[r], t, n);
      AfterLink(m, r, n, t);
      Commit(rings[r := rings[r][..n] + [t] + rings[r][n..]], Snap(All()));
    }

    /** The lists after thread t left list r. */
    lemma UnlinkedFrom(r: Ring, n: nat, t: Tid)
      requires Distinct(node, head) && Apart(node, rings) && head.Keys == rings.Keys
      requires r in rings && n < |rings[r]| && rings[r][n] == t
      requires var nodes := Spell(head[r], node, rings[r]); Klist.Ring(nodes[..n + 1] + nodes[n + 2..])
      ensures var s := Without(rings[r], t);
              Apart(node, rings[r := s]) && Moved(rings, rings[r := s], r, t) && t !in s
              && RingIn(Snap(All()), Spell(head[r], node, s))
    {
      var s := Without(rings[r], t);
      UnlinkApart(node, rings, r, t);
      assert t in rings[r];
      WithoutAt(rings[r], t, n);
      SpellRemove(head[r], node, rings[r], n);
      SpellInside(node, head, r, s);
      RingSnap(All(), Spell(head[r], node, s));
    }

    ghost function WithoutThread(t: Tid): (m: map<Ring, seq<Tid>>)
      reads this
    {
      map r | r in rings :: Without(rings[r], t)
    }

    lemma OnlyFrom(r: Ring, t: Tid)
      requires Apart(node, rings) && r in rings && t in rings[r]
      ensures WithoutThread(t) == rings[r := Without(rings[r], t)]
    {
      forall q | q in rings && q != r ensures Without(rings[q], t) == rings[q] { WithoutAbsent(rings[q], t); }
    }

    lemma NoneFrom(t: Tid)
      requires Alone(rings, t)
      ensures WithoutThread(t) == rings
    {
      forall q | q in rings ensures Without(rings[q], t) == rings[q] { WithoutAbsent(rings[q], t); }
    }

    /** The ring the node of t is in: its own, or place n of list r. */
    lemma Where(t: Tid) returns (r: Ring, n: nat, nodes: seq<Node>)
      requires Valid() && t in node
      ensures Klist.Ring(nodes) && forall x :: x in nodes ==> x in All()
      ensures Alone(rings, t) ==> nodes == [node[t]] && n == 0
      ensures !Alone(rings, t) ==>
                && r in rings && 0 < n <= |rings[r]| && rings[r][n - 1] == t && t in rings[r]
                && nodes == Spell(head[r], node, rings[r])
      ensures n < |nodes| && nodes[n] == node[t]
    {
      if Alone(rings, t) {
        r, n, nodes := ReadyRing(0), 0, [node[t]];
        RingSnap(All(), nodes);
      } else {
        r :| r in rings && t in rings[r];
        var i :| 0 <= i < |rings[r]| && rings[r][i] == t;
        n, nodes := i + 1, Spell(head[r], node, rings[r]);
        ListRing(r);
      }
    }

    /** The lists after the node of t left place n of list r. */
    lemma AfterUnlink(m: map<Node, Links>, t: Tid, r: Ring, n: nat)
      requires Distinct(node, head) && Apart(node, rings) && head.Keys == rings.Keys && AllSpelled(m, node, head, rings)
      requires t in node && r in rings && n < |rings[r]| && rings[r][n] == t && t in rings[r] && Klist.Ring([node[t]])
      requires Outside(m, Snap(All()), All(), Spell(head[r], node, rings[r]), node[t])
      requires var nodes := Spell(head[r], node, rings[r]); Klist.Ring(nodes[..n + 1] + nodes[n + 2..])
      ensures Apart(node, WithoutThread(t)) && AllSpelled(Snap(All()), node, head, WithoutThread(t))
    {
      var rings' := rings[r := Without(rings[r], t)];
      UnlinkedFrom(r, n, t);
      OnlyFrom(r, t);
      OutsideSame(m, Snap(All()), node, head, r, rings[r], t);
      assert node[t] in All();
      RingSnap(All(), [node[t]]);
      AllKept(m, Snap(All()), node, head, rings, rings', r, t);
    }

    /** Where the node of t is, without the rest of the table. */
    ghost predicate At(t: Tid, r: Ring, n: nat, nodes: seq<Node>)
      reads this
    {
      && t in node && n < |nodes| && nodes[n] == node[t]
      && if Alone(rings, t) then nodes == [node[t]] && n == 0
         else && r in rings && r in head && (forall x :: x in rings[r] ==> x in node)
              && 0 < n <= |rings[r]| && rings[r][n - 1] == t && nodes == Spell(head[r], node, rings[r])
    }

    lemma AfterListed(m: map<Node, Links>, t: Tid, r: Ring, n: nat)
      requires Distinct(node, head) && Apart(node, rings) && head.Keys == rings.Keys && AllSpelled(m, node, head, rings)
      requires t in node && r in rings && 0 < n <= |rings[r]| && rings[r][n - 1] == t && Klist.Ring([node[t]])
      requires Outside(m, Snap(All()), All(), Spell(head[r], node, rings[r]), node[t])
      requires var nodes := Spell(head[r], node, rings[r]); Klist.Ring(nodes[..n] + nodes[n + 1..])
      ensures Apart(node, WithoutThread(t)) && AllSpelled(Snap(All()), node, head, WithoutThread(t))
    {
      var l := n - 1;
      assert n == l + 1 && n + 1 == l + 2;
      AfterUnlink(m, t, r, l);
    }

    /** All lists after the node of t left its ring. */
    lemma AfterRemove(m: map<Node, Links>, t: Tid, r: Ring, n: nat, nodes: seq<Node>)
      requires Distinct(node, head) && Apart(node, rings) && head.Keys == rings.Keys && AllSpelled(m, node, head, rings)
      requires At(t, r, n, nodes) && Klist.Ring([node[t]]) && (|nodes| > 1 ==> Klist.Ring(nodes[..n] + nodes[n + 1..]))
      requires Outside(m, Snap(All()), All(), nodes, node[t]) && (|nodes| == 1 ==> Snap(All()) == m)
      ensures Apart(node, WithoutThread(t)) && AllSpelled(Snap(All()), node, head, WithoutThread(t))
    {
      if Alone(rings, t) { NoneFrom(t); } else { AfterListed(m, t, r, n); }
    }

    method RemoveNode(t: Tid, ghost r: Ring, ghost n: nat, ghost nodes: seq<Node>)
      requires At(t, r, n, nodes) && Klist.Ring(nodes) && forall x :: x in nodes ==> x in All()
      modifies All()
      ensures At(t, r, n, nodes) && Klist.Ring([node[t]]) && (|nodes| > 1 ==> Klist.Ring(nodes[..n] + nodes[n + 1..]))
      ensures Outside(old(Snap(All())), Snap(All()), All(), nodes, node[t])
      ensures |nodes| == 1 ==> Snap(All()) == old(Snap(All()))
    {
      Remove(node[t], nodes, n, All());
    }

    /** sk_list_del: it does not know the list, and on a thread that is on none it changes nothing. */
    method Unlink(t: Tid)
      requires Valid() && t in node
      modifies this`rings, All()
      ensures Valid() && rings == old(WithoutThread(t))
    {
      ghost var m := Snap(All());
      ghost var r, n, nodes := Where(t);
      RemoveNode(t, r, n, nodes);
      AfterRemove(m, t, r, n, nodes);
      Commit(WithoutThread(t), Snap(All()));
    }

    /** sk_list_empty */
    method IsEmpty(r: Ring) returns (e: bool)
      requires Valid() && r in rings
      ensures e <==> rings[r] == []
    {
      ListRing(r);
      e := Empty(head[r], Spell(head[r], node, rings[r]));
    }

    /** sk_list_entry of the node behind the head. */
    method First(r: Ring) returns (t: Tid)
      requires Valid() && r in rings && rings[r] != []
      ensures t == rings[r][0]
    {
      ListRing(r);
      ghost var nodes := Spell(head[r], node, rings[r]);
      assert Linked(nodes[0], nodes[Succ(|nodes|, 0)]);
      assert nodes[1] == node[rings[r][0]] && rings[r][0] in rings[r];
      t := head[r].next.owner;
    }
  }
}
