/** The cells of a message queue (ipc/msg_queue.c): a free list and a FIFO list threaded through their first words. */
module MessageCells {
  import opened Options
  import opened Arith
  import opened Seqs

  type Cell = nat

  /** sizeof(struct sk_mq_message) */
  const LINK := 8

  const UINT16 := 0x1_0000

  /** struct sk_msg_queue with the link word and the payload of every cell. */
  datatype Queue = Queue(head: Option<Cell>, tail: Option<Cell>, free: Option<Cell>, next: map<Cell, Option<Cell>>,
                         mem: map<Cell, seq<bv8>>, entry: nat)

  // ---- the pool ----

  /** mq->msg_size and mq->max_msgs are 16 bits wide. */
  function MsgSize(size: nat): (m: nat)
    ensures m < UINT16
  {
    size % UINT16
  }

  function MaxMsgs(poolSize: nat, msgSize: nat): (n: nat)
    ensures n < UINT16
  {
    (poolSize / (msgSize + LINK)) % UINT16
  }

  function Address(msgSize: nat, c: Cell): (a: nat)
  {
    c * (msgSize + LINK)
  }

  lemma ModLe(x: nat, n: nat)
    requires n > 0
    ensures x % n <= x
  {
  }

  lemma SlotsApart(w: nat, n: nat, pool: nat, c: nat, d: nat)
    requires c < d < n && n * w <= pool
    ensures c * w + w <= d * w && d * w + w <= pool
  {
    MulStep(c, d, w);
    MulStep(d, n, w);
  }

  /** Every cell, link word and payload, lies inside the pool, and no two cells overlap. */
  lemma CellsApart(poolSize: nat, size: nat, c: Cell, d: Cell)
    requires c < d < MaxMsgs(poolSize, MsgSize(size))
    ensures var m := MsgSize(size);
            Address(m, c) + LINK + m <= Address(m, d) && Address(m, d) + LINK + m <= poolSize
  {
    var w := MsgSize(size) + LINK;
    ModLe(poolSize / w, UINT16);
    DivLe(poolSize, w);
    SlotsApart(w, poolSize / w, poolSize, c, d);
  }

  /** The division leaves less than one more slot. */
  lemma NoMoreFits(pool: nat, w: nat)
    requires w > 0
    ensures (pool / w + 1) * w > pool && (pool / w >= UINT16 <==> pool >= UINT16 * w)
  {
    DivLe(pool, w);
    if pool / w >= UINT16 { MulLe(UINT16, pool / w, w); } else { MulLe(pool / w + 1, UINT16, w); }
  }

  /** The pool has no room for one more cell, exactly as long as the 16-bit counter can hold the number of its cells. */
  lemma PoolUsedIff(poolSize: nat, size: nat)
    ensures var m := MsgSize(size);
            Address(m, MaxMsgs(poolSize, m)) + LINK + m > poolSize <==> poolSize < UINT16 * (LINK + m)
  {
    var w, n := MsgSize(size) + LINK, MaxMsgs(poolSize, MsgSize(size));
    NoMoreFits(poolSize, w);
    DivLe(poolSize, w);
    assert Address(MsgSize(size), n) + w == (n + 1) * w;
    if poolSize / w >= UINT16 { MulLe(n + 1, UINT16, w); }
  }

  // ---- linked cells ----

  /** The links from start on spell s and end. */
  ghost predicate Chain(next: map<Cell, Option<Cell>>, start: Option<Cell>, s: seq<Cell>)
    decreases |s|
  {
    if s == [] then start.None? else start == Some(s[0]) && s[0] in next && Chain(next, next[s[0]], s[1..])
  }

  lemma {:induction false} ChainFrame(next: map<Cell, Option<Cell>>, start: Option<Cell>, s: seq<Cell>, c: Cell,
                                      v: Option<Cell>)
    requires Chain(next, start, s) && c !in s
    ensures Chain(next[c := v], start, s)
    decreases |s|
  {
    if s != [] {
      assert s[0] in s;
      ChainFrame(next, next[s[0]], s[1..], c, v);
    }
  }

  lemma {:induction false} ChainAppend(next: map<Cell, Option<Cell>>, start: Option<Cell>, s: seq<Cell>, c: Cell)
    requires Chain(next, start, s) && s != [] && NoDup(s) && c !in s && c in next && next[c] == None
    ensures Chain(next[s[|s| - 1] := Some(c)], start, s + [c])
    decreases |s|
  {
    var next' := next[s[|s| - 1] := Some(c)];
    assert s[|s| - 1] in s;
    assert Chain(next', Some(c), [c]) by { assert next'[c] == None; assert [c][1..] == []; }
    if |s| == 1 {
      assert (s + [c])[1..] == [c];
    } else {
      ChainAppend(next, next[s[0]], s[1..], c);
      assert s[1..][|s| - 2] == s[|s| - 1];
      assert (s + [c])[1..] == s[1..] + [c];
      assert s[0] != s[|s| - 1];
    }
  }

  /** The same links spell only one list. */
  lemma {:induction false} ChainUnique(next: map<Cell, Option<Cell>>, start: Option<Cell>, s: seq<Cell>, t: seq<Cell>)
    requires Chain(next, start, s) && Chain(next, start, t)
    ensures s == t
    decreases |s|
  {
    if s != [] && t != [] {
      ChainUnique(next, next[s[0]], s[1..], t[1..]);
      assert s == [s[0]] + s[1..] && t == [t[0]] + t[1..];
    }
  }

  /** free and fifo are the two lists; the tail pointer and the counter agree with the second. */
  ghost predicate QueueOk(q: Queue, free: seq<Cell>, fifo: seq<Cell>)
  {
    && Chain(q.next, q.free, free) && Chain(q.next, q.head, fifo)
    && NoDup(free) && NoDup(fifo) && (forall c :: c in free ==> c !in fifo)
    && q.tail == (if fifo == [] then None else Some(fifo[|fifo| - 1]))
    && q.entry == |fifo|
  }

  // ---- the four sections ----

  /** First section of a send: the cell leaves the free list. */
  function TakeFree(q: Queue): (q': Queue)
    requires q.free.Some? && q.free.value in q.next
  {
    q.(free := q.next[q.free.value])
  }

  /** msg->next = NULL, with interrupts on. */
  function ClearLink(q: Queue, c: Cell): (q': Queue)
  {
    q.(next := q.next[c := None])
  }

  /** Second section of a send: the cell goes to the end of the FIFO. */
  function Link(q: Queue, c: Cell): (q': Queue)
  {
    q.(next := if q.tail.Some? then q.next[q.tail.value := Some(c)] else q.next,
       tail := Some(c), head := if q.head.None? then Some(c) else q.head, entry := (q.entry + 1) % UINT16)
  }

  /** First section of a receive: the first cell leaves the FIFO. */
  function TakeHead(q: Queue): (q': Queue)
    requires q.head.Some? && q.head.value in q.next
  {
    q.(head := q.next[q.head.value], tail := if q.tail == q.head then None else q.tail,
       entry := if q.entry > 0 then q.entry - 1 else q.entry)
  }

  /** Second section of a receive: the cell returns to the free list. */
  function PutFree(q: Queue, c: Cell): (q': Queue)
  {
    q.(next := q.next[c := q.free], free := Some(c))
  }

  lemma TakeFreeKeeps(q: Queue, free: seq<Cell>, fifo: seq<Cell>)
    requires QueueOk(q, free, fifo) && q.free.Some?
    ensures free != [] && free[0] in q.next && q.free == Some(free[0])
    ensures QueueOk(TakeFree(q), free[1..], fifo) && forall c :: c in free[1..] <==> c in free && c != free[0]
  {
    TailMembers(free);
  }

  lemma ClearLinkKeeps(q: Queue, free: seq<Cell>, fifo: seq<Cell>, c: Cell)
    requires QueueOk(q, free, fifo) && c !in free && c !in fifo
    ensures QueueOk(ClearLink(q, c), free, fifo)
  {
    ChainFrame(q.next, q.free, free, c, None);
    ChainFrame(q.next, q.head, fifo, c, None);
  }

  lemma LinkKeeps(q: Queue, free: seq<Cell>, fifo: seq<Cell>, c: Cell)
    requires QueueOk(q, free, fifo) && c !in free && c !in fifo && c in q.next && q.next[c] == None
    requires |fifo| + 1 < UINT16
    ensures QueueOk(Link(q, c), free, fifo + [c])
  {
    if fifo == [] {
      assert [c][1..] == [];
      assert Chain(q.next, Some(c), [c]);
      assert fifo + [c] == [c];
    } else {
      var last := fifo[|fifo| - 1];
      assert last in fifo;
      ChainAppend(q.next, q.head, fifo, c);
      ChainFrame(q.next, q.free, free, last, Some(c));
    }
  }

  lemma TakeHeadKeeps(q: Queue, free: seq<Cell>, fifo: seq<Cell>)
    requires QueueOk(q, free, fifo) && q.entry > 0
    ensures q.head == Some(fifo[0]) && fifo[0] in q.next
    ensures QueueOk(TakeHead(q), free, fifo[1..]) && forall c :: c in fifo[1..] <==> c in fifo && c != fifo[0]
  {
    TailMembers(fifo);
    if |fifo| > 1 { assert fifo[1..][|fifo| - 2] == fifo[|fifo| - 1]; }
  }

  lemma PutFreeKeeps(q: Queue, free: seq<Cell>, fifo: seq<Cell>, c: Cell)
    requires QueueOk(q, free, fifo) && c !in free && c !in fifo
    ensures QueueOk(PutFree(q, c), [c] + free, fifo)
  {
    ChainFrame(q.next, q.free, free, c, q.free);
    ChainFrame(q.next, q.head, fifo, c, q.free);
    assert ([c] + free)[1..] == free;
  }

  /** A cell that is not on the list leaves room for one more. */
  lemma Room(fifo: seq<Cell>, x: Cell, n: nat)
    requires NoDup(fifo) && x !in fifo && x < n && forall c :: c in fifo ==> c < n
    ensures |fifo| + 1 <= n
  {
    var all := seq(n, i => i);
    forall d | d in fifo + [x] ensures d in all { assert all[d] == d; }
    Pigeonhole(fifo + [x], all);
  }
}
