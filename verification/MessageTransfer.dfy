/** Senders and receivers working on the cells of a message queue, each copying with interrupts on between its two
    sections. */
module MessageTransfer {
  import opened Options
  import opened Kernel
  import opened MessageCells

  datatype Config = Config(receivers: nat, prio: bool, msgSize: nat, maxMsgs: nat)

  /** Where a thread inside a call is: waiting or just woken; between the two sections of a send, with the bytes already
      written; between the two sections of a receive, with the bytes already read of the index-th message. */
  datatype Place =
    | Receiving(size: nat)
    | Filling(cell: Cell, msg: seq<bv8>, cleared: bool, done: set<nat>)
    | Draining(cell: Cell, index: nat, want: nat, got: map<nat, bv8>)

  /** linked: all messages in the order they were linked; taken: how many of them were unlinked; results: what was
      copied out. */
  datatype Transfer = Transfer(q: Queue, at: map<Tid, Place>, linked: seq<seq<bv8>>, taken: nat,
                               results: map<nat, map<nat, bv8>>)

  datatype Move =
    | Begin(msg: seq<bv8>) | Clear | Write(i: nat) | Finish
    | Enter(size: nat) | Leave | Take(size: nat) | Read(i: nat) | Release

  ghost predicate Complete(n: nat, done: set<nat>)
  {
    forall i: nat :: i < n ==> i in done
  }

  function WriteByte(q: Queue, c: Cell, i: nat, b: bv8): (q': Queue)
    requires c in q.mem && i < |q.mem[c]|
  {
    q.(mem := q.mem[c := q.mem[c][i := b]])
  }

  /** One move of thread t; the copies go byte by byte in any order. */
  ghost predicate Moved(c: Transfer, cfg: Config, t: Tid, m: Move, c': Transfer)
  {
    match m
    case Begin(msg) =>
      && t !in c.at && |msg| <= cfg.msgSize && c.q.free.Some? && c.q.free.value in c.q.next
      && c' == c.(q := TakeFree(c.q), at := c.at[t := Filling(c.q.free.value, msg, false, {})])
    case Clear =>
      && t in c.at && c.at[t].Filling? && !c.at[t].cleared
      && c' == c.(q := ClearLink(c.q, c.at[t].cell), at := c.at[t := c.at[t].(cleared := true)])
    case Write(i) =>
      && t in c.at && c.at[t].Filling? && c.at[t].cleared && i < |c.at[t].msg|
      && c.at[t].cell in c.q.mem && i < |c.q.mem[c.at[t].cell]|
      && c' == c.(q := WriteByte(c.q, c.at[t].cell, i, c.at[t].msg[i]),
                  at := c.at[t := c.at[t].(done := c.at[t].done + {i})])
    case Finish =>
      && t in c.at && c.at[t].Filling? && c.at[t].cleared && Complete(|c.at[t].msg|, c.at[t].done)
      && c' == c.(q := Link(c.q, c.at[t].cell), at := c.at - {t}, linked := c.linked + [c.at[t].msg])
    case Enter(size) => t !in c.at && c' == c.(at := c.at[t := Receiving(size)])
    case Leave => t in c.at && c.at[t].Receiving? && c' == c.(at := c.at - {t})
    case Take(size) =>
      && (t in c.at ==> c.at[t] == Receiving(size)) && c.q.entry > 0 && c.q.head.Some? && c.q.head.value in c.q.next
      && c' == c.(q := TakeHead(c.q), taken := c.taken + 1,
                  at := c.at[t := Draining(c.q.head.value, c.taken,
                                           if size > cfg.msgSize then cfg.msgSize else size, map[])])
    case Read(i) =>
      && t in c.at && c.at[t].Draining? && i < c.at[t].want
      && c.at[t].cell in c.q.mem && i < |c.q.mem[c.at[t].cell]|
      && c' == c.(at := c.at[t := c.at[t].(got := c.at[t].got[i := c.q.mem[c.at[t].cell][i]])])
    case Release =>
      && t in c.at && c.at[t].Draining? && Complete(c.at[t].want, c.at[t].got.Keys)
      && c' == c.(q := PutFree(c.q, c.at[t].cell), at := c.at - {t}, results := c.results[c.at[t].index := c.at[t].got])
  }

  // ---- the invariant ----

  ghost predicate Holds(at: map<Tid, Place>, t: Tid, c: Cell)
  {
    t in at && !at[t].Receiving? && at[t].cell == c
  }

  /** The first bytes of a cell are the message. */
  ghost predicate Carries(bytes: seq<bv8>, msg: seq<bv8>)
  {
    |msg| <= |bytes| && forall i :: 0 <= i < |msg| ==> bytes[i] == msg[i]
  }

  /** What was copied out is the message as far as it goes. */
  ghost predicate Agrees(got: map<nat, bv8>, msg: seq<bv8>)
  {
    forall i: nat :: i in got && i < |msg| ==> got[i] == msg[i]
  }

  /** The cells: each below maxMsgs is on one list or with one thread, and has a payload of msgSize bytes. */
  ghost predicate CellsOk(q: Queue, at: map<Tid, Place>, cfg: Config, free: seq<Cell>, fifo: seq<Cell>)
  {
    && QueueOk(q, free, fifo)
    && (forall c :: c in free || c in fifo ==> c < cfg.maxMsgs)
    && (forall t: Tid, c: Cell :: Holds(at, t, c) ==> c < cfg.maxMsgs && c !in free && c !in fifo)
    && (forall t: Tid, u: Tid, c: Cell :: Holds(at, t, c) && Holds(at, u, c) ==> t == u)
    && (forall c: Cell :: c < cfg.maxMsgs ==> c in free || c in fifo || exists t: Tid :: Holds(at, t, c))
    && (forall c: Cell :: c < cfg.maxMsgs ==> c in q.next && c in q.mem && |q.mem[c]| == cfg.msgSize)
  }

  ghost predicate FillingOk(q: Queue, p: Place, cfg: Config)
    requires p.Filling?
  {
    && |p.msg| <= cfg.msgSize && p.cell in q.next && p.cell in q.mem
    && (p.cleared ==> q.next[p.cell] == None)
    && forall i :: i in p.done ==> i < |p.msg| <= |q.mem[p.cell]| && q.mem[p.cell][i] == p.msg[i]
  }

  ghost predicate DrainingOk(c: Transfer, p: Place, cfg: Config)
    requires p.Draining?
  {
    && p.index < c.taken <= |c.linked| && p.index !in c.results && p.want <= cfg.msgSize
    && p.cell in c.q.mem && Carries(c.q.mem[p.cell], c.linked[p.index])
    && forall i :: i in p.got ==> i < |c.q.mem[p.cell]| && p.got[i] == c.q.mem[p.cell][i]
  }

  ghost predicate PlaceOk(c: Transfer, t: Tid, cfg: Config)
    requires t in c.at
  {
    match c.at[t]
    case Receiving(_) => true
    case Filling(_, _, _, _) => FillingOk(c.q, c.at[t], cfg)
    case Draining(_, _, _, _) => DrainingOk(c, c.at[t], cfg)
  }

  ghost predicate Drains(at: map<Tid, Place>, t: Tid, j: nat)
  {
    t in at && at[t].Draining? && at[t].index == j
  }

  /** The messages: the FIFO carries the linked but not yet taken ones in order; every taken one was copied out or is
      being copied out by one thread. */
  ghost predicate MessagesOk(c: Transfer, fifo: seq<Cell>)
  {
    && |c.linked| == c.taken + |fifo|
    && (forall i :: 0 <= i < |fifo| ==> fifo[i] in c.q.mem && Carries(c.q.mem[fifo[i]], c.linked[c.taken + i]))
    && (forall j :: j in c.results ==> j < c.taken && Agrees(c.results[j], c.linked[j]))
    && (forall t: Tid, u: Tid, j: nat :: Drains(c.at, t, j) && Drains(c.at, u, j) ==> t == u)
    && (forall j: nat :: j < c.taken ==> j in c.results || exists t: Tid :: Drains(c.at, t, j))
  }

  ghost predicate PlacesOk(c: Transfer, cfg: Config)
  {
    forall t :: t in c.at ==> PlaceOk(c, t, cfg)
  }

  ghost predicate Inv(c: Transfer, cfg: Config, free: seq<Cell>, fifo: seq<Cell>)
  {
    && CellsOk(c.q, c.at, cfg, free, fifo) && MessagesOk(c, fifo)
    && PlacesOk(c, cfg)
  }

  // ---- every move keeps it ----

  ghost predicate SameHolders(at: map<Tid, Place>, at': map<Tid, Place>)
  {
    forall t: Tid, c: Cell :: Holds(at', t, c) == Holds(at, t, c)
  }

  ghost predicate SameDrainers(at: map<Tid, Place>, at': map<Tid, Place>)
  {
    forall t: Tid, j: nat :: Drains(at', t, j) == Drains(at, t, j)
  }

  lemma CellsFrame(q: Queue, at: map<Tid, Place>, at': map<Tid, Place>, cfg: Config, free: seq<Cell>, fifo: seq<Cell>)
    requires CellsOk(q, at, cfg, free, fifo) && SameHolders(at, at')
    ensures CellsOk(q, at', cfg, free, fifo)
  {
    forall c: Cell | c < cfg.maxMsgs ensures c in free || c in fifo || exists t: Tid :: Holds(at', t, c) {
      if c !in free && c !in fifo {
        var t: Tid :| Holds(at, t, c);
        assert Holds(at', t, c);
      }
    }
  }

  /** The messages do not care about cells outside the FIFO, nor about threads that drain nothing. */
  lemma MessagesFrame(c: Transfer, c': Transfer, fifo: seq<Cell>)
    requires MessagesOk(c, fifo) && SameDrainers(c.at, c'.at)
    requires c'.linked == c.linked && c'.taken == c.taken && c'.results == c.results
    requires forall x :: x in fifo ==> x in c'.q.mem && x in c.q.mem && c'.q.mem[x] == c.q.mem[x]
    ensures MessagesOk(c', fifo)
  {
    forall i | 0 <= i < |fifo| ensures fifo[i] in c'.q.mem && Carries(c'.q.mem[fifo[i]], c'.linked[c'.taken + i]) {
      assert fifo[i] in fifo;
    }
    forall j: nat | j < c'.taken ensures j in c'.results || exists t: Tid :: Drains(c'.at, t, j) {
      if j !in c.results {
        var t: Tid :| Drains(c.at, t, j);
        assert Drains(c'.at, t, j);
      }
    }
  }

  ghost predicate SameCell(q: Queue, q': Queue, x: Cell)
  {
    && (x in q.next ==> x in q'.next && q'.next[x] == q.next[x])
    && (x in q.mem ==> x in q'.mem && q'.mem[x] == q.mem[x])
  }

  /** A thread does not notice changes to cells it does not hold. */
  lemma PlaceFrame(c: Transfer, c': Transfer, t: Tid, cfg: Config)
    requires t in c.at && PlaceOk(c, t, cfg) && t in c'.at && c'.at[t] == c.at[t]
    requires c.linked <= c'.linked && c.taken <= c'.taken <= |c'.linked|
    requires c.at[t].Draining? ==> c.at[t].index !in c'.results
    requires !c.at[t].Receiving? ==> SameCell(c.q, c'.q, c.at[t].cell)
    ensures PlaceOk(c', t, cfg)
  {
    if c.at[t].Draining? { assert c'.linked[c.at[t].index] == c.linked[c.at[t].index]; }
  }

  lemma BeginCells(c: Transfer, cfg: Config, free: seq<Cell>, fifo: seq<Cell>, t: Tid, p: Place)
    requires CellsOk(c.q, c.at, cfg, free, fifo) && t !in c.at && c.q.free.Some? && !p.Receiving?
    requires p.cell == c.q.free.value
    ensures free != [] && free[0] in c.q.next && c.q.free == Some(free[0])
    ensures CellsOk(TakeFree(c.q), c.at[t := p], cfg, free[1..], fifo)
  {
    TakeFreeKeeps(c.q, free, fifo);
    var x, at' := free[0], c.at[t := p];
    assert x in free;
    assert Holds(at', t, x);
    assert forall u: Tid, d: Cell :: u != t ==> Holds(at', u, d) == Holds(c.at, u, d);
    assert forall d: Cell :: Holds(at', t, d) ==> d == x;
    forall d: Cell | d < cfg.maxMsgs ensures d in free[1..] || d in fifo || exists u: Tid :: Holds(at', u, d) {
      if d !in free && d !in fifo {
        var u: Tid :| Holds(c.at, u, d);
        assert Holds(at', u, d);
      }
    }
  }

  lemma BeginKeeps(c: Transfer, cfg: Config, free: seq<Cell>, fifo: seq<Cell>, t: Tid, msg: seq<bv8>, c': Transfer)
    requires Inv(c, cfg, free, fifo) && Moved(c, cfg, t, Begin(msg), c')
    ensures free != [] && Inv(c', cfg, free[1..], fifo)
  {
    BeginCells(c, cfg, free, fifo, t, c'.at[t]);
    assert free[0] in free;
    MessagesFrame(c, c', fifo);
    forall u | u in c'.at ensures PlaceOk(c', u, cfg) {
      if u != t { PlaceFrame(c, c', u, cfg); }
    }
  }

  /** A move that changes at most the moving thread's own cell. */
  ghost predicate Local(c: Transfer, c': Transfer, t: Tid)
  {
    && c'.linked == c.linked && c'.taken == c.taken && c'.results == c.results
    && (forall u :: u in c'.at && u != t ==> u in c.at && c'.at[u] == c.at[u])
    && (forall x: Cell :: !Holds(c.at, t, x) ==> SameCell(c.q, c'.q, x))
  }

  lemma OthersKeep(c: Transfer, c': Transfer, t: Tid, cfg: Config, free: seq<Cell>, fifo: seq<Cell>)
    requires CellsOk(c.q, c.at, cfg, free, fifo) && MessagesOk(c, fifo) && PlacesOk(c, cfg) && Local(c, c', t)
    requires t in c'.at ==> PlaceOk(c', t, cfg)
    ensures PlacesOk(c', cfg)
  {
    forall u | u in c'.at && u != t ensures PlaceOk(c', u, cfg) {
      if !c.at[u].Receiving? { assert Holds(c.at, u, c.at[u].cell); }
      PlaceFrame(c, c', u, cfg);
    }
  }

  lemma LocalMessages(c: Transfer, c': Transfer, t: Tid, cfg: Config, free: seq<Cell>, fifo: seq<Cell>)
    requires CellsOk(c.q, c.at, cfg, free, fifo) && MessagesOk(c, fifo) && Local(c, c', t) && SameDrainers(c.at, c'.at)
    ensures MessagesOk(c', fifo)
  {
    forall x | x in fifo ensures x in c'.q.mem && x in c.q.mem && c'.q.mem[x] == c.q.mem[x] {
      assert SameCell(c.q, c'.q, x);
    }
    MessagesFrame(c, c', fifo);
  }

  /** The moving thread's own place after a local move. */
  lemma LocalPlace(c: Transfer, cfg: Config, t: Tid, m: Move, c': Transfer)
    requires Moved(c, cfg, t, m, c') && (m.Clear? || m.Write? || m.Read? || m.Enter? || m.Leave?)
    requires t in c.at ==> PlaceOk(c, t, cfg)
    requires m.Write? ==> c.at[t].cell in c.q.mem && |c.q.mem[c.at[t].cell]| == cfg.msgSize
    ensures Local(c, c', t) && SameHolders(c.at, c'.at) && SameDrainers(c.at, c'.at)
    ensures t in c'.at ==> PlaceOk(c', t, cfg)
  {
  }

  lemma LocalCells(c: Transfer, cfg: Config, free: seq<Cell>, fifo: seq<Cell>, t: Tid, m: Move, c': Transfer)
    requires CellsOk(c.q, c.at, cfg, free, fifo) && Moved(c, cfg, t, m, c') && SameHolders(c.at, c'.at)
    requires m.Clear? || m.Write? || m.Read? || m.Enter? || m.Leave?
    ensures CellsOk(c'.q, c'.at, cfg, free, fifo)
  {
    if m.Clear? {
      assert Holds(c.at, t, c.at[t].cell);
      ClearLinkKeeps(c.q, free, fifo, c.at[t].cell);
    }
    CellsFrame(c'.q, c.at, c'.at, cfg, free, fifo);
  }

  lemma LocalKeeps(c: Transfer, cfg: Config, free: seq<Cell>, fifo: seq<Cell>, t: Tid, m: Move, c': Transfer)
    requires Inv(c, cfg, free, fifo) && Moved(c, cfg, t, m, c')
    requires m.Clear? || m.Write? || m.Read? || m.Enter? || m.Leave?
    ensures Inv(c', cfg, free, fifo)
  {
    if m.Write? { assert Holds(c.at, t, c.at[t].cell); }
    LocalPlace(c, cfg, t, m, c');
    LocalCells(c, cfg, free, fifo, t, m, c');
    LocalMessages(c, c', t, cfg, free, fifo);
    OthersKeep(c, c', t, cfg, free, fifo);
  }

  /** The counter cannot wrap: a held cell leaves room. */
  lemma HeldLeavesRoom(c: Transfer, cfg: Config, free: seq<Cell>, fifo: seq<Cell>, t: Tid)
    requires CellsOk(c.q, c.at, cfg, free, fifo) && t in c.at && !c.at[t].Receiving?
    ensures |fifo| + 1 <= cfg.maxMsgs
  {
    assert Holds(c.at, t, c.at[t].cell);
    Room(fifo, c.at[t].cell, cfg.maxMsgs);
  }

  lemma FinishCells(c: Transfer, cfg: Config, free: seq<Cell>, fifo: seq<Cell>, t: Tid)
    requires CellsOk(c.q, c.at, cfg, free, fifo) && t in c.at && c.at[t].Filling? && cfg.maxMsgs < UINT16
    requires c.at[t].cell in c.q.next && c.q.next[c.at[t].cell] == None
    ensures CellsOk(Link(c.q, c.at[t].cell), c.at - {t}, cfg, free, fifo + [c.at[t].cell])
  {
    var x, at' := c.at[t].cell, c.at - {t};
    assert Holds(c.at, t, x);
    HeldLeavesRoom(c, cfg, free, fifo, t);
    LinkKeeps(c.q, free, fifo, x);
    assert forall u: Tid, d: Cell :: Holds(at', u, d) == (u != t && Holds(c.at, u, d));
    assert forall d: Cell :: Holds(c.at, t, d) ==> d == x;
    forall d: Cell | d < cfg.maxMsgs ensures d in free || d in fifo + [x] || exists u: Tid :: Holds(at', u, d) {
      if d !in free && d !in fifo && d != x {
        var u: Tid :| Holds(c.at, u, d);
        assert Holds(at', u, d);
      }
    }
  }

  lemma AppendMessage(c: Transfer, fifo: seq<Cell>, q': Queue, x: Cell, msg: seq<bv8>)
    requires MessagesOk(c, fifo) && q'.mem == c.q.mem && x in q'.mem && Carries(q'.mem[x], msg)
    ensures MessagesOk(c.(q := q', linked := c.linked + [msg]), fifo + [x])
  {
    var linked' := c.linked + [msg];
    forall i | 0 <= i < |fifo + [x]|
      ensures (fifo + [x])[i] in q'.mem && Carries(q'.mem[(fifo + [x])[i]], linked'[c.taken + i])
    {
      if i < |fifo| { assert fifo[i] in c.q.mem && Carries(c.q.mem[fifo[i]], c.linked[c.taken + i]); }
    }
    forall j | j in c.results ensures Agrees(c.results[j], linked'[j]) { assert linked'[j] == c.linked[j]; }
  }

  lemma FinishMessages(c: Transfer, cfg: Config, fifo: seq<Cell>, t: Tid, c': Transfer)
    requires MessagesOk(c, fifo) && Moved(c, cfg, t, Finish, c') && FillingOk(c.q, c.at[t], cfg)
    requires |c.q.mem[c.at[t].cell]| == cfg.msgSize
    ensures MessagesOk(c', fifo + [c.at[t].cell])
  {
    var c1 := c.(at := c.at - {t});
    MessagesFrame(c, c1, fifo);
    AppendMessage(c1, fifo, c'.q, c.at[t].cell, c.at[t].msg);
  }

  lemma FinishKeeps(c: Transfer, cfg: Config, free: seq<Cell>, fifo: seq<Cell>, t: Tid, c': Transfer)
    requires Inv(c, cfg, free, fifo) && Moved(c, cfg, t, Finish, c') && cfg.maxMsgs < UINT16
    ensures Inv(c', cfg, free, fifo + [c.at[t].cell])
  {
    assert Holds(c.at, t, c.at[t].cell);
    assert PlaceOk(c, t, cfg);
    FinishCells(c, cfg, free, fifo, t);
    FinishMessages(c, cfg, fifo, t, c');
    if fifo != [] { assert fifo[|fifo| - 1] in fifo; }
    forall u | u in c'.at ensures PlaceOk(c', u, cfg) {
      if !c.at[u].Receiving? { assert Holds(c.at, u, c.at[u].cell); }
      PlaceFrame(c, c', u, cfg);
    }
  }

  lemma TakeCells(c: Transfer, cfg: Config, free: seq<Cell>, fifo: seq<Cell>, t: Tid, p: Place)
    requires CellsOk(c.q, c.at, cfg, free, fifo) && (t in c.at ==> c.at[t].Receiving?) && c.q.entry > 0
    requires p.Draining? && Some(p.cell) == c.q.head
    ensures fifo != [] && fifo[0] in c.q.next && c.q.head == Some(fifo[0])
    ensures CellsOk(TakeHead(c.q), c.at[t := p], cfg, free, fifo[1..])
  {
    TakeHeadKeeps(c.q, free, fifo);
    var x, at' := fifo[0], c.at[t := p];
    assert x in fifo;
    assert Holds(at', t, x);
    assert forall u: Tid, d: Cell :: u != t ==> Holds(at', u, d) == Holds(c.at, u, d);
    assert forall d: Cell :: !Holds(c.at, t, d) && (Holds(at', t, d) ==> d == x);
    forall d: Cell | d < cfg.maxMsgs ensures d in free || d in fifo[1..] || exists u: Tid :: Holds(at', u, d) {
      if d !in free && d !in fifo {
        var u: Tid :| Holds(c.at, u, d);
        assert Holds(at', u, d);
      }
    }
  }

  lemma TakeMessages(c: Transfer, cfg: Config, fifo: seq<Cell>, t: Tid, size: nat, c': Transfer)
    requires MessagesOk(c, fifo) && Moved(c, cfg, t, Take(size), c') && fifo != []
    requires forall u :: u in c.at && c.at[u].Draining? ==> c.at[u].index < c.taken
    ensures MessagesOk(c', fifo[1..])
  {
    assert Drains(c'.at, t, c.taken);
    assert forall u: Tid, j: nat :: u != t ==> Drains(c'.at, u, j) == Drains(c.at, u, j);
    assert forall j: nat :: !Drains(c.at, t, j) && (Drains(c'.at, t, j) ==> j == c.taken);
    assert forall i :: 0 <= i < |fifo| - 1 ==> fifo[1..][i] == fifo[i + 1];
    forall j: nat | j < c'.taken ensures j in c'.results || exists u: Tid :: Drains(c'.at, u, j) {
      if j !in c.results && j < c.taken {
        var u: Tid :| Drains(c.at, u, j);
        assert Drains(c'.at, u, j);
      }
    }
  }

  lemma TakePlaces(c: Transfer, cfg: Config, free: seq<Cell>, fifo: seq<Cell>, t: Tid, size: nat, c': Transfer)
    requires CellsOk(c.q, c.at, cfg, free, fifo) && MessagesOk(c, fifo) && PlacesOk(c, cfg)
    requires Moved(c, cfg, t, Take(size), c')
    requires fifo != [] && c.q.head == Some(fifo[0])
    ensures PlacesOk(c', cfg)
  {
    forall u | u in c'.at && u != t ensures PlaceOk(c', u, cfg) { PlaceFrame(c, c', u, cfg); }
    assert Carries(c.q.mem[fifo[0]], c.linked[c.taken + 0]);
  }

  lemma TakeKeeps(c: Transfer, cfg: Config, free: seq<Cell>, fifo: seq<Cell>, t: Tid, size: nat, c': Transfer)
    requires Inv(c, cfg, free, fifo) && Moved(c, cfg, t, Take(size), c')
    ensures fifo != [] && Inv(c', cfg, free, fifo[1..])
  {
    TakeCells(c, cfg, free, fifo, t, c'.at[t]);
    forall u | u in c.at && c.at[u].Draining? ensures c.at[u].index < c.taken { assert PlaceOk(c, u, cfg); }
    TakeMessages(c, cfg, fifo, t, size, c');
    TakePlaces(c, cfg, free, fifo, t, size, c');
  }

  lemma ReleaseCells(c: Transfer, cfg: Config, free: seq<Cell>, fifo: seq<Cell>, t: Tid)
    requires CellsOk(c.q, c.at, cfg, free, fifo) && t in c.at && !c.at[t].Receiving?
    ensures CellsOk(PutFree(c.q, c.at[t].cell), c.at - {t}, cfg, [c.at[t].cell] + free, fifo)
  {
    var x, at' := c.at[t].cell, c.at - {t};
    assert Holds(c.at, t, x);
    PutFreeKeeps(c.q, free, fifo, x);
    assert forall u: Tid, d: Cell :: Holds(at', u, d) == (u != t && Holds(c.at, u, d));
    assert forall d: Cell :: Holds(c.at, t, d) ==> d == x;
  }

  lemma ReleaseMessages(c: Transfer, cfg: Config, fifo: seq<Cell>, t: Tid, c': Transfer)
    requires MessagesOk(c, fifo) && Moved(c, cfg, t, Release, c') && DrainingOk(c, c.at[t], cfg)
    ensures MessagesOk(c', fifo)
  {
    var j := c.at[t].index;
    assert Drains(c.at, t, j);
    assert forall u: Tid, k: nat :: Drains(c'.at, u, k) == (u != t && Drains(c.at, u, k));
    assert forall k: nat :: Drains(c.at, t, k) ==> k == j;
  }

  lemma ReleaseKeeps(c: Transfer, cfg: Config, free: seq<Cell>, fifo: seq<Cell>, t: Tid, c': Transfer)
    requires Inv(c, cfg, free, fifo) && Moved(c, cfg, t, Release, c')
    ensures Inv(c', cfg, [c.at[t].cell] + free, fifo)
  {
    assert PlaceOk(c, t, cfg);
    ReleaseCells(c, cfg, free, fifo, t);
    ReleaseMessages(c, cfg, fifo, t, c');
    assert Holds(c.at, t, c.at[t].cell) && Drains(c.at, t, c.at[t].index);
    forall u | u in c'.at ensures PlaceOk(c', u, cfg) {
      assert PlaceOk(c, u, cfg);
      if !c.at[u].Receiving? { assert Holds(c.at, u, c.at[u].cell); }
      if c.at[u].Draining? { assert Drains(c.at, u, c.at[u].index); }
      PlaceFrame(c, c', u, cfg);
    }
  }

  /** Whatever thread moves, every cell stays in exactly one place and every message intact. */
  lemma MoveKeeps(c: Transfer, cfg: Config, free: seq<Cell>, fifo: seq<Cell>, t: Tid, m: Move, c': Transfer)
      returns (free': seq<Cell>, fifo': seq<Cell>)
    requires Inv(c, cfg, free, fifo) && Moved(c, cfg, t, m, c') && cfg.maxMsgs < UINT16
    ensures Inv(c', cfg, free', fifo')
  {
    free', fifo' := free, fifo;
    match m
    case Begin(msg) => BeginKeeps(c, cfg, free, fifo, t, msg, c'); free' := free[1..];
    case Clear => LocalKeeps(c, cfg, free, fifo, t, m, c');
    case Write(_) => LocalKeeps(c, cfg, free, fifo, t, m, c');
    case Finish => FinishKeeps(c, cfg, free, fifo, t, c'); fifo' := fifo + [c.at[t].cell];
    case Enter(_) => LocalKeeps(c, cfg, free, fifo, t, m, c');
    case Leave => LocalKeeps(c, cfg, free, fifo, t, m, c');
    case Take(size) => TakeKeeps(c, cfg, free, fifo, t, size, c'); fifo' := fifo[1..];
    case Read(_) => LocalKeeps(c, cfg, free, fifo, t, m, c');
    case Release => ReleaseKeeps(c, cfg, free, fifo, t, c'); free' := [c.at[t].cell] + free;
  }

  /** Every cell is in exactly one of four places: free, queued, with one sender, with one receiver. */
  lemma OnePlace(c: Transfer, cfg: Config, free: seq<Cell>, fifo: seq<Cell>, x: Cell)
    requires Inv(c, cfg, free, fifo) && x < cfg.maxMsgs
    ensures x in free <==> x !in fifo && forall t: Tid :: !Holds(c.at, t, x)
    ensures x in fifo <==> x !in free && forall t: Tid :: !Holds(c.at, t, x)
    ensures forall t: Tid, u: Tid :: Holds(c.at, t, x) && Holds(c.at, u, x) ==> t == u
  {
  }

  lemma DrainedFits(c: Transfer, cfg: Config, free: seq<Cell>, fifo: seq<Cell>, t: Tid)
    requires Inv(c, cfg, free, fifo) && t in c.at && c.at[t].Draining?
    ensures c.at[t].index < |c.linked| && |c.linked[c.at[t].index]| <= cfg.msgSize
  {
    assert PlaceOk(c, t, cfg) && Holds(c.at, t, c.at[t].cell);
  }

  /** A finished receive brings the wanted bytes of the message that was linked at its turn. */
  lemma ReleaseDelivers(c: Transfer, cfg: Config, free: seq<Cell>, fifo: seq<Cell>, t: Tid, c': Transfer)
    requires Inv(c, cfg, free, fifo) && Moved(c, cfg, t, Release, c')
    ensures var p := c.at[t];
            && p.index < |c.linked| && Complete(p.want, p.got.Keys)
            && forall i: nat :: i < p.want && i < |c.linked[p.index]| ==> i in p.got && p.got[i] == c.linked[p.index][i]
  {
    assert PlaceOk(c, t, cfg);
  }
}
