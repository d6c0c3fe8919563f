/** The message queue (ipc/msg_queue.c): its transfers among everything else the kernel does, and the object itself. */
module MessageQueue {
  import opened Options
  import opened Kernel
  import opened KernelInvariant
  import opened KernelSteps
  import opened KernelRuns
  import opened IpcBase
  import opened MessageCells
  import T = MessageTransfer
  import S = Scheduler

  datatype System = System(k: Kernel, c: T.Transfer)
  datatype Action = Call(t: Tid, m: T.Move) | Env(s: Step)

  /** The threads inside a receive that found the queue empty. */
  ghost function Receivers(at: map<Tid, T.Place>): (s: set<Tid>)
  {
    set t | t in at && at[t].Receiving?
  }

  /** Who may move: the running thread; or the idle thread or an interrupt handler, a number that no thread has. These
      two never wait in a receive, and a handler may come at any moment, also between two bytes of a copy. */
  ghost predicate MayMove(y: System, idle: Tid, t: Tid, m: T.Move)
  {
    if t in y.k.threads && t != idle then t == y.k.current && CanCall(y.k, idle)
    else (t == idle ==> y.k.current == idle) && !m.Enter? && (t in y.c.at ==> !y.c.at[t].Receiving?)
  }

  /** What a move does to the scheduler, up to its sk_schedule. */
  ghost predicate KernelMoved(k: Kernel, cfg: T.Config, m: T.Move, entry: nat, k': Kernel)
    requires k.current in k.threads && forall x :: x in Waiters(k, cfg.receivers) ==> x in k.threads
  {
    match m
    case Enter(_) => entry == 0 && k' == WaitOn(k, cfg.receivers, cfg.prio)
    case Leave => entry == 0 && k' == k
    case Finish => k' == WakeFirst(k, cfg.receivers)
    case Release => k' == WakeFirst(k, cfg.receivers)
    case _ => k' == k
  }

  ghost predicate Moves(y: System, idle: Tid, cfg: T.Config, a: Action, y': System)
  {
    match a
    case Call(t, m) =>
      && KInv(y.k, idle) && MayMove(y, idle, t, m)
      && (forall x :: x in Waiters(y.k, cfg.receivers) ==> x in y.k.threads)
      && T.Moved(y.c, cfg, t, m, y'.c) && KernelMoved(y.k, cfg, m, y.c.q.entry, y'.k)
    case Env(s) =>
      && Environment(y.k, idle, cfg.receivers, s, y'.k) && y'.c == y.c
      && (s.Wait? || s.Exit? ==> y.k.current !in y.c.at)
  }

  /** No wake-up is lost: while somebody waits, every queued message has a woken receiver that has not yet looked. */
  ghost predicate NoneLost(y: System, cfg: T.Config)
  {
    Covered(y.k, cfg.receivers, Receivers(y.c.at), y.c.q.entry)
  }

  ghost predicate Inv(y: System, idle: Tid, cfg: T.Config, free: seq<Cell>, fifo: seq<Cell>)
  {
    KInv(y.k, idle) && NoneLost(y, cfg) && T.Inv(y.c, cfg, free, fifo)
  }

  /** Leaving the set of receivers, or joining it, is all a move does to it. */
  lemma SameReceivers(at: map<Tid, T.Place>, t: Tid, p: T.Place)
    requires (t in at ==> !at[t].Receiving?) && !p.Receiving?
    ensures Receivers(at[t := p]) == Receivers(at) && Receivers(at - {t}) == Receivers(at)
  {
  }

  lemma ReceiverLeaves(at: map<Tid, T.Place>, t: Tid, p: T.Place)
    requires t in at && at[t].Receiving? && !p.Receiving?
    ensures t in Receivers(at) && Receivers(at[t := p]) == Receivers(at) - {t}
    ensures Receivers(at - {t}) == Receivers(at) - {t}
  {
  }

  lemma ReceiverJoins(at: map<Tid, T.Place>, t: Tid, size: nat)
    ensures Receivers(at[t := T.Receiving(size)]) == Receivers(at) + {t}
  {
  }

  lemma EnterCovers(y: System, idle: Tid, cfg: T.Config, t: Tid, size: nat, y': System)
    requires NoneLost(y, cfg) && Moves(y, idle, cfg, Call(t, T.Enter(size)), y')
    ensures KInv(y'.k, idle) && NoneLost(y', cfg)
  {
    Join(y.k, idle, cfg.receivers, cfg.prio);
    ReceiverJoins(y.c.at, t, size);
  }

  lemma TakeCovers(y: System, idle: Tid, cfg: T.Config, t: Tid, size: nat, y': System)
    requires NoneLost(y, cfg) && Moves(y, idle, cfg, Call(t, T.Take(size)), y')
    ensures KInv(y'.k, idle) && NoneLost(y', cfg)
  {
    if t in y.c.at {
      ReceiverLeaves(y.c.at, t, y'.c.at[t]);
      RunnerCovers(y.k, idle, cfg.receivers, Receivers(y.c.at), y.c.q.entry);
    } else {
      SameReceivers(y.c.at, t, y'.c.at[t]);
    }
  }

  lemma LeaveCovers(y: System, idle: Tid, cfg: T.Config, t: Tid, y': System)
    requires NoneLost(y, cfg) && Moves(y, idle, cfg, Call(t, T.Leave), y')
    ensures KInv(y'.k, idle) && NoneLost(y', cfg)
  {
    ReceiverLeaves(y.c.at, t, T.Filling(0, [], false, {}));
    RunnerCovers(y.k, idle, cfg.receivers, Receivers(y.c.at), y.c.q.entry);
  }

  lemma WakeMoveCovers(y: System, idle: Tid, cfg: T.Config, t: Tid, m: T.Move, y': System)
    requires NoneLost(y, cfg) && Moves(y, idle, cfg, Call(t, m), y') && (m.Finish? || m.Release?)
    requires y'.c.q.entry <= y.c.q.entry + 1
    ensures KInv(y'.k, idle) && NoneLost(y', cfg)
  {
    SameReceivers(y.c.at, t, T.Filling(0, [], false, {}));
    WakeCovers(y.k, idle, cfg.receivers, Receivers(y.c.at), y'.c.q.entry);
  }

  lemma CopyCovers(y: System, idle: Tid, cfg: T.Config, t: Tid, m: T.Move, y': System)
    requires NoneLost(y, cfg) && Moves(y, idle, cfg, Call(t, m), y') && (m.Begin? || m.Clear? || m.Write? || m.Read?)
    ensures KInv(y'.k, idle) && NoneLost(y', cfg)
  {
    SameReceivers(y.c.at, t, y'.c.at[t]);
  }

  lemma CallCovers(y: System, idle: Tid, cfg: T.Config, t: Tid, m: T.Move, y': System)
    requires NoneLost(y, cfg) && Moves(y, idle, cfg, Call(t, m), y')
    requires m.Finish? ==> y'.c.q.entry <= y.c.q.entry + 1
    ensures KInv(y'.k, idle) && NoneLost(y', cfg)
  {
    match m
    case Enter(size) => EnterCovers(y, idle, cfg, t, size, y');
    case Take(size) => TakeCovers(y, idle, cfg, t, size, y');
    case Leave => LeaveCovers(y, idle, cfg, t, y');
    case Finish => WakeMoveCovers(y, idle, cfg, t, m, y');
    case Release => WakeMoveCovers(y, idle, cfg, t, m, y');
    case _ => CopyCovers(y, idle, cfg, t, m, y');
  }

  lemma Increment(n: nat)
    ensures (n + 1) % UINT16 <= n + 1
  {
  }

  lemma MoveKeeps(y: System, idle: Tid, cfg: T.Config, free: seq<Cell>, fifo: seq<Cell>, a: Action, y': System)
      returns (free': seq<Cell>, fifo': seq<Cell>)
    requires Inv(y, idle, cfg, free, fifo) && Moves(y, idle, cfg, a, y') && cfg.maxMsgs < UINT16
    ensures Inv(y', idle, cfg, free', fifo')
  {
    match a
    case Call(t, m) =>
      free', fifo' := T.MoveKeeps(y.c, cfg, free, fifo, t, m, y'.c);
      if m.Finish? { assert y'.c.q.entry <= y.c.q.entry + 1 by { Increment(y.c.q.entry); } }
      CallCovers(y, idle, cfg, t, m, y');
    case Env(s) =>
      free', fifo' := free, fifo;
      EnvironmentCovers(y.k, idle, cfg.receivers, Receivers(y.c.at), y.c.q.entry, s, y'.k);
  }

  /** An interrupt handler can begin a send at every moment while a cell is free, whatever the threads are doing. */
  lemma HandlerSends(y: System, idle: Tid, cfg: T.Config, free: seq<Cell>, fifo: seq<Cell>, h: Tid, msg: seq<bv8>)
      returns (y': System, free': seq<Cell>, fifo': seq<Cell>)
    requires Inv(y, idle, cfg, free, fifo) && cfg.maxMsgs < UINT16 && |msg| <= cfg.msgSize && free != []
    requires h !in y.k.threads && h !in y.c.at
    ensures Moves(y, idle, cfg, Call(h, T.Begin(msg)), y') && Inv(y', idle, cfg, free', fifo')
    ensures h in y'.c.at && y'.c.at[h] == T.Filling(free[0], msg, false, {})
  {
    WaitersKnown(y.k, cfg.receivers);
    assert y.c.q.free == Some(free[0]) && free[0] in y.c.q.next;
    y' := y.(c := y.c.(q := TakeFree(y.c.q), at := y.c.at[h := T.Filling(free[0], msg, false, {})]));
    free', fifo' := MoveKeeps(y, idle, cfg, free, fifo, Call(h, T.Begin(msg)), y');
  }

  /** Nobody waits beside a message once every woken receiver has looked. */
  lemma Quiet(y: System, idle: Tid, cfg: T.Config, free: seq<Cell>, fifo: seq<Cell>)
    requires Inv(y, idle, cfg, free, fifo) && Woken(y.k, cfg.receivers, Receivers(y.c.at)) == {}
    ensures Waiters(y.k, cfg.receivers) != [] ==> fifo == [] && y.c.q.entry == 0 && y.c.q.head == None
  {
    assert y.c.q.entry == |fifo|;
  }

  ghost predicate IsRun(ys: seq<System>, idle: Tid, cfg: T.Config, actions: seq<Action>)
  {
    && |ys| == |actions| + 1
    && forall i :: 0 <= i < |actions| ==> Moves(ys[i], idle, cfg, actions[i], ys[i + 1])
  }

  /** In every run, at every byte of every copy, each cell is in one place, the messages leave in the order they were
      linked, and no wake-up is lost. */
  lemma {:induction false} RunKeeps(ys: seq<System>, idle: Tid, cfg: T.Config, free0: seq<Cell>, fifo0: seq<Cell>,
                                    actions: seq<Action>, n: nat)
      returns (free: seq<Cell>, fifo: seq<Cell>)
    requires IsRun(ys, idle, cfg, actions) && Inv(ys[0], idle, cfg, free0, fifo0) && n <= |actions|
    requires cfg.maxMsgs < UINT16
    ensures Inv(ys[n], idle, cfg, free, fifo)
    decreases n
  {
    if n == 0 {
      free, fifo := free0, fifo0;
    } else {
      var i := n - 1;
      free, fifo := RunKeeps(ys, idle, cfg, free0, fifo0, actions, i);
      assert Moves(ys[i], idle, cfg, actions[i], ys[i + 1]);
      free, fifo := MoveKeeps(ys[i], idle, cfg, free, fifo, actions[i], ys[i + 1]);
    }
  }

  /** Whoever may move and is in no call can take the oldest message while there is one. */
  lemma TakeEnabled(y: System, idle: Tid, cfg: T.Config, free: seq<Cell>, fifo: seq<Cell>, t: Tid, size: nat)
      returns (y': System)
    requires Inv(y, idle, cfg, free, fifo) && fifo != [] && MayMove(y, idle, t, T.Take(size))
    requires t in y.c.at ==> y.c.at[t] == T.Receiving(size)
    ensures Moves(y, idle, cfg, Call(t, T.Take(size)), y') && y'.c.taken == y.c.taken + 1 && t in y'.c.at
    ensures y'.c.at[t] == T.Draining(fifo[0], y.c.taken, if size < cfg.msgSize then size else cfg.msgSize, map[])
  {
    WaitersKnown(y.k, cfg.receivers);
    assert fifo[0] in fifo && y.c.q.head == Some(fifo[0]) && fifo[0] in y.c.q.next && y.c.q.entry == |fifo|;
    y' := y.(c := y.c.(q := TakeHead(y.c.q), taken := y.c.taken + 1,
                       at := y.c.at[t := T.Draining(fifo[0], y.c.taken,
                                                    if size > cfg.msgSize then cfg.msgSize else size, map[])]));
  }

  // ---- whole transfers ----

  /** A thread between its two sections stays at its cell, whoever else moves and whatever bytes it copies. */
  ghost predicate SamePlace(p: T.Place, p': T.Place)
  {
    match p
    case Filling(cell, msg, _, _) => p'.Filling? && p'.cell == cell && p'.msg == msg
    case Draining(cell, index, want, _) => p'.Draining? && p'.cell == cell && p'.index == index && p'.want == want
    case Receiving(_) => false
  }

  lemma PlaceStays(y: System, idle: Tid, cfg: T.Config, a: Action, y': System, t: Tid)
    requires Moves(y, idle, cfg, a, y') && t in y.c.at && !y.c.at[t].Receiving?
    requires !(a.Call? && a.t == t && (a.m.Finish? || a.m.Release?))
    ensures t in y'.c.at && SamePlace(y.c.at[t], y'.c.at[t])
  {
  }

  /** Between steps i and n thread t neither links nor releases its cell. */
  ghost predicate StillCopies(actions: seq<Action>, t: Tid, i: nat, n: nat)
    requires n <= |actions|
  {
    forall m :: i <= m < n && actions[m].Call? && actions[m].t == t ==> !actions[m].m.Finish? && !actions[m].m.Release?
  }

  lemma {:induction false} PlaceKept(ys: seq<System>, idle: Tid, cfg: T.Config, actions: seq<Action>, t: Tid, i: nat,
                                     n: nat)
    requires IsRun(ys, idle, cfg, actions) && i <= n <= |actions| && StillCopies(actions, t, i, n)
    requires t in ys[i].c.at && !ys[i].c.at[t].Receiving?
    ensures t in ys[n].c.at && SamePlace(ys[i].c.at[t], ys[n].c.at[t])
    decreases n
  {
    if n > i {
      PlaceKept(ys, idle, cfg, actions, t, i, n - 1);
      assert Moves(ys[n - 1], idle, cfg, actions[n - 1], ys[n]);
      PlaceStays(ys[n - 1], idle, cfg, actions[n - 1], ys[n], t);
    }
  }

  /** In every run, a send that begins with a message links exactly that message, whatever the others send, receive or
      copy in between. */
  lemma SendLinks(ys: seq<System>, idle: Tid, cfg: T.Config, actions: seq<Action>, t: Tid, msg: seq<bv8>, i: nat,
                  n: nat)
    requires IsRun(ys, idle, cfg, actions) && i < n < |actions| && StillCopies(actions, t, i + 1, n)
    requires actions[i] == Call(t, T.Begin(msg)) && actions[n] == Call(t, T.Finish)
    ensures ys[n + 1].c.linked == ys[n].c.linked + [msg]
  {
    assert Moves(ys[i], idle, cfg, actions[i], ys[i + 1]);
    PlaceKept(ys, idle, cfg, actions, t, i + 1, n);
    assert Moves(ys[n], idle, cfg, actions[n], ys[n + 1]);
  }

  /** In every run, the receive that takes the j-th message returns its bytes, as many as it asked for and the message
      has, although others send, receive and copy in between. */
  lemma ReceiveBrings(ys: seq<System>, idle: Tid, cfg: T.Config, free: seq<Cell>, fifo: seq<Cell>, actions: seq<Action>,
                      t: Tid, size: nat, i: nat, n: nat)
    requires IsRun(ys, idle, cfg, actions) && Inv(ys[0], idle, cfg, free, fifo) && cfg.maxMsgs < UINT16
    requires i < n < |actions| && StillCopies(actions, t, i + 1, n)
    requires actions[i] == Call(t, T.Take(size)) && actions[n] == Call(t, T.Release)
    ensures var j, c := ys[i].c.taken, ys[n + 1].c;
            && j < |c.linked| && j in c.results
            && forall b: nat :: b < size && b < |c.linked[j]| ==> b in c.results[j] && c.results[j][b] == c.linked[j][b]
  {
    assert Moves(ys[i], idle, cfg, actions[i], ys[i + 1]);
    PlaceKept(ys, idle, cfg, actions, t, i + 1, n);
    assert Moves(ys[n], idle, cfg, actions[n], ys[n + 1]);
    var free', fifo' := RunKeeps(ys, idle, cfg, free, fifo, actions, n);
    T.ReleaseDelivers(ys[n].c, cfg, free', fifo', t, ys[n + 1].c);
    T.DrainedFits(ys[n].c, cfg, free', fifo', t);
  }

  // ---- the receiver that is woken ----

  /** A call wakes the first receiver, or lets the caller wait, or leaves the kernel alone. */
  lemma CallWakes(y: System, idle: Tid, cfg: T.Config, t: Tid, m: T.Move, y': System)
    requires Moves(y, idle, cfg, Call(t, m), y')
    ensures if m.Finish? || m.Release? then WakesOne(y.k, cfg.receivers, y'.k)
            else if m.Enter? then t == y.k.current && t !in y.c.at && Blocks(y.k, cfg.receivers, cfg.prio, y'.k)
            else y'.k == y.k
  {
    if m.Finish? || m.Release? { WakeFirstExact(y.k, idle, cfg.receivers); }
    if m.Enter? { WaitOnKeeps(y.k, idle, cfg.receivers, cfg.prio); }
  }

  /** A waiting receiver that a send or a receive takes off the list is ready or running. */
  lemma TakenAwake(y: System, idle: Tid, cfg: T.Config, u: Tid, m: T.Move, y': System, t: Tid)
    requires NoneLost(y, cfg) && Moves(y, idle, cfg, Call(u, m), y')
    requires t in Waiters(y.k, cfg.receivers) && t !in Waiters(y'.k, cfg.receivers)
    ensures (m.Finish? || m.Release?) && t == Waiters(y.k, cfg.receivers)[0] && Awake(y'.k, t)
    ensures t in Receivers(y'.c.at)
  {
    CallWakes(y, idle, cfg, u, m, y');
    if m.Enter? { JoinedKeeps(y.k, cfg.receivers, cfg.prio, t); }
    assert t in Receivers(y.c.at);
  }

  lemma AwakeCall(y: System, idle: Tid, cfg: T.Config, u: Tid, m: T.Move, y': System, t: Tid)
    requires Moves(y, idle, cfg, Call(u, m), y') && Awake(y.k, t) && t in Receivers(y.c.at) && u != t
    ensures Awake(y'.k, t) && t in Receivers(y'.c.at)
  {
    CallWakes(y, idle, cfg, u, m, y');
  }

  /** A woken receiver stays awake through every action but its own next section that does not put it to rest by name.
      */
  lemma AwakeMove(y: System, idle: Tid, cfg: T.Config, a: Action, y': System, t: Tid)
    requires Moves(y, idle, cfg, a, y') && Awake(y.k, t) && t in Receivers(y.c.at)
    requires !(a.Env? && Lulls(a.s, t)) && !(a.Call? && a.t == t)
    ensures Awake(y'.k, t) && t in Receivers(y'.c.at)
  {
    match a
    case Env(s) => AwakeStep(y.k, idle, s, y'.k, t);
    case Call(u, m) => AwakeCall(y, idle, cfg, u, m, y', t);
  }

  /** Over every run, a receiver that a send or a receive takes off the list is ready or running from then on, until its
      own next section or until something suspends it by name. */
  lemma {:induction false} ReceiverAwake(ys: seq<System>, idle: Tid, cfg: T.Config, free: seq<Cell>, fifo: seq<Cell>,
                                         actions: seq<Action>, i: nat, n: nat, t: Tid)
    requires IsRun(ys, idle, cfg, actions) && Inv(ys[0], idle, cfg, free, fifo) && cfg.maxMsgs < UINT16
    requires i < n <= |actions| && actions[i].Call?
    requires t in Waiters(ys[i].k, cfg.receivers) && t !in Waiters(ys[i + 1].k, cfg.receivers)
    requires forall m :: i < m < n ==>
               !(actions[m].Env? && Lulls(actions[m].s, t)) && !(actions[m].Call? && actions[m].t == t)
    ensures Awake(ys[n].k, t) && t in Receivers(ys[n].c.at)
    decreases n
  {
    var m := n - 1;
    var free', fifo' := RunKeeps(ys, idle, cfg, free, fifo, actions, m);
    assert Moves(ys[m], idle, cfg, actions[m], ys[m + 1]);
    if m == i {
      TakenAwake(ys[i], idle, cfg, actions[i].t, actions[i].m, ys[n], t);
    } else {
      ReceiverAwake(ys, idle, cfg, free, fifo, actions, i, m, t);
      AwakeMove(ys[m], idle, cfg, actions[m], ys[n], t);
    }
  }

  // ---- the object ----

  /** How the first section of a send ends: SK_ERROR, SK_EFULL, a read through the null pointer, or with a cell. */
  datatype SendStart = TooLong | Full | NullRead | Filled(cell: Cell)

  /** How the first section of a receive ends. */
  datatype RecvStart = TimedOut | Blocked | Unlinked(cell: Cell)

  /** The cells in the order sk_msg_queue_init leaves them on the free list. */
  function Countdown(n: nat): (s: seq<Cell>)
    ensures |s| == n && forall i :: 0 <= i < n ==> s[i] == n - 1 - i
  {
    seq(n, i => n - 1 - i)
  }

  lemma CountdownGrows(n: nat)
    ensures Countdown(n + 1) == [n] + Countdown(n) && n !in Countdown(n)
    ensures forall c: Cell :: c in Countdown(n) <==> c < n
  {
    forall c: Cell | c < n ensures c in Countdown(n) { assert Countdown(n)[n - 1 - c] == c; }
  }

  lemma InitInv(k: Kernel, idle: Tid, q: Queue, cfg: T.Config)
    requires KInv(k, idle) && Waiters(k, cfg.receivers) == [] && QueueOk(q, Countdown(cfg.maxMsgs), [])
    requires forall c: Cell :: c < cfg.maxMsgs ==> c in q.next && c in q.mem && |q.mem[c]| == cfg.msgSize
    ensures Inv(System(k, T.Transfer(q, map[], [], 0, map[])), idle, cfg, Countdown(cfg.maxMsgs), [])
    ensures forall c :: c in Countdown(cfg.maxMsgs) ==> c < cfg.maxMsgs
  {
    CountdownGrows(cfg.maxMsgs);
  }

  lemma NextByte(msg: seq<bv8>, was: seq<bv8>, i: nat)
    requires i < |msg| <= |was|
    ensures (msg[..i] + was[i..])[i := msg[i]] == msg[..i + 1] + was[i + 1..]
  {
  }

  class MessageQueueObject {
    const sched: S.Scheduler
    const cfg: T.Config

    var head: Option<Cell>
    var tail: Option<Cell>
    var free: Option<Cell>
    var next: map<Cell, Option<Cell>>
    var mem: map<Cell, seq<bv8>>
    var entry: nat

    ghost var freeList: seq<Cell>
    ghost var fifo: seq<Cell>

    ghost function Q(): Queue
      reads this
    {
      Queue(head, tail, free, next, mem, entry)
    }

    ghost predicate Valid()
      reads this, sched
    {
      && sched.Valid() && QueueOk(Q(), freeList, fifo) && cfg.maxMsgs < UINT16
      && (forall c :: c in freeList || c in fifo ==> c < cfg.maxMsgs)
      && forall c: Cell :: c < cfg.maxMsgs ==> c in next && c in mem && |mem[c]| == cfg.msgSize
    }

    /** On no list: some thread is between its two sections with it. */
    ghost predicate Private(c: Cell)
      reads this
    {
      c < cfg.maxMsgs && c !in freeList && c !in fifo
    }

    /** Pushes the cells one after the other. */
    method BuildFreeList()
      requires freeList == fifo == [] && head == tail == free == None && next == map[] && entry == 0
      modifies `free, `next, `freeList
      ensures freeList == Countdown(cfg.maxMsgs) && QueueOk(Q(), freeList, fifo)
      ensures forall c: Cell :: c in next <==> c < cfg.maxMsgs
    {
      for i := 0 to cfg.maxMsgs
        invariant freeList == Countdown(i) && QueueOk(Q(), freeList, fifo)
        invariant forall c: Cell :: c in next <==> c < i
      {
        CountdownGrows(i);
        PutFreeKeeps(Q(), freeList, fifo, i);
        next := next[i := free];
        free := Some(i);
        freeList := [i] + freeList;
      }
    }

    /** sk_msg_queue_init; mem is what the pool holds. */
    constructor (sched: S.Scheduler, receivers: nat, prio: bool, size: nat, poolSize: nat, mem: map<Cell, seq<bv8>>)
      requires sched.Valid() && Waiters(sched.K(), receivers) == []
      requires forall c: Cell :: c < MaxMsgs(poolSize, MsgSize(size)) ==> c in mem && |mem[c]| == MsgSize(size)
      ensures Valid() && this.sched == sched
      ensures cfg == T.Config(receivers, prio, MsgSize(size), MaxMsgs(poolSize, MsgSize(size)))
      ensures freeList == Countdown(cfg.maxMsgs) && fifo == []
      ensures Inv(System(sched.K(), T.Transfer(Q(), map[], [], 0, map[])), sched.idle, cfg, freeList, fifo)
    {
      this.sched, this.mem := sched, mem;
      cfg := T.Config(receivers, prio, MsgSize(size), MaxMsgs(poolSize, MsgSize(size)));
      head, tail, free, next, entry := None, None, None, map[], 0;
      freeList, fifo := [], [];
      new;
      BuildFreeList();
      InitInv(sched.K(), sched.idle, Q(), cfg);
    }

    /** sk_msg_queue_send_wait up to the end of its first section. */
    method BeginSend(size: nat, timeout: int) returns (r: SendStart)
      requires Valid()
      modifies this
      ensures Valid() && fifo == old(fifo)
      ensures r.Filled? ==> && old(freeList) == [r.cell] + freeList && old(free) == Some(r.cell) && r.cell in old(next)
                            && Q() == TakeFree(old(Q()))
                            && (forall c :: c in old(freeList) ==> c in freeList || c == r.cell)
      ensures !r.Filled? ==> Q() == old(Q()) && freeList == old(freeList)
      ensures r == TooLong <==> size > cfg.msgSize
      ensures r == Full <==> size <= cfg.msgSize && old(freeList) == [] && timeout == 0
      ensures r == NullRead <==> size <= cfg.msgSize && old(freeList) == [] && timeout != 0
    {
      if size > cfg.msgSize { return TooLong; }
      var msg := free;
      if msg == None && timeout == 0 { return Full; }
      if msg == None { return NullRead; }
      TakeFreeKeeps(Q(), freeList, fifo);
      free := next[msg.value];
      freeList := freeList[1..];
      return Filled(msg.value);
    }

    method CopyIn(c: Cell, msg: seq<bv8>)
      requires c in mem && |msg| <= |mem[c]|
      modifies `mem
      ensures mem == old(mem)[c := msg + old(mem)[c][|msg|..]]
    {
      ghost var was := mem[c];
      assert mem == mem[c := was];
      for i := 0 to |msg|
        invariant c in mem && mem[c] == msg[..i] + was[i..] && mem == old(mem)[c := mem[c]]
      {
        NextByte(msg, was, i);
        mem := mem[c := mem[c][i := msg[i]]];
      }
      assert msg[..|msg|] == msg;
    }

    /** The link and the copy of a send, with interrupts on. */
    method FillCell(c: Cell, msg: seq<bv8>)
      requires Valid() && Private(c) && |msg| <= cfg.msgSize
      modifies `next, `mem
      ensures Valid() && next == old(next)[c := None]
      ensures mem == old(mem)[c := msg + old(mem)[c][|msg|..]]
    {
      ClearLinkKeeps(Q(), freeList, fifo, c);
      next := next[c := None];
      CopyIn(c, msg);
    }

    method ResumeReceiver()
      requires sched.Valid()
      modifies sched
      ensures sched.Valid()
      ensures forall x :: x in Waiters(old(sched.K()), cfg.receivers) ==> x in old(sched.threads)
      ensures sched.K() == WakeFirst(old(sched.K()), cfg.receivers)
      ensures WakesOne(old(sched.K()), cfg.receivers, sched.K())
    {
      WakeFirstExact(sched.K(), sched.idle, cfg.receivers);
      WaitersKnown(sched.K(), cfg.receivers);
      var r := WaitRing(cfg.receivers);
      if r in sched.rings && sched.rings[r] != [] {
        assert sched.rings[r][0] in Waiters(sched.K(), cfg.receivers);
        var ok := sched.ResumeThreadOf(sched.rings[r][0]);
      }
    }

    method AppendCell(c: Cell)
      modifies this`head, this`tail, this`next, this`entry
      ensures Q() == Link(old(Q()), c)
    {
      if tail.Some? { next := next[tail.value := Some(c)]; }
      tail := Some(c);
      if head.None? { head := Some(c); }
      entry := (entry + 1) % UINT16;
    }

    method LinkCell(c: Cell)
      requires Valid() && Private(c) && next[c] == None
      modifies this
      ensures Valid() && freeList == old(freeList) && fifo == old(fifo) + [c] && Q() == Link(old(Q()), c)
    {
      Room(fifo, c, cfg.maxMsgs);
      MessageCells.LinkKeeps(Q(), freeList, fifo, c);
      AppendCell(c);
      fifo := fifo + [c];
    }

    /** The second section of sk_msg_queue_send_wait, up to its sk_schedule. */
    method EndSend(c: Cell)
      requires Valid() && Private(c) && next[c] == None
      modifies this, sched
      ensures Valid() && freeList == old(freeList) && fifo == old(fifo) + [c] && Q() == Link(old(Q()), c)
      ensures forall x :: x in Waiters(old(sched.K()), cfg.receivers) ==> x in old(sched.threads)
      ensures sched.K() == WakeFirst(old(sched.K()), cfg.receivers)
      ensures WakesOne(old(sched.K()), cfg.receivers, sched.K())
    {
      LinkCell(c);
      ResumeReceiver();
    }

    /** sk_msg_queue_recv from its second test to the end of its first section. */
    method TakeFirst() returns (r: RecvStart)
      requires Valid()
      modifies this
      ensures Valid() && freeList == old(freeList) && !r.Blocked?
      ensures r == TimedOut <==> old(fifo) == []
      ensures r == TimedOut ==> Q() == old(Q()) && fifo == old(fifo)
      ensures r.Unlinked? ==> && old(fifo) == [r.cell] + fifo && old(head) == Some(r.cell) && r.cell in old(next)
                              && Q() == TakeHead(old(Q()))
    {
      if entry == 0 { return TimedOut; }
      TakeHeadKeeps(Q(), freeList, fifo);
      var msg := head.value;
      head := next[msg];
      if tail == Some(msg) { tail := None; }
      if entry > 0 { entry := entry - 1; }
      fifo := fifo[1..];
      return Unlinked(msg);
    }

    /** sk_msg_queue_recv up to the end of its first section or its sk_schedule; a handler may call it as long as it
        does not block. */
    method BeginRecv(timeout: int) returns (r: RecvStart)
      requires Valid() && (entry == 0 && timeout != 0 ==> CanCall(sched.K(), sched.idle))
      modifies this, sched
      ensures Valid() && freeList == old(freeList)
      ensures r == TimedOut <==> old(fifo) == [] && timeout == 0
      ensures r == Blocked <==> old(fifo) == [] && timeout != 0
      ensures !r.Unlinked? ==> Q() == old(Q()) && fifo == old(fifo)
      ensures r.Unlinked? ==> && old(fifo) == [r.cell] + fifo && old(head) == Some(r.cell) && r.cell in old(next)
                              && Q() == TakeHead(old(Q()))
      ensures forall x :: x in Waiters(old(sched.K()), cfg.receivers) ==> x in old(sched.threads)
      ensures sched.K() == if r == Blocked then WaitOn(old(sched.K()), cfg.receivers, cfg.prio) else old(sched.K())
    {
      WaitersKnown(sched.K(), cfg.receivers);
      if entry == 0 && timeout == 0 { return TimedOut; }
      if entry == 0 {
        sched.ListSuspend(cfg.receivers, cfg.prio);
        return Blocked;
      }
      r := TakeFirst();
    }

    /** The copy of a receive, with interrupts on. */
    method DrainCell(c: Cell, size: nat) returns (out: seq<bv8>)
      requires Valid() && Private(c)
      ensures out == mem[c][..if size > cfg.msgSize then cfg.msgSize else size]
    {
      var n := if size > cfg.msgSize then cfg.msgSize else size;
      out := [];
      for i := 0 to n
        invariant out == mem[c][..i]
      {
        out := out + [mem[c][i]];
      }
    }

    method FreeCell(c: Cell)
      requires Valid() && Private(c)
      modifies this
      ensures Valid() && freeList == [c] + old(freeList) && fifo == old(fifo) && Q() == PutFree(old(Q()), c)
    {
      PutFreeKeeps(Q(), freeList, fifo, c);
      next := next[c := free];
      free := Some(c);
      freeList := [c] + freeList;
    }

    /** The second section of sk_msg_queue_recv, up to its sk_schedule. */
    method EndRecv(c: Cell)
      requires Valid() && Private(c)
      modifies this, sched
      ensures Valid() && freeList == [c] + old(freeList) && fifo == old(fifo) && Q() == PutFree(old(Q()), c)
      ensures forall x :: x in Waiters(old(sched.K()), cfg.receivers) ==> x in old(sched.threads)
      ensures sched.K() == WakeFirst(old(sched.K()), cfg.receivers)
      ensures WakesOne(old(sched.K()), cfg.receivers, sched.K())
    {
      FreeCell(c);
      ResumeReceiver();
    }
  }
}
