/** The mailbox (ipc/mailbox.c): a bounded queue of words with one list of waiting receivers and one of waiting
    senders. */
module Mailbox {
  import opened Kernel
  import opened KernelInvariant
  import opened KernelSteps
  import opened KernelRuns
  import opened IpcBase
  import opened Circular
  import S = Scheduler

  type Mail = nat

  /** One mailbox: its wait lists, their order and its capacity. */
  datatype Config = Config(receivers: nat, senders: nat, prio: bool, size: nat)

  /** SK_EOK, SK_EFULL; Blocked: suspended inside the call, which goes on when the thread runs again. */
  datatype SendOutcome = Sent | Full | SendBlocked

  datatype RecvOutcome = Got(mail: Mail) | TimedOut | RecvBlocked

  ghost predicate Known(k: Kernel, cfg: Config)
  {
    && (forall x :: x in Waiters(k, cfg.receivers) ==> x in k.threads)
    && (forall x :: x in Waiters(k, cfg.senders) ==> x in k.threads)
  }

  /** sk_mailbox_send_wait from its second test on. */
  ghost function SendRest(k: Kernel, q: seq<Mail>, cfg: Config, v: Mail): (r: (Kernel, seq<Mail>, SendOutcome))
    requires Known(k, cfg)
  {
    if |q| == cfg.size then (k, q, Full) else (WakeFirst(k, cfg.receivers), q + [v], Sent)
  }

  /** sk_mailbox_send_wait by the current thread, up to its sk_schedule. */
  ghost function Send(k: Kernel, q: seq<Mail>, cfg: Config, v: Mail, timeout: int)
    : (r: (Kernel, seq<Mail>, SendOutcome))
    requires Known(k, cfg) && k.current in k.threads
  {
    if |q| == cfg.size && timeout == 0 then (k, q, Full)
    else if |q| == cfg.size then (WaitOn(k, cfg.senders, cfg.prio), q, SendBlocked)
    else SendRest(k, q, cfg, v)
  }

  /** sk_mailbox_recv from its second test on. */
  ghost function RecvRest(k: Kernel, q: seq<Mail>, cfg: Config): (r: (Kernel, seq<Mail>, RecvOutcome))
    requires Known(k, cfg)
  {
    if q == [] then (k, q, TimedOut) else (WakeFirst(k, cfg.receivers), q[1..], Got(q[0]))
  }

  /** sk_mailbox_recv by the current thread, up to its sk_schedule. */
  ghost function Recv(k: Kernel, q: seq<Mail>, cfg: Config, timeout: int): (r: (Kernel, seq<Mail>, RecvOutcome))
    requires Known(k, cfg) && k.current in k.threads
  {
    if q == [] && timeout == 0 then (k, q, TimedOut)
    else if q == [] then (WaitOn(k, cfg.receivers, cfg.prio), q, RecvBlocked)
    else RecvRest(k, q, cfg)
  }

  /** The mailbox, the threads inside a blocking call on it, and all mails sent and received so far. */
  datatype System = System(k: Kernel, q: seq<Mail>, receiving: set<Tid>, sending: map<Tid, Mail>, sent: seq<Mail>,
                           received: seq<Mail>)

  datatype Action = DoSend(v: Mail, sendTime: int) | SendAgain | DoRecv(recvTime: int) | RecvAgain | Env(s: Step)

  ghost predicate Busy(y: System, t: Tid)
  {
    t in y.receiving || t in y.sending
  }

  /** Sends and receives come from the running thread or from an interrupt handler, whatever it interrupted: the idle
      thread, a thread on its way into a wait, a thread inside a call. Only a call that blocks needs a thread that
      may. */
  ghost predicate Moves(y: System, idle: Tid, cfg: Config, a: Action, y': System)
  {
    KInv(y.k, idle) && Known(y.k, cfg) &&
    var t := y.k.current;
    match a
    case DoSend(v, time) =>
      var (k', q', r) := Send(y.k, y.q, cfg, v, time);
      && (r == SendBlocked ==> CanCall(y.k, idle) && !Busy(y, t))
      && y' == y.(k := k', q := q', sent := if r == Sent then y.sent + [v] else y.sent,
                  sending := if r == SendBlocked then y.sending[t := v] else y.sending)
    case SendAgain =>
      && CanCall(y.k, idle) && t in y.sending
      && var (k', q', r) := SendRest(y.k, y.q, cfg, y.sending[t]);
         y' == y.(k := k', q := q', sent := if r == Sent then y.sent + [y.sending[t]] else y.sent,
                  sending := y.sending - {t})
    case DoRecv(time) =>
      var (k', q', r) := Recv(y.k, y.q, cfg, time);
      && (r == RecvBlocked ==> CanCall(y.k, idle) && !Busy(y, t))
      && y' == y.(k := k', q := q', received := if r.Got? then y.received + [r.mail] else y.received,
                  receiving := if r == RecvBlocked then y.receiving + {t} else y.receiving)
    case RecvAgain =>
      && CanCall(y.k, idle) && t in y.receiving
      && var (k', q', r) := RecvRest(y.k, y.q, cfg);
         y' == y.(k := k', q := q', received := if r.Got? then y.received + [r.mail] else y.received,
                  receiving := y.receiving - {t})
    case Env(s) =>
      && Environment(y.k, idle, cfg.receivers, s, y'.k) && Environment(y.k, idle, cfg.senders, s, y'.k)
      && (s.Wait? || s.Exit? ==> !Busy(y, t))
      && y' == y.(k := y'.k)
  }

  /** No wake-up is lost: while somebody waits, every queued mail has a woken receiver that has not yet looked. */
  ghost predicate NoneLost(y: System, cfg: Config)
  {
    Covered(y.k, cfg.receivers, y.receiving, |y.q|)
  }

  ghost predicate Inv(y: System, idle: Tid, cfg: Config)
  {
    KInv(y.k, idle) && |y.q| <= cfg.size && y.received + y.q == y.sent && NoneLost(y, cfg)
  }

  lemma InitInv(k: Kernel, idle: Tid, cfg: Config)
    requires KInv(k, idle) && Waiters(k, cfg.receivers) == []
    ensures Inv(System(k, [], {}, map[], [], []), idle, cfg)
  {
  }

  /** A send succeeds exactly when there is room, whatever the timeout, and then wakes exactly the first receiver; else
      it gives up or waits with the senders. */
  lemma SendOutcomes(k: Kernel, idle: Tid, q: seq<Mail>, cfg: Config, v: Mail, timeout: int)
    requires KInv(k, idle) && |q| <= cfg.size && (|q| == cfg.size && timeout != 0 ==> CanCall(k, idle))
    ensures Known(k, cfg)
    ensures var (k', q', r) := Send(k, q, cfg, v, timeout);
            && (r == Sent <==> |q| < cfg.size) && (r == Full <==> |q| == cfg.size && timeout == 0)
            && (r == SendBlocked <==> |q| == cfg.size && timeout != 0)
            && (r == Sent ==> q' == q + [v] && WakesOne(k, cfg.receivers, k'))
            && (r == Full ==> k' == k && q' == q)
            && (r == SendBlocked ==> q' == q && Blocks(k, cfg.senders, cfg.prio, k'))
  {
    WaitersKnown(k, cfg.senders);
    WakeFirstExact(k, idle, cfg.receivers);
    if |q| == cfg.size && timeout != 0 { WaitOnKeeps(k, idle, cfg.senders, cfg.prio); }
  }

  /** Behind its wait a send looks once more: it fails exactly when the mailbox is full again. */
  lemma SendAgainOutcomes(k: Kernel, idle: Tid, q: seq<Mail>, cfg: Config, v: Mail)
    requires KInv(k, idle) && |q| <= cfg.size
    ensures Known(k, cfg)
    ensures var (k', q', r) := SendRest(k, q, cfg, v);
            && (r == Sent <==> |q| < cfg.size) && (r == Full <==> |q| == cfg.size)
            && (r == Sent ==> q' == q + [v] && WakesOne(k, cfg.receivers, k')) && (r == Full ==> k' == k && q' == q)
  {
    WaitersKnown(k, cfg.senders);
    WakeFirstExact(k, idle, cfg.receivers);
  }

  /** A receive brings the oldest mail exactly when there is one, whatever the timeout, and then wakes exactly the next
      receiver; else it gives up or waits with the receivers. */
  lemma RecvOutcomes(k: Kernel, idle: Tid, q: seq<Mail>, cfg: Config, timeout: int)
    requires KInv(k, idle) && (q == [] && timeout != 0 ==> CanCall(k, idle))
    ensures Known(k, cfg)
    ensures var (k', q', r) := Recv(k, q, cfg, timeout);
            && (r.Got? <==> q != []) && (r == TimedOut <==> q == [] && timeout == 0)
            && (r == RecvBlocked <==> q == [] && timeout != 0)
            && (r.Got? ==> [r.mail] + q' == q && WakesOne(k, cfg.receivers, k'))
            && (r == TimedOut ==> k' == k && q' == q)
            && (r == RecvBlocked ==> q' == q && Blocks(k, cfg.receivers, cfg.prio, k'))
  {
    WaitersKnown(k, cfg.senders);
    WakeFirstExact(k, idle, cfg.receivers);
    if q == [] && timeout != 0 { WaitOnKeeps(k, idle, cfg.receivers, cfg.prio); }
  }

  /** Behind its wait a receive looks once more: it fails exactly when the mailbox is empty again. */
  lemma RecvAgainOutcomes(k: Kernel, idle: Tid, q: seq<Mail>, cfg: Config)
    requires KInv(k, idle)
    ensures Known(k, cfg)
    ensures var (k', q', r) := RecvRest(k, q, cfg);
            && (r.Got? <==> q != []) && (r == TimedOut <==> q == [])
            && (r.Got? ==> [r.mail] + q' == q && WakesOne(k, cfg.receivers, k'))
            && (r == TimedOut ==> k' == k && q' == q)
  {
    WaitersKnown(k, cfg.senders);
    WakeFirstExact(k, idle, cfg.receivers);
  }

  lemma PutMove(y: System, idle: Tid, cfg: Config, v: Mail, sending: map<Tid, Mail>)
    requires Inv(y, idle, cfg) && |y.q| < cfg.size
    ensures Known(y.k, cfg)
    ensures Inv(System(WakeFirst(y.k, cfg.receivers), y.q + [v], y.receiving, sending, y.sent + [v], y.received),
                idle, cfg)
  {
    WaitersKnown(y.k, cfg.senders);
    WakeCovers(y.k, idle, cfg.receivers, y.receiving, |y.q| + 1);
    assert y.received + (y.q + [v]) == (y.received + y.q) + [v];
  }

  lemma BlockMove(y: System, idle: Tid, cfg: Config, sending: map<Tid, Mail>)
    requires cfg.receivers != cfg.senders && Inv(y, idle, cfg) && CanCall(y.k, idle)
    ensures Known(y.k, cfg) && Inv(y.(k := WaitOn(y.k, cfg.senders, cfg.prio), sending := sending), idle, cfg)
  {
    WaitersKnown(y.k, cfg.receivers);
    Join(y.k, idle, cfg.senders, cfg.prio);
    OtherWaitLeaves(y.k, idle, cfg.senders, cfg.prio, cfg.receivers);
    var k' := WaitOn(y.k, cfg.senders, cfg.prio);
    assert Woken(k', cfg.receivers, y.receiving) == Woken(y.k, cfg.receivers, y.receiving);
  }

  lemma SendMove(y: System, idle: Tid, cfg: Config, v: Mail, time: int, y': System)
    requires cfg.receivers != cfg.senders && Inv(y, idle, cfg) && Moves(y, idle, cfg, DoSend(v, time), y')
    ensures Inv(y', idle, cfg)
  {
    if |y.q| == cfg.size {
      if time != 0 { BlockMove(y, idle, cfg, y.sending[y.k.current := v]); }
    } else {
      PutMove(y, idle, cfg, v, y.sending);
    }
  }

  lemma SendAgainMove(y: System, idle: Tid, cfg: Config, y': System)
    requires Inv(y, idle, cfg) && Moves(y, idle, cfg, SendAgain, y')
    ensures Inv(y', idle, cfg)
  {
    var t := y.k.current;
    if |y.q| < cfg.size { PutMove(y, idle, cfg, y.sending[t], y.sending - {t}); }
  }

  lemma FirstMoves(received: seq<Mail>, q: seq<Mail>)
    requires q != []
    ensures received + [q[0]] + q[1..] == received + q
  {
  }

  lemma TakeMove(y: System, idle: Tid, cfg: Config, receiving: set<Tid>)
    requires Inv(y, idle, cfg) && y.q != [] && Covered(y.k, cfg.receivers, receiving, |y.q| - 1)
    ensures Known(y.k, cfg)
    ensures Inv(System(WakeFirst(y.k, cfg.receivers), y.q[1..], receiving, y.sending, y.sent, y.received + [y.q[0]]),
                idle, cfg)
  {
    WaitersKnown(y.k, cfg.senders);
    WakeCovers(y.k, idle, cfg.receivers, receiving, |y.q| - 1);
    FirstMoves(y.received, y.q);
  }

  lemma EmptyMove(y: System, idle: Tid, cfg: Config)
    requires Inv(y, idle, cfg) && CanCall(y.k, idle) && y.q == []
    ensures Known(y.k, cfg)
    ensures Inv(y.(k := WaitOn(y.k, cfg.receivers, cfg.prio), receiving := y.receiving + {y.k.current}), idle, cfg)
  {
    WaitersKnown(y.k, cfg.senders);
    Join(y.k, idle, cfg.receivers, cfg.prio);
  }

  lemma RecvMove(y: System, idle: Tid, cfg: Config, time: int, y': System)
    requires Inv(y, idle, cfg) && Moves(y, idle, cfg, DoRecv(time), y')
    ensures Inv(y', idle, cfg)
  {
    if y.q != [] { TakeMove(y, idle, cfg, y.receiving); } else if time != 0 { EmptyMove(y, idle, cfg); }
  }

  lemma RecvAgainMove(y: System, idle: Tid, cfg: Config, y': System)
    requires Inv(y, idle, cfg) && Moves(y, idle, cfg, RecvAgain, y')
    ensures Inv(y', idle, cfg)
  {
    var t := y.k.current;
    RunnerCovers(y.k, idle, cfg.receivers, y.receiving, |y.q|);
    if y.q != [] { TakeMove(y, idle, cfg, y.receiving - {t}); }
  }

  lemma EnvMove(y: System, idle: Tid, cfg: Config, s: Step, y': System)
    requires Inv(y, idle, cfg) && Moves(y, idle, cfg, Env(s), y')
    ensures Inv(y', idle, cfg)
  {
    EnvironmentCovers(y.k, idle, cfg.receivers, y.receiving, |y.q|, s, y'.k);
  }

  lemma MoveKeeps(y: System, idle: Tid, cfg: Config, a: Action, y': System)
    requires cfg.receivers != cfg.senders && Inv(y, idle, cfg) && Moves(y, idle, cfg, a, y')
    ensures Inv(y', idle, cfg)
  {
    match a
    case DoSend(v, time) => SendMove(y, idle, cfg, v, time, y');
    case SendAgain => SendAgainMove(y, idle, cfg, y');
    case DoRecv(time) => RecvMove(y, idle, cfg, time, y');
    case RecvAgain => RecvAgainMove(y, idle, cfg, y');
    case Env(s) => EnvMove(y, idle, cfg, s, y');
  }

  /** A send that does not wait is possible at every moment. */
  lemma HandlerSends(y: System, idle: Tid, cfg: Config, v: Mail) returns (y': System)
    requires cfg.receivers != cfg.senders && Inv(y, idle, cfg)
    ensures Moves(y, idle, cfg, DoSend(v, 0), y') && Inv(y', idle, cfg)
    ensures y'.sent == if |y.q| < cfg.size then y.sent + [v] else y.sent
  {
    WaitersKnown(y.k, cfg.receivers);
    WaitersKnown(y.k, cfg.senders);
    var (k', q', r) := Send(y.k, y.q, cfg, v, 0);
    y' := y.(k := k', q := q', sent := if r == Sent then y.sent + [v] else y.sent);
    SendMove(y, idle, cfg, v, 0, y');
  }

  /** So is a receive. */
  lemma HandlerReceives(y: System, idle: Tid, cfg: Config) returns (y': System)
    requires Inv(y, idle, cfg)
    ensures Moves(y, idle, cfg, DoRecv(0), y') && Inv(y', idle, cfg)
    ensures y'.received == if y.q != [] then y.received + [y.q[0]] else y.received
  {
    WaitersKnown(y.k, cfg.receivers);
    WaitersKnown(y.k, cfg.senders);
    var (k', q', r) := Recv(y.k, y.q, cfg, 0);
    y' := y.(k := k', q := q', received := if r.Got? then y.received + [r.mail] else y.received);
    RecvMove(y, idle, cfg, 0, y');
  }

  /** Nobody waits beside a mail once every woken receiver has looked. */
  lemma Quiet(y: System, idle: Tid, cfg: Config)
    requires Inv(y, idle, cfg) && Woken(y.k, cfg.receivers, y.receiving) == {}
    ensures Waiters(y.k, cfg.receivers) != [] ==> y.q == [] && y.received == y.sent
  {
    assert y.q == [] ==> y.received + y.q == y.received;
  }

  ghost predicate IsRun(ys: seq<System>, idle: Tid, cfg: Config, actions: seq<Action>)
  {
    && |ys| == |actions| + 1
    && forall i :: 0 <= i < |actions| ==> Moves(ys[i], idle, cfg, actions[i], ys[i + 1])
  }

  /** In every run the mails come out in the order they went in, none twice and none dropped, and no wake-up is lost. */
  lemma {:induction false} RunKeeps(ys: seq<System>, idle: Tid, cfg: Config, actions: seq<Action>, n: nat)
    requires cfg.receivers != cfg.senders && IsRun(ys, idle, cfg, actions) && Inv(ys[0], idle, cfg) && n <= |actions|
    ensures Inv(ys[n], idle, cfg)
    decreases n
  {
    if n > 0 {
      var i := n - 1;
      RunKeeps(ys, idle, cfg, actions, i);
      assert Moves(ys[i], idle, cfg, actions[i], ys[i + 1]);
      MoveKeeps(ys[i], idle, cfg, actions[i], ys[i + 1]);
    }
  }

  // ---- the receiver that is woken ----

  /** A call wakes the first receiver, or lets the caller wait, or leaves the kernel alone. */
  lemma CallWakes(y: System, idle: Tid, cfg: Config, a: Action, y': System)
    requires cfg.receivers != cfg.senders && Inv(y, idle, cfg) && Moves(y, idle, cfg, a, y') && !a.Env?
    ensures Known(y.k, cfg)
    ensures || y'.k == y.k || WakesOne(y.k, cfg.receivers, y'.k)
            || (!Busy(y, y.k.current)
                && (Blocks(y.k, cfg.receivers, cfg.prio, y'.k) || Blocks(y.k, cfg.senders, cfg.prio, y'.k)))
  {
    match a
    case DoSend(v, time) => SendOutcomes(y.k, idle, y.q, cfg, v, time);
    case SendAgain => SendAgainOutcomes(y.k, idle, y.q, cfg, y.sending[y.k.current]);
    case DoRecv(time) => RecvOutcomes(y.k, idle, y.q, cfg, time);
    case RecvAgain => RecvAgainOutcomes(y.k, idle, y.q, cfg);
  }

  /** A waiting receiver that a send or a receive takes off the list is ready or running. */
  lemma TakenAwake(y: System, idle: Tid, cfg: Config, a: Action, y': System, t: Tid)
    requires cfg.receivers != cfg.senders && Inv(y, idle, cfg) && Moves(y, idle, cfg, a, y') && !a.Env?
    requires t in Waiters(y.k, cfg.receivers) && t !in Waiters(y'.k, cfg.receivers)
    ensures t == Waiters(y.k, cfg.receivers)[0] && Awake(y'.k, t) && t in y'.receiving
  {
    CallWakes(y, idle, cfg, a, y');
    JoinedKeeps(y.k, cfg.receivers, cfg.prio, t);
    if a.RecvAgain? { RunningNotWaiting(y.k, idle, cfg.receivers); }
  }

  /** A woken receiver stays awake through every action that does not put it to rest by name. */
  lemma AwakeMove(y: System, idle: Tid, cfg: Config, a: Action, y': System, t: Tid)
    requires cfg.receivers != cfg.senders && Inv(y, idle, cfg) && Moves(y, idle, cfg, a, y')
    requires Awake(y.k, t) && t in y.receiving && !(a.Env? && Lulls(a.s, t))
    requires !(a.RecvAgain? && y.k.current == t)
    ensures Awake(y'.k, t) && t in y'.receiving
  {
    if a.Env? { AwakeStep(y.k, idle, a.s, y'.k, t); } else { CallWakes(y, idle, cfg, a, y'); }
  }

  /** Over every run, a receiver that a send or a receive takes off the list is ready or running from then on, until it
      looks for its mail or something suspends it by name. */
  lemma {:induction false} ReceiverAwake(ys: seq<System>, idle: Tid, cfg: Config, actions: seq<Action>, i: nat, n: nat,
                                         t: Tid)
    requires cfg.receivers != cfg.senders && IsRun(ys, idle, cfg, actions) && Inv(ys[0], idle, cfg)
    requires i < n <= |actions| && !actions[i].Env?
    requires t in Waiters(ys[i].k, cfg.receivers) && t !in Waiters(ys[i + 1].k, cfg.receivers)
    requires forall m :: i < m < n ==>
               !(actions[m].Env? && Lulls(actions[m].s, t)) && !(actions[m].RecvAgain? && ys[m].k.current == t)
    ensures Awake(ys[n].k, t) && t in ys[n].receiving
    decreases n
  {
    var m := n - 1;
    RunKeeps(ys, idle, cfg, actions, m);
    assert Moves(ys[m], idle, cfg, actions[m], ys[m + 1]);
    if m == i {
      TakenAwake(ys[i], idle, cfg, actions[i], ys[n], t);
    } else {
      ReceiverAwake(ys, idle, cfg, actions, i, m, t);
      AwakeMove(ys[m], idle, cfg, actions[m], ys[n], t);
    }
  }

  /** A receive never wakes a sender: its list stays as it was. */
  lemma RecvIgnoresSenders(y: System, idle: Tid, cfg: Config, a: Action, y': System)
    requires cfg.receivers != cfg.senders && Inv(y, idle, cfg) && Moves(y, idle, cfg, a, y')
    requires a.DoRecv? || a.RecvAgain?
    ensures Waiters(y'.k, cfg.senders) == Waiters(y.k, cfg.senders)
  {
    if Waiters(y.k, cfg.receivers) != [] {
      ResumeOther(y.k, idle, cfg.receivers, cfg.senders);
    }
    if a.DoRecv? && y.q == [] && a.recvTime != 0 {
      OtherWaitLeaves(y.k, idle, cfg.receivers, cfg.prio, cfg.senders);
    }
  }

  // ---- the object ----

  class MailboxObject {
    const sched: S.Scheduler
    const cfg: Config
    const pool: array<Mail>

    var entry: nat
    var inOffset: nat
    var outOffset: nat

    ghost predicate Valid()
      reads this, sched, pool
    {
      && sched.Valid() && cfg.size <= pool.Length && entry <= cfg.size
      && (if cfg.size == 0 then inOffset == outOffset == 0
          else outOffset < cfg.size && inOffset == Wrap(cfg.size, outOffset + entry))
    }

    ghost function Q(): (q: seq<Mail>)
      requires Valid()
      reads this, sched, pool
    {
      Contents(pool[..cfg.size], outOffset, entry)
    }

    /** sk_mailbox_init; the size field has 16 bits. */
    constructor (sched: S.Scheduler, receivers: nat, senders: nat, prio: bool, size: nat, pool: array<Mail>)
      requires sched.Valid() && pool.Length == size
      ensures Valid() && Q() == [] && this.sched == sched && this.pool == pool
      ensures cfg == Config(receivers, senders, prio, size % 0x1_0000)
    {
      this.sched, this.cfg, this.pool := sched, Config(receivers, senders, prio, size % 0x1_0000), pool;
      entry, inOffset, outOffset := 0, 0, 0;
    }

    /** The offsets spell the queue's length modulo the size. */
    lemma Offsets()
      requires Valid() && cfg.size > 0
      ensures inOffset == (outOffset + entry) % cfg.size
    {
      WrapIsMod(cfg.size, outOffset + entry);
    }

    method ResumeReceiver()
      requires Valid()
      modifies sched
      ensures Valid() && Known(old(sched.K()), cfg) && sched.K() == WakeFirst(old(sched.K()), cfg.receivers)
      ensures WakesOne(old(sched.K()), cfg.receivers, sched.K())
    {
      WakeFirstExact(sched.K(), sched.idle, cfg.receivers);
      WaitersKnown(sched.K(), cfg.receivers);
      WaitersKnown(sched.K(), cfg.senders);
      var r := WaitRing(cfg.receivers);
      if r in sched.rings && sched.rings[r] != [] {
        assert sched.rings[r][0] in Waiters(sched.K(), cfg.receivers);
        var ok := sched.ResumeThreadOf(sched.rings[r][0]);
      }
    }

    method Store(v: Mail)
      requires Valid() && entry < cfg.size
      modifies this, pool
      ensures Valid() && Q() == old(Q()) + [v]
    {
      Push(pool[..cfg.size], outOffset, entry, v);
      ghost var a := pool[..cfg.size][inOffset := v];
      pool[inOffset] := v;
      assert pool[..cfg.size] == a;
      inOffset := inOffset + 1;
      if inOffset >= cfg.size { inOffset := 0; }
      entry := entry + 1;
    }

    /** sk_mailbox_send_wait from its second test on. */
    method FinishSend(v: Mail) returns (r: SendOutcome)
      requires Valid()
      modifies this, sched, pool
      ensures Valid() && Known(old(sched.K()), cfg)
      ensures (sched.K(), Q(), r) == SendRest(old(sched.K()), old(Q()), cfg, v)
      ensures if old(entry) == cfg.size then r == Full
              else r == Sent && WakesOne(old(sched.K()), cfg.receivers, sched.K())
    {
      WaitersKnown(sched.K(), cfg.receivers);
      WaitersKnown(sched.K(), cfg.senders);
      if entry == cfg.size { return Full; }
      Store(v);
      ResumeReceiver();
      return Sent;
    }

    /** sk_mailbox_send_wait up to its sk_schedule; a handler may call it as long as it does not block. */
    method SkMailboxSend(v: Mail, timeout: int) returns (r: SendOutcome)
      requires Valid() && (entry == cfg.size && timeout != 0 ==> CanCall(sched.K(), sched.idle))
      modifies this, sched, pool
      ensures Valid() && Known(old(sched.K()), cfg)
      ensures (sched.K(), Q(), r) == Send(old(sched.K()), old(Q()), cfg, v, timeout)
      ensures r == if old(entry) < cfg.size then Sent else if timeout == 0 then Full else SendBlocked
      ensures r == Sent ==> WakesOne(old(sched.K()), cfg.receivers, sched.K())
    {
      WaitersKnown(sched.K(), cfg.receivers);
      WaitersKnown(sched.K(), cfg.senders);
      if entry == cfg.size && timeout == 0 { return Full; }
      if entry == cfg.size { sched.ListSuspend(cfg.senders, cfg.prio); return SendBlocked; }
      r := FinishSend(v);
    }

    method Fetch() returns (v: Mail)
      requires Valid() && entry > 0
      modifies this
      ensures Valid() && [v] + Q() == old(Q())
    {
      Pop(pool[..cfg.size], outOffset, entry);
      v := pool[outOffset];
      outOffset := outOffset + 1;
      if outOffset >= cfg.size { outOffset := 0; }
      entry := entry - 1;
    }

    /** sk_mailbox_recv from its second test on. */
    method FinishRecv() returns (r: RecvOutcome)
      requires Valid()
      modifies this, sched
      ensures Valid() && Known(old(sched.K()), cfg)
      ensures (sched.K(), Q(), r) == RecvRest(old(sched.K()), old(Q()), cfg)
      ensures if old(entry) == 0 then r == TimedOut
              else r.Got? && WakesOne(old(sched.K()), cfg.receivers, sched.K())
    {
      WaitersKnown(sched.K(), cfg.receivers);
      WaitersKnown(sched.K(), cfg.senders);
      if entry == 0 { return TimedOut; }
      var v := Fetch();
      ResumeReceiver();
      return Got(v);
    }

    /** sk_mailbox_recv up to its sk_schedule; a handler may call it as long as it does not block. */
    method SkMailboxRecv(timeout: int) returns (r: RecvOutcome)
      requires Valid() && (entry == 0 && timeout != 0 ==> CanCall(sched.K(), sched.idle))
      modifies this, sched
      ensures Valid() && Known(old(sched.K()), cfg)
      ensures (sched.K(), Q(), r) == Recv(old(sched.K()), old(Q()), cfg, timeout)
      ensures if old(entry) > 0 then r.Got? && WakesOne(old(sched.K()), cfg.receivers, sched.K())
              else r == if timeout == 0 then TimedOut else RecvBlocked
    {
      WaitersKnown(sched.K(), cfg.receivers);
      WaitersKnown(sched.K(), cfg.senders);
      if entry == 0 && timeout == 0 { return TimedOut; }
      if entry == 0 { sched.ListSuspend(cfg.receivers, cfg.prio); return RecvBlocked; }
      r := FinishRecv();
    }
  }
}
