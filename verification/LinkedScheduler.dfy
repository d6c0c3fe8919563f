/** The scheduler on the pointer rings: its operations relink nodes and do to the lists what the model says. */
module LinkedScheduler {
  import opened Options
  import opened Bits
  import opened Kernel
  import opened KernelInvariant
  import opened KernelSteps
  import opened Boot
  import opened Klist
  import opened LinkedLists
  import S = Scheduler

  /** Every thread has its node, with its priority, and every ready list its head. */
  ghost predicate KnownIn(threads: map<Tid, Thread>, node: map<Tid, Node>, head: map<Ring, Node>)
  {
    && threads.Keys == node.Keys
    && (forall t :: t in threads ==> threads[t].pri < PRIORITY_MAX && node[t].pri == threads[t].pri)
    && forall p: nat :: p < PRIORITY_MAX ==> ReadyRing(p) in head
  }

  /** The ready heads below p, with empty lists, and nothing else. */
  ghost predicate HeadsBelow(lists: ListTable, p: nat)
    reads lists
  {
    && lists.node == map[] && (forall r :: r in lists.head <==> r.ReadyRing? && r.pri < p)
    && forall r :: r in lists.rings ==> lists.rings[r] == []
  }

  method AddReadyHead(lists: ListTable, p: nat)
    requires lists.Valid() && HeadsBelow(lists, p)
    modifies lists
    ensures lists.Valid() && HeadsBelow(lists, p + 1) && fresh(lists.All() - old(lists.All()))
  {
    lists.NewHead(ReadyRing(p));
  }

  /** The loop of sk_system_scheduler_init. */
  method ReadyHeads(lists: ListTable)
    requires lists.Valid() && HeadsBelow(lists, 0)
    modifies lists
    ensures lists.Valid() && HeadsBelow(lists, PRIORITY_MAX) && fresh(lists.All() - old(lists.All()))
  {
    for p := 0 to PRIORITY_MAX
      invariant lists.Valid() && HeadsBelow(lists, p) && fresh(lists.All() - old(lists.All()))
    {
      AddReadyHead(lists, p);
    }
  }

  lemma LeavesOff(k: Kernel, idle: Tid, to: Tid)
    requires Core(k, idle) && !OnWait(k, k.current)
    ensures Off(k.(current := to), k.current)
  {
    CurrentOff(k, idle);
    assert forall r :: On(k.(current := to), r) == On(k, r);
  }

  lemma NewcomerOff(k: Kernel, k': Kernel, t: Tid)
    requires RingsOk(k) && t !in k.threads && k'.rings == k.rings
    ensures Off(k', t)
  {
    forall r ensures t !in On(k', r) { assert t in On(k, r) ==> Belongs(k, r, t); }
  }

  class LinkedScheduler {
    const lists: ListTable

    var threads: map<Tid, Thread>
    var group: nat
    var current: Tid

    ghost const depth: nat   // large enough that Covered(depth) stays closed

    ghost function K(): Kernel
      reads this, lists
    {
      Kernel(threads, lists.rings, current)
    }

    ghost predicate Known()
      reads this`threads, lists
    {
      KnownIn(threads, lists.node, lists.head)
    }

    /** The invariant of the nodes. The recursion adds nothing to it: Covered(d) is the same for every d (Uncover). It
        only keeps the solver from opening the definition in proofs that pass it on as a whole. */
    ghost predicate Covered(d: nat)
      reads this`threads, lists, lists.All()
      decreases d
    {
      if d == 0 then lists.Valid() && Known() else Covered(d - 1)
    }

    ghost predicate Valid()
      reads this`threads, lists, lists.All()
    {
      depth >= 5 && Covered(depth)
    }

    lemma {:induction false} Uncover(d: nat)
      ensures Covered(d) <==> lists.Valid() && Known()
      decreases d
    {
      if d > 0 { Uncover(d - 1); }
    }

    lemma EmptyLists()
      requires threads == map[] && group == 0 && forall r :: r in lists.rings ==> lists.rings[r] == []
      ensures BootInv(K()) && S.GroupOk(K(), group)
    {
      forall p: nat | p < PRIORITY_MAX ensures S.BitOk(K(), group, p) { ZeroHasNoBits(p); }
    }

    /** The scheduler over empty ready lists. */
    constructor (lists: ListTable, nobody: Tid)
      requires lists.Valid() && HeadsBelow(lists, PRIORITY_MAX)
      ensures Valid() && BootInv(K()) && S.GroupOk(K(), group) && this.lists == lists && threads == map[]
      ensures current == nobody
    {
      this.lists := lists;
      threads, group, current, depth := map[], 0, nobody, 5;
      new;
      Uncover(depth);
      EmptyLists();
    }

    /** __ipc_object_init */
    method NewObject(o: nat)
      requires Valid() && WaitRing(o) !in lists.head
      modifies lists
      ensures Valid() && WaitRing(o) in lists.head && forall r :: On(K(), r) == On(old(K()), r)
      ensures fresh(lists.All() - old(lists.All()))
    {
      Uncover(depth);
      assert WaitRing(o) !in lists.rings;
      lists.NewHead(WaitRing(o));
      Uncover(depth);
    }

    method AddNode(t: Tid, pri: nat, ghost threads': map<Tid, Thread>)
      requires lists.Valid() && Known() && t !in threads && pri < PRIORITY_MAX
      requires threads'.Keys == threads.Keys + {t} && threads'[t].pri == pri
      requires forall u :: u in threads ==> threads'[u] == threads[u]
      modifies lists
      ensures lists.Valid() && lists.rings == old(lists.rings) && KnownIn(threads', lists.node, lists.head)
      ensures t in lists.node && fresh(lists.node[t]) && lists.All() == old(lists.All()) + {lists.node[t]}
    {
      lists.NewNode(t, pri);
    }

    /** sk_list_init of the tlist in __thread_init, with the fields that matter here. */
    method NewThread(t: Tid, pri: nat, tick: nat)
      requires Valid() && t !in threads && pri < PRIORITY_MAX
      modifies this`threads, lists
      ensures Valid() && K() == old(K()).(threads := old(threads)[t := Thread(Stat(Init, false), pri, tick, tick)])
      ensures t in lists.node && fresh(lists.node[t]) && lists.All() == old(lists.All()) + {lists.node[t]}
    {
      Uncover(depth);
      var threads' := threads[t := Thread(Stat(Init, false), pri, tick, tick)];
      AddNode(t, pri, threads');
      threads := threads';
      Uncover(depth);
    }

    method SetGroup(g: nat)
      requires Valid()
      modifies this`group
      ensures Valid() && group == g && K() == old(K())
    {
      Uncover(depth);
      group := g;
      Uncover(depth);
    }

    method SetState(t: Tid, s: Stat)
      requires Valid() && t in threads
      modifies this`threads
      ensures Valid() && K() == SetStat(old(K()), t, s)
    {
      Uncover(depth);
      threads := threads[t := threads[t].(stat := s)];
      Uncover(depth);
    }

    lemma OffAlone(t: Tid)
      requires Off(K(), t)
      ensures Alone(lists.rings, t)
    {
      forall r | r in lists.rings ensures t !in lists.rings[r] { assert t !in On(K(), r); }
    }

    /** sk_list_add_tail to the ready list of a thread on no list. */
    method LinkReady(t: Tid)
      requires Valid() && t in threads && Off(K(), t)
      modifies lists`rings, lists.All()
      ensures Valid() && var r := ReadyRing(threads[t].pri); K() == SetRing(old(K()), r, On(old(K()), r) + [t])
    {
      Uncover(depth);
      OffAlone(t);
      lists.LinkTail(ReadyRing(threads[t].pri), t);
      Uncover(depth);
    }

    /** sk_schedule_insert_thread of a thread whose node is alone. */
    method InsertThread(t: Tid)
      requires Valid() && t in threads && threads[t].pri < PRIORITY_MAX && Off(K(), t) && group < Pow2(32)
      requires forall p: nat :: p < PRIORITY_MAX && p != threads[t].pri ==> S.BitOk(K(), group, p)
      requires t == current ==> S.BitOk(K(), group, threads[t].pri)
      modifies this`threads, this`group, lists`rings, lists.All()
      ensures Valid() && K() == Insert(old(K()), t) && S.GroupOk(K(), group)
    {
      S.GroupAfterInsert(K(), group, t);
      if t == current {
        SetState(t, RUNNING);
      } else {
        SetState(t, READY);
        assert forall r :: On(K(), r) == On(old(K()), r);
        LinkReady(t);
        SetGroup(Or(group, S.Mask(threads[t].pri)));
      }
    }

    /** __thread_init with its sk_schedule_insert_thread. */
    method CreateThreadOf(t: Tid, pri: nat, tick: nat)
      requires Valid() && RingsOk(K()) && S.GroupOk(K(), group) && t !in threads && t != current && pri < PRIORITY_MAX
      modifies this`threads, this`group, lists, lists.All()
      ensures Valid() && K() == CreateThread(old(K()), t, pri, tick) && S.GroupOk(K(), group)
      ensures t in lists.node && fresh(lists.node[t]) && lists.All() == old(lists.All()) + {lists.node[t]}
    {
      ghost var k0 := K();
      NewThread(t, pri, tick);
      S.GroupSame(k0, K(), group);
      NewcomerOff(k0, K(), t);
      InsertThread(t);
    }

    /** sk_thread_create and sk_thread_startup before the start. */
    method BootThreadOf(t: Tid, pri: nat, tick: nat)
      requires Valid() && BootInv(K()) && S.GroupOk(K(), group) && t !in threads && t != current && pri < PRIORITY_MAX
      modifies this`threads, this`group, lists, lists.All()
      ensures Valid() && BootInv(K()) && K() == BootThread(old(K()), t, pri, tick) && S.GroupOk(K(), group)
      ensures t in lists.node && fresh(lists.node[t]) && lists.All() == old(lists.All()) + {lists.node[t]}
    {
      BootThreadKeeps(K(), t, pri, tick);
      CreateThreadOf(t, pri, tick);
      S.GroupSame(K(), SetStat(K(), t, SUSPEND), group);
      SetState(t, SUSPEND);
    }

    // ---- single list operations ----

    /** sk_list_del on the node of a thread, whatever list it is on. */
    method DeleteNode(t: Tid)
      requires Valid() && t in threads
      modifies lists`rings, lists.All()
      ensures Valid() && K() == Detach(old(K()), t)
    {
      Uncover(depth);
      lists.Unlink(t);
      Uncover(depth);
    }

    /** sk_list_empty on a ready list. */
    method NoneReady(p: nat) returns (e: bool)
      requires Valid() && p < PRIORITY_MAX
      ensures Valid() && (e <==> On(K(), ReadyRing(p)) == [])
    {
      Uncover(depth);
      e := lists.IsEmpty(ReadyRing(p));
      Uncover(depth);
    }

    /** sk_list_entry of the first node of a ready list. */
    method FirstReady(p: nat) returns (t: Tid)
      requires Valid() && p < PRIORITY_MAX && On(K(), ReadyRing(p)) != []
      ensures Valid() && t == On(K(), ReadyRing(p))[0]
    {
      Uncover(depth);
      t := lists.First(ReadyRing(p));
      Uncover(depth);
    }

    method LinkSorted(r: Ring)
      requires lists.Valid() && Known() && r in lists.rings && current in threads && Alone(lists.rings, current)
      modifies lists`rings, lists.All()
      ensures lists.Valid() && forall x :: x in old(lists.rings)[r] ==> x in threads
      ensures lists.rings == old(lists.rings)[r := PrioInsert(threads, old(lists.rings)[r], current)]
    {
      ghost var w := lists.rings[r];
      forall x | x in w ensures x in threads { assert x in lists.node; }
      ghost var n := lists.LinkByPriority(r, current);
      forall i | 0 <= i < |w| ensures w[i] in w && lists.node[w[i]].pri == threads[w[i]].pri { }
      S.PrioInsertAt(threads, w, current, n);
    }

    method LinkRaw(r: Ring, prio: bool)
      requires lists.Valid() && Known() && r in lists.rings && current in threads && Alone(lists.rings, current)
      modifies lists`rings, lists.All()
      ensures lists.Valid() && forall x :: x in old(lists.rings)[r] ==> x in threads
      ensures lists.rings == old(lists.rings)[r := if prio then PrioInsert(threads, old(lists.rings)[r], current)
                                                    else old(lists.rings)[r] + [current]]
    {
      if prio {
        LinkSorted(r);
      } else {
        forall x | x in lists.rings[r] ensures x in threads { assert x in lists.node; }
        lists.LinkTail(r, current);
      }
    }

    /** The list part of __ipc_list_suspend. */
    method LinkWaiter(o: nat, prio: bool)
      requires Valid() && WaitRing(o) in lists.head && current in threads && Off(K(), current)
      modifies lists`rings, lists.All()
      ensures forall x :: x in On(old(K()), WaitRing(o)) ==> x in old(threads)
      ensures Valid() && K() == SetRing(old(K()), WaitRing(o), Joined(old(K()), o, prio))
    {
      Uncover(depth);
      OffAlone(current);
      LinkRaw(WaitRing(o), prio);
      Uncover(depth);
    }

    // ---- the scheduler's operations ----

    /** sk_schedule_remove_thread */
    method RemoveThread(t: Tid)
      requires Valid() && t in threads && RingsOk(K()) && S.GroupOk(K(), group)
      modifies this`group, lists`rings, lists.All()
      ensures Valid() && K() == Detach(old(K()), t) && S.GroupOk(K(), group)
    {
      S.GroupAfterDetach(K(), group, t);
      DeleteNode(t);
      var empty := NoneReady(threads[t].pri);
      if empty { SetGroup(And(group, Not(S.Mask(threads[t].pri), 32))); }
    }

    /** The body shared by sk_thread_resume and sk_thread_timeout. */
    method Requeue(t: Tid)
      requires Valid() && t in threads && RingsOk(K()) && S.GroupOk(K(), group)
      requires t == current ==> !OnReady(K(), t)
      modifies this`threads, this`group, lists`rings, lists.All()
      ensures Valid() && K() == WakeThread(old(K()), t) && S.GroupOk(K(), group)
    {
      S.OtherBits(K(), group, t);
      DetachKeeps(K(), t);
      DeleteNode(t);
      InsertThread(t);
    }

    /** sk_thread_suspend of the current thread. */
    method SuspendSelf(ghost idle: Tid)
      requires Valid() && KInv(K(), idle) && S.GroupOk(K(), group)
      requires current != idle && threads[current].stat.base == Running
      modifies this`threads, this`group, lists`rings, lists.All()
      ensures Valid() && K() == SuspendThread(old(K()), current) && S.GroupOk(K(), group)
    {
      RemoveThread(current);
      S.GroupSame(K(), SetStat(K(), current, SUSPEND), group);
      SetState(current, SUSPEND);
    }

    /** __ipc_list_suspend of the current thread. */
    method ListSuspend(o: nat, prio: bool, ghost idle: Tid)
      requires Valid() && KInv(K(), idle) && S.GroupOk(K(), group) && WaitRing(o) in lists.head
      requires current != idle && threads[current].stat.base == Running
      modifies this`threads, this`group, lists`rings, lists.All()
      ensures forall x :: x in On(old(K()), WaitRing(o)) ==> x in old(threads)
      ensures Valid() && K() == WaitOn(old(K()), o, prio) && S.GroupOk(K(), group)
    {
      ghost var k0 := K();
      WaitOnIs(k0, idle, o, prio);
      SuspendCurrent(k0, idle);
      ghost var k1 := SuspendThread(k0, current);
      SuspendSelf(idle);
      LinkWaiter(o, prio);
      S.GroupSame(k1, K(), group);
      PrioInsertStat(k0.threads, k1.threads, On(k0, WaitRing(o)), current);
    }

    /** The best ready priority. */
    method Best() returns (p: nat)
      requires Valid() && S.GroupOk(K(), group) && group != 0
      ensures Valid() && p < PRIORITY_MAX && Highest(K()) == Some(p)
    {
      Uncover(depth);
      p := S.BestReady(group, K());
      Uncover(depth);
    }

    /** __schedule_get_hp_thread and the choice of sk_schedule. */
    method Choose(ghost idle: Tid) returns (to: Tid)
      requires Valid() && Core(K(), idle) && S.GroupOk(K(), group)
      ensures Valid() && to == Next(K())
    {
      S.NoneReadyIff(K(), group);
      if group == 0 { return current; }
      var p := Best();
      if threads[current].stat == RUNNING && threads[current].pri <= p { return current; }
      to := FirstReady(p);
    }

    method SetCurrent(t: Tid)
      requires Valid()
      modifies this`current
      ensures Valid() && K() == old(K()).(current := t)
    {
      Uncover(depth);
      current := t;
      Uncover(depth);
    }

    /** `to` becomes the running thread. */
    method Arrive(to: Tid)
      requires Valid() && RingsOk(K()) && S.GroupOk(K(), group) && to in threads
      modifies this`threads, this`group, this`current, lists`rings, lists.All()
      ensures Valid() && K() == SetStat(Detach(old(K()).(current := to), to), to, RUNNING) && S.GroupOk(K(), group)
    {
      S.GroupSame(K(), K().(current := to), group);
      RingsSame(K(), K().(current := to));
      SetCurrent(to);
      RemoveThread(to);
      S.GroupSame(K(), SetStat(K(), to, RUNNING), group);
      SetState(to, RUNNING);
    }

    /** sk_system_scheduler_start, once sk_thread_idle_init was called. */
    method StartScheduler(ghost idle: Tid)
      requires Valid() && BootInv(K()) && S.GroupOk(K(), group) && HasIdle(K(), idle)
      modifies this`threads, this`group, this`current, lists`rings, lists.All()
      ensures Valid() && S.Started(old(K()), K()) && KInv(K(), idle) && S.GroupOk(K(), group)
    {
      StartKeeps(K(), idle);
      S.NoneReadyIff(K(), group);
      var p := Best();
      var to := FirstReady(p);
      Arrive(to);
    }

    /** The part of sk_schedule that queues the leaving thread. */
    method Leave(to: Tid, ghost idle: Tid)
      requires Valid() && Core(K(), idle) && S.GroupOk(K(), group) && to in threads && to != current && OnReady(K(), to)
      requires StaysRunnable(K()) ==> threads[current].stat.base != Close && !OnWait(K(), current)
      modifies this`threads, this`group, this`current, lists`rings, lists.All()
      ensures Valid() && S.GroupOk(K(), group) && RingsOk(K()) && to in threads
      ensures SetStat(Detach(K(), to), to, RUNNING) == SwitchTo(old(K()), to)
    {
      ghost var k0, k1 := K(), K().(current := to);
      ghost var k2 := LeaveKeeps(k0, idle, to);
      S.GroupSame(k0, k1, group);
      if StaysRunnable(k0) { LeavesOff(k0, idle, to); }
      var from := current;
      SetCurrent(to);
      if threads[from].stat != SUSPEND && threads[from].stat != CLOSE { InsertThread(from); }
    }

    /** The part of sk_schedule that leaves the current thread for `to`. */
    method Switch(to: Tid, ghost idle: Tid)
      requires Valid() && Core(K(), idle) && S.GroupOk(K(), group) && to in threads && to != current && OnReady(K(), to)
      requires StaysRunnable(K()) ==> threads[current].stat.base != Close && !OnWait(K(), current)
      modifies this`threads, this`group, this`current, lists`rings, lists.All()
      ensures Valid() && K() == SwitchTo(old(K()), to) && S.GroupOk(K(), group)
    {
      Leave(to, idle);
      RemoveThread(to);
      S.GroupSame(K(), SetStat(K(), to, RUNNING), group);
      SetState(to, RUNNING);
    }

    /** sk_schedule */
    method Reschedule(ghost idle: Tid)
      requires Valid() && Core(K(), idle) && S.GroupOk(K(), group)
      requires StaysRunnable(K()) ==> threads[current].stat.base != Close && !OnWait(K(), current)
      modifies this`threads, this`group, this`current, lists`rings, lists.All()
      ensures Valid() && S.Scheduled(old(K()), K()) && KInv(K(), idle) && S.GroupOk(K(), group)
    {
      NextKnown(K(), idle);
      ScheduleKeeps(K(), idle);
      var to := Choose(idle);
      if to != current { Switch(to, idle); }
    }
  }

  /** sk_system_scheduler_init */
  method SchedulerInit(nobody: Tid) returns (s: LinkedScheduler)
    ensures fresh(s) && fresh(s.lists) && fresh(s.lists.All())
    ensures s.Valid() && BootInv(s.K()) && S.GroupOk(s.K(), s.group) && s.threads == map[] && s.current == nobody
  {
    var lists := new ListTable();
    ReadyHeads(lists);
    s := new LinkedScheduler(lists, nobody);
  }

  /** A new system with one thread. */
  method BootApp(nobody: Tid, app: Tid, pri: nat, tick: nat) returns (s: LinkedScheduler)
    requires nobody != app && pri < PRIORITY_MAX
    ensures fresh(s) && fresh(s.lists) && fresh(s.lists.All()) && s.Valid() && S.GroupOk(s.K(), s.group)
    ensures Sole(s.K(), app, pri, tick) && s.current == nobody
  {
    s := SchedulerInit(nobody);
    ghost var k0 := s.K();
    s.BootThreadOf(app, pri, tick);
    BootFirst(k0, app, pri, tick);
  }

  /** The application's thread and the idle thread. */
  method BootSystem(nobody: Tid, app: Tid, pri: nat, tick: nat, idle: Tid, idleTick: nat)
    returns (s: LinkedScheduler)
    requires nobody != app && nobody != idle && app != idle && pri < PRIORITY_MAX - 1
    ensures fresh(s) && fresh(s.lists) && fresh(s.lists.All()) && s.Valid() && S.GroupOk(s.K(), s.group)
    ensures Foremost(s.K(), app, pri, tick, idle)
  {
    s := BootApp(nobody, app, pri, tick);
    ghost var k0 := s.K();
    s.BootThreadOf(idle, PRIORITY_MAX - 1, idleTick);
    BootIdle(k0, app, pri, tick, idle, idleTick);
  }

  /** From sk_system_scheduler_init to sk_system_scheduler_start: the application runs. */
  method StartSystem(nobody: Tid, app: Tid, pri: nat, tick: nat, idle: Tid, idleTick: nat)
    returns (s: LinkedScheduler)
    requires nobody != app && nobody != idle && app != idle && pri < PRIORITY_MAX - 1
    ensures fresh(s) && fresh(s.lists) && fresh(s.lists.All())
    ensures s.Valid() && KInv(s.K(), idle) && S.GroupOk(s.K(), s.group)
    ensures s.current == app && s.threads[app] == Thread(RUNNING, pri, tick, tick) && OnReady(s.K(), idle)
  {
    s := BootSystem(nobody, app, pri, tick, idle, idleTick);
    AppStarts(s.K(), app, pri, tick, idle);
    ghost var nodes := s.lists.All();
    s.StartScheduler(idle);
    assert s.lists.All() == nodes;
  }
}
