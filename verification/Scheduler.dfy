/** The scheduler as the kernel runs it: ready lists with a 32-bit word that marks the non-empty ones.
    The class refines the model of module Kernel, where the word does not exist. */
module Scheduler {
  import opened Options
  import opened Bits
  import opened FindFirstSet
  import opened Seqs
  import opened Kernel
  import opened KernelInvariant
  import opened KernelSteps
  import opened KernelRuns
  import opened Boot

  ghost predicate BitOk(k: Kernel, group: nat, p: nat)
  {
    Bit(group, p) <==> On(k, ReadyRing(p)) != []
  }

  /** Bit p of sk_thread_ready_prio_group is set exactly when ready list p is non-empty. */
  ghost predicate GroupOk(k: Kernel, group: nat)
  {
    group < Pow2(32) && forall p: nat :: p < PRIORITY_MAX ==> BitOk(k, group, p)
  }

  /** thread->number_mask */
  function Mask(pri: nat): (m: nat)
    requires pri < PRIORITY_MAX
    ensures m < Pow2(32)
  {
    Pow2Monotone(pri + 1, 32);
    Pow2(pri)
  }

  lemma SetMask(group: nat, pri: nat, q: nat)
    requires group < Pow2(32) && pri < PRIORITY_MAX
    ensures Or(group, Mask(pri)) < Pow2(32)
    ensures Bit(Or(group, Mask(pri)), q) <==> Bit(group, q) || q == pri
  {
    OrBound(group, Mask(pri), 32);
    OrBit(group, Mask(pri), q);
    Pow2Bit(pri, q);
  }

  lemma ClearMask(group: nat, pri: nat, q: nat)
    requires group < Pow2(32) && pri < PRIORITY_MAX && q < PRIORITY_MAX
    ensures And(group, Not(Mask(pri), 32)) < Pow2(32)
    ensures Bit(And(group, Not(Mask(pri), 32)), q) <==> Bit(group, q) && q != pri
  {
    AndBound(group, Not(Mask(pri), 32));
    AndBit(group, Not(Mask(pri), 32), q);
    NotBit(Mask(pri), 32, q);
    Pow2Bit(pri, q);
  }

  lemma GroupSame(k: Kernel, k': Kernel, group: nat)
    requires GroupOk(k, group) && forall p: nat :: On(k', ReadyRing(p)) == On(k, ReadyRing(p))
    ensures GroupOk(k', group)
  {
    forall p: nat | p < PRIORITY_MAX ensures BitOk(k', group, p) { assert BitOk(k, group, p); }
  }

  /** Taking a thread off the ready list of its priority clears the bit if the list runs empty. */
  lemma GroupAfterDetach(k: Kernel, group: nat, t: Tid)
    requires GroupOk(k, group) && RingsOk(k) && t in k.threads
    ensures var k' := Detach(k, t); var pri := k.threads[t].pri;
            GroupOk(k', if On(k', ReadyRing(pri)) == [] then And(group, Not(Mask(pri), 32)) else group)
  {
    var k', pri := Detach(k, t), k.threads[t].pri;
    var g := if On(k', ReadyRing(pri)) == [] then And(group, Not(Mask(pri), 32)) else group;
    ClearMask(group, pri, pri);
    forall p: nat | p < PRIORITY_MAX ensures BitOk(k', g, p) {
      assert BitOk(k, group, p);
      ClearMask(group, pri, p);
      DetachOn(k, t, ReadyRing(p));
      if p != pri {
        assert t in On(k, ReadyRing(p)) ==> Belongs(k, ReadyRing(p), t);
        WithoutAbsent(On(k, ReadyRing(p)), t);
      } else {
        WithoutSubset(On(k, ReadyRing(p)), t);
      }
    }
  }

  /** Queueing a thread sets the bit of its priority; the bit itself may have been stale before. */
  lemma GroupAfterInsert(k: Kernel, group: nat, t: Tid)
    requires t in k.threads && k.threads[t].pri < PRIORITY_MAX && group < Pow2(32)
    requires forall p: nat :: p < PRIORITY_MAX && p != k.threads[t].pri ==> BitOk(k, group, p)
    requires t == k.current ==> BitOk(k, group, k.threads[t].pri)
    ensures GroupOk(Insert(k, t), if t == k.current then group else Or(group, Mask(k.threads[t].pri)))
  {
    var pri := k.threads[t].pri;
    var k', g := Insert(k, t), if t == k.current then group else Or(group, Mask(pri));
    SetMask(group, pri, pri);
    forall p: nat | p < PRIORITY_MAX ensures BitOk(k', g, p) {
      SetMask(group, pri, p);
      assert p != pri ==> BitOk(k, group, p);
    }
  }

  /** __schedule_get_hp_thread: the lowest set bit is the best ready priority. */
  lemma FfsFindsHighest(k: Kernel, group: nat)
    requires GroupOk(k, group)
    ensures group == 0 <==> Highest(k).None?
    ensures group != 0 ==> 1 <= SkFfs(group) <= 32 && Highest(k) == Some(SkFfs(group) - 1)
  {
    FfsIsLowestBit(group);
    if group != 0 {
      var p := SkFfs(group) - 1;
      assert BitOk(k, group, p);
      forall q: nat | q < p ensures On(k, ReadyRing(q)) == [] { assert BitOk(k, group, q); }
      TopIs(k, p, 0);
    } else if Highest(k).Some? {
      assert BitOk(k, group, Highest(k).value);
      ZeroHasNoBits(Highest(k).value);
    }
  }

  /** The priority __schedule_get_hp_thread looks up. */
  method BestReady(group: nat, ghost k: Kernel) returns (p: nat)
    requires GroupOk(k, group) && group != 0
    ensures p < PRIORITY_MAX && Highest(k) == Some(p)
  {
    FfsFindsHighest(k, group);
    p := SkFfs(group) - 1;
  }

  /** Some bit is set exactly when some thread is ready. */
  lemma NoneReadyIff(k: Kernel, group: nat)
    requires GroupOk(k, group)
    ensures group == 0 <==> Highest(k).None?
  {
    FfsFindsHighest(k, group);
  }

  /** k' is what sk_schedule makes of k. */
  ghost predicate Scheduled(k: Kernel, k': Kernel)
  {
    k.current in k.threads && Next(k) in k.threads && k' == Schedule(k)
  }

  ghost predicate Started(k: Kernel, k': Kernel)
  {
    Highest(k).Some? && On(k, ReadyRing(Highest(k).value))[0] in k.threads && k' == StartFirst(k)
  }

  /** The bits of the other priorities survive sk_list_del. */
  lemma OtherBits(k: Kernel, group: nat, t: Tid)
    requires GroupOk(k, group) && RingsOk(k) && t in k.threads
    ensures forall p: nat :: p < PRIORITY_MAX && p != k.threads[t].pri ==> BitOk(Detach(k, t), group, p)
    ensures !OnReady(k, t) ==> BitOk(Detach(k, t), group, k.threads[t].pri)
  {
    forall p: nat | p < PRIORITY_MAX && (p != k.threads[t].pri || !OnReady(k, t))
      ensures BitOk(Detach(k, t), group, p)
    {
      assert BitOk(k, group, p);
      DetachOn(k, t, ReadyRing(p));
      assert t in On(k, ReadyRing(p)) ==> Belongs(k, ReadyRing(p), t);
      WithoutAbsent(On(k, ReadyRing(p)), t);
    }
  }

  /** A thread that suspended itself and was switched out is on no list. */
  lemma SleeperOff(k: Kernel, idle: Tid)
    requires KInv(k, idle) && k.threads[k.current].stat == SUSPEND && Off(k, k.current)
    ensures Next(k) in k.threads && Next(k) != k.current
    ensures var k' := Schedule(k);
            k'.current != k.current && k'.threads[k.current].stat == SUSPEND && Off(k', k.current)
  {
    NextKnown(k, idle);
    var k1, to := k.(current := Next(k)), Next(k);
    forall r ensures k.current !in On(Detach(k1, to), r) {
      DetachOn(k1, to, r);
      WithoutSubset(On(k, r), to);
    }
    assert forall r :: On(Schedule(k), r) == On(Detach(k1, to), r);
  }

  /** Where the loop stops is where PrioInsert inserts. */
  lemma PrioInsertAt(threads: map<Tid, Thread>, w: seq<Tid>, t: Tid, n: nat)
    requires t in threads && (forall x :: x in w ==> x in threads) && n <= |w|
    requires forall i :: 0 <= i < n ==> threads[w[i]].pri <= threads[t].pri
    requires n < |w| ==> threads[t].pri < threads[w[n]].pri
    ensures PrioInsert(threads, w, t) == w[..n] + [t] + w[n..]
  {
    var m := PrioInsertSplits(threads, w, t);
    assert m == n;
  }

  class Scheduler {
    var threads: map<Tid, Thread>
    var rings: map<Ring, seq<Tid>>
    var group: nat                 // sk_thread_ready_prio_group
    var current: Tid               // current_thread

    ghost const idle: Tid

    ghost function K(): Kernel
      reads this
    {
      Kernel(threads, rings, current)
    }

    ghost predicate Valid()
      reads this
    {
      KInv(K(), idle) && GroupOk(K(), group)
    }

    /** Before sk_system_scheduler_start. */
    ghost predicate Booting()
      reads this
    {
      BootInv(K()) && GroupOk(K(), group)
    }

    /** sk_system_scheduler_init; `idle` will be the idle thread, `nobody` stands for SK_NULL. */
    constructor (nobody: Tid, ghost idle: Tid)
      ensures Booting() && K() == Empty(nobody) && this.idle == idle
    {
      threads, rings, current := map[], map[], nobody;
      group := 0;
      this.idle := idle;
      new;
      EmptyBoots(nobody);
      forall p: nat | p < PRIORITY_MAX ensures BitOk(K(), group, p) { ZeroHasNoBits(p); }
    }

    /** sk_schedule_insert_thread */
    method InsertThread(t: Tid)
      requires t in threads && threads[t].pri < PRIORITY_MAX && group < Pow2(32)
      requires forall p: nat :: p < PRIORITY_MAX && p != threads[t].pri ==> BitOk(K(), group, p)
      requires t == current ==> BitOk(K(), group, threads[t].pri)
      modifies this`threads, this`rings, this`group
      ensures K() == Insert(old(K()), t) && GroupOk(K(), group)
    {
      GroupAfterInsert(K(), group, t);
      if t == current {
        threads := threads[t := threads[t].(stat := RUNNING)];
        return;
      }
      threads := threads[t := threads[t].(stat := READY)];
      var r := ReadyRing(threads[t].pri);
      rings := rings[r := (if r in rings then rings[r] else []) + [t]];
      group := Or(group, Mask(threads[t].pri));
    }

    /** The list and state part of __thread_init, before the start or on a running system. */
    method CreateThreadOf(t: Tid, pri: nat, tick: nat)
      requires (Valid() || Booting()) && t !in threads && t != current && pri < PRIORITY_MAX
      modifies this
      ensures (old(Valid()) ==> Valid()) && (old(Booting()) ==> Booting())
      ensures K() == CreateThread(old(K()), t, pri, tick)
    {
      ghost var k0 := K();
      ghost var k1 := K().(threads := threads[t := Thread(Stat(Init, false), pri, tick, tick)]);
      GroupSame(K(), k1, group);
      threads := threads[t := Thread(Stat(Init, false), pri, tick, tick)];
      assert K() == k1;
      InsertThread(t);
      if KInv(k0, idle) { CreateKeeps(k0, idle, t, pri, tick); }
      if BootInv(k0) { BootCreateKeeps(k0, t, pri, tick); }
    }

    method DeleteNode(t: Tid)
      modifies this`rings
      ensures K() == Detach(old(K()), t)
    {
      rings := map r | r in rings :: Without(rings[r], t);
    }

    /** sk_schedule_remove_thread */
    method RemoveThread(t: Tid)
      requires t in threads && RingsOk(K()) && GroupOk(K(), group)
      modifies this`rings, this`group
      ensures K() == Detach(old(K()), t) && GroupOk(K(), group)
    {
      GroupAfterDetach(K(), group, t);
      DeleteNode(t);
      var r := ReadyRing(threads[t].pri);
      if r !in rings || rings[r] == [] {
        group := And(group, Not(Mask(threads[t].pri), 32));
      }
    }

    method Arrive(to: Tid)
      requires RingsOk(K()) && GroupOk(K(), group) && to in threads
      modifies this
      ensures K() == SetStat(Detach(old(K()).(current := to), to), to, RUNNING) && GroupOk(K(), group)
    {
      GroupSame(K(), K().(current := to), group);
      RingsSame(K(), K().(current := to));
      current := to;
      RemoveThread(to);
      GroupSame(K(), SetStat(K(), to, RUNNING), group);
      threads := threads[to := threads[to].(stat := RUNNING)];
    }

    /** sk_system_scheduler_start, once sk_thread_idle_init was called. */
    method StartScheduler()
      requires Booting() && HasIdle(K(), idle)
      modifies this
      ensures Valid() && threads[current].stat == RUNNING && Started(old(K()), K())
    {
      StartKeeps(K(), idle);
      NoneReadyIff(K(), group);
      var p := BestReady(group, K());
      Arrive(rings[ReadyRing(p)][0]);
    }

    /** The part of sk_schedule that leaves the current thread for `to`. */
    method Switch(to: Tid)
      requires Core(K(), idle) && GroupOk(K(), group) && to in threads && to != current && OnReady(K(), to)
      requires StaysRunnable(K()) ==> threads[current].stat.base != Close && !OnWait(K(), current)
      modifies this
      ensures K() == SwitchTo(old(K()), to) && GroupOk(K(), group)
    {
      ghost var k2 := LeaveKeeps(K(), idle, to);
      var from := current;
      GroupSame(K(), K().(current := to), group);
      current := to;
      if threads[from].stat != SUSPEND && threads[from].stat != CLOSE {
        InsertThread(from);
      }
      RemoveThread(to);
      GroupSame(K(), SetStat(K(), to, RUNNING), group);
      threads := threads[to := threads[to].(stat := RUNNING)];
    }

    /** The decision of sk_schedule. */
    method Choose() returns (to: Tid)
      requires Core(K(), idle) && GroupOk(K(), group)
      ensures to == Next(K())
    {
      NoneReadyIff(K(), group);
      if group == 0 { return current; }
      var p := BestReady(group, K());
      to := rings[ReadyRing(p)][0];
      if threads[current].stat == RUNNING && threads[current].pri <= p {
        to := current;
      }
    }

    /** sk_schedule */
    method Reschedule()
      requires Core(K(), idle) && GroupOk(K(), group)
      requires StaysRunnable(K()) ==> threads[current].stat.base != Close && !OnWait(K(), current)
      modifies this
      ensures Valid() && Scheduled(old(K()), K())
      ensures threads[current].stat.base == Running
    {
      NextKnown(K(), idle);
      ScheduleKeeps(K(), idle);
      var to := Choose();
      if to != current { Switch(to); }
    }

    /** sk_thread_suspend */
    method SuspendThreadOf(t: Tid) returns (ok: bool)
      requires Valid() && t in threads && t != idle
      modifies this
      ensures Valid() && K() == SuspendThread(old(K()), t)
      ensures ok <==> old(K()).threads[t].stat.base in {Ready, Running}
    {
      SuspendKeeps(K(), idle, t);
      if threads[t].stat.base !in {Ready, Running} { return false; }
      RemoveThread(t);
      GroupSame(K(), SetStat(K(), t, SUSPEND), group);
      threads := threads[t := threads[t].(stat := SUSPEND)];
      return true;
    }

    /** The body shared by sk_thread_resume and sk_thread_timeout: sk_list_del leaves the bit of the thread's own
        priority stale for a moment, until sk_schedule_insert_thread sets it. */
    method Requeue(t: Tid)
      requires Valid() && t in threads && threads[t].stat.base != Close
      modifies this
      ensures Valid() && K() == WakeThread(old(K()), t)
    {
      WakeKeeps(K(), idle, t);
      OtherBits(K(), group, t);
      DeleteNode(t);
      InsertThread(t);
    }

    /** sk_thread_resume */
    method ResumeThreadOf(t: Tid) returns (ok: bool)
      requires Valid() && t in threads
      modifies this
      ensures Valid() && K() == ResumeThread(old(K()), t) && (ok <==> old(K()).threads[t].stat == SUSPEND)
    {
      if threads[t].stat != SUSPEND { return false; }
      Requeue(t);
      return true;
    }

    /** sk_thread_timeout */
    method Timeout(t: Tid)
      requires Valid() && t in threads && threads[t].stat.base != Close
      modifies this
      ensures Valid() && Scheduled(WakeThread(old(K()), t), K())
    {
      Requeue(t);
      KInvSchedulable(K(), idle);
      Reschedule();
    }

    /** sk_thread_startup; before the start it only marks the thread. */
    method Startup(t: Tid)
      requires t in threads
      requires Booting() || (Valid() && threads[t].stat.base != Close && !(t == idle == current))
      modifies this
      ensures old(Booting()) ==> Booting() && K() == SetStat(old(K()), t, SUSPEND)
      ensures old(Valid()) ==> Valid() && Scheduled(SetStat(old(K()), t, SUSPEND), K())
    {
      ghost var k0 := K();
      GroupSame(K(), SetStat(K(), t, SUSPEND), group);
      threads := threads[t := threads[t].(stat := SUSPEND)];
      if current in threads {
        StartupMarkKeeps(k0, idle, t);
        KInvSchedulable(K(), idle);
        Reschedule();
      } else {
        BootMarkKeeps(k0, t);
      }
    }

    /** sk_thread_sleep without its timer: the sleeping thread is on no list, and another one runs. */
    method Sleep()
      requires Valid() && current != idle && threads[current].stat.base == Running
      modifies this
      ensures Valid() && Scheduled(SuspendThread(old(K()), old(current)), K())
      ensures current != old(current) && threads[old(current)].stat == SUSPEND && Off(K(), old(current))
    {
      SuspendCurrent(K(), idle);
      ghost var k1 := SuspendThread(K(), current);
      SleeperOff(k1, idle);
      var ok := SuspendThreadOf(current);
      Reschedule();
    }

    /** __thread_exit without cleanup and timer. */
    method ThreadExit()
      requires Valid() && current != idle && threads[current].stat.base == Running
      modifies this
      ensures Valid() && Scheduled(CloseCurrent(old(K())), K())
    {
      CloseKeeps(K(), idle);
      RemoveThread(current);
      GroupSame(K(), SetStat(K(), current, CLOSE), group);
      threads := threads[current := threads[current].(stat := CLOSE)];
      Reschedule();
    }

    /** The slice part of sk_tick_increase. */
    method TickIncrease()
      requires Valid() && !(Expires(K()) && OnWait(K(), current))
      modifies this
      ensures Valid() && current in old(threads)
      ensures !Expires(old(K())) ==> K() == CountTick(old(K()))
      ensures Expires(old(K())) ==> Scheduled(CountTick(old(K())), K())
    {
      TickKeepsIff(K(), idle);
      GroupSame(K(), CountTick(K()), group);
      var th := threads[current];
      var n := if th.remainTick == 0 then 0xFFFF_FFFF_FFFF_FFFF else th.remainTick - 1;
      th := th.(remainTick := n);
      if n == 0 {
        th := th.(remainTick := th.initTick, stat := th.stat.(yielded := true));
        threads := threads[current := th];
        KInvSchedulable(K(), idle);
        Reschedule();
      } else {
        threads := threads[current := th];
      }
    }

    /** The search loop: behind every waiter of the same or a better priority. */
    method FindPlace(w: seq<Tid>, t: Tid) returns (n: nat)
      requires t in threads && forall x :: x in w ==> x in threads
      ensures n <= |w| && PrioInsert(threads, w, t) == w[..n] + [t] + w[n..]
    {
      n := 0;
      while n < |w| && threads[w[n]].pri <= threads[t].pri
        invariant n <= |w| && forall i :: 0 <= i < n ==> threads[w[i]].pri <= threads[t].pri
      {
        n := n + 1;
      }
      PrioInsertAt(threads, w, t, n);
    }

    method LinkWaiter(o: nat, w: seq<Tid>)
      requires GroupOk(K(), group)
      modifies this`rings
      ensures GroupOk(K(), group) && K() == SetRing(old(K()), WaitRing(o), w)
    {
      GroupSame(K(), SetRing(K(), WaitRing(o), w), group);
      rings := rings[WaitRing(o) := w];
    }

    /** __ipc_list_suspend of the current thread, with the search loop of SK_IPC_FLAG_PRIO. */
    method ListSuspend(o: nat, prio: bool)
      requires Valid() && current != idle && threads[current].stat.base == Running
      modifies this
      ensures forall x :: x in On(old(K()), WaitRing(o)) ==> x in old(threads)
      ensures Valid() && K() == WaitOn(old(K()), o, prio)
    {
      WaitOnKeeps(K(), idle, o, prio);
      WaitOnIs(K(), idle, o, prio);
      SuspendCurrent(K(), idle);
      var w := if WaitRing(o) in rings then rings[WaitRing(o)] else [];
      var n := |w|;
      if prio { n := FindPlace(w, current); }
      assert w[..n] + [current] + w[n..] == Joined(K(), o, prio);
      var ok := SuspendThreadOf(current);
      LinkWaiter(o, w[..n] + [current] + w[n..]);
    }

    /** __ipc_list_resume_all; it ends because every waiter is suspended, so that each resume takes one off the list. */
    method ListResumeAll(o: nat)
      requires Valid()
      modifies this
      ensures Valid() && K() == ResumeAll(old(K()), idle, o)
    {
      while WaitRing(o) in rings && rings[WaitRing(o)] != []
        invariant Valid() && ResumeAll(K(), idle, o) == ResumeAll(old(K()), idle, o)
        decreases |On(K(), WaitRing(o))|
      {
        ResumeFirst(K(), idle, o);
        var ok := ResumeThreadOf(rings[WaitRing(o)][0]);
      }
    }
  }
}
