/** The tick, waking whole lists, and the steps of the kernel; every step keeps the invariant. */
module KernelRuns {
  import opened Seqs
  import opened Kernel
  import opened KernelInvariant
  import opened KernelSteps

  // ---- the tick ----

  /** The tick keeps the invariant exactly when it does not expire the slice of a thread that has already queued itself
      on a wait list but has not been switched out yet. */
  lemma TickKeepsIff(k: Kernel, idle: Tid)
    requires KInv(k, idle)
    ensures KInv(CountTick(k), idle) <==> !(Expires(k) && OnWait(k, k.current))
  {
    var k' := CountTick(k);
    RingsSame(k, k');
    forall x | x in k'.threads && x != k'.current ensures ResidentOk(k', x) { assert ResidentOk(k, x); }
    if Expires(k) && OnWait(k, k.current) {
      var o :| k.current in On(k, WaitRing(o));
      assert k.current in On(k', WaitRing(o));
    }
  }

  /** A tick touches only the current thread: it counts its slice down as a 64-bit word; the last tick of the slice
      refills it and marks the thread as yielding. */
  lemma TickExact(k: Kernel)
    requires k.current in k.threads && k.threads[k.current].remainTick < 0x1_0000_0000_0000_0000
    ensures var k', th := CountTick(k), k.threads[k.current];
            && k'.current == k.current && k'.rings == k.rings && k'.threads.Keys == k.threads.Keys
            && (forall t :: t in k.threads && t != k.current ==> k'.threads[t] == k.threads[t])
            && var th' := k'.threads[k.current];
               && th'.pri == th.pri && th'.initTick == th.initTick
               && (Expires(k) ==> th'.remainTick == th.initTick && th'.stat == th.stat.(yielded := true))
               && (!Expires(k) ==>
                     (th'.remainTick + 1) % 0x1_0000_0000_0000_0000 == th.remainTick && th'.stat == th.stat)
  {
  }

  lemma {:induction false} SameHighest(a: Kernel, b: Kernel, p: nat)
    requires p <= PRIORITY_MAX && forall r :: On(a, r) == On(b, r)
    ensures HighestFrom(a, p) == HighestFrom(b, p)
    decreases PRIORITY_MAX - p
  {
    if p < PRIORITY_MAX { SameHighest(a, b, p + 1); }
  }

  /** In that window sk_schedule queues the thread on its ready list although it is still on the wait list. */
  lemma TickWindowDuplicates(k: Kernel, idle: Tid, o: nat)
    requires KInv(k, idle) && Expires(k) && k.current in On(k, WaitRing(o))
    ensures Next(CountTick(k)) in k.threads
    ensures var k', t := Schedule(CountTick(k)), k.current;
            t in On(k', WaitRing(o)) && t in On(k', ReadyRing(k.threads[t].pri)) && !RingsOk(k')
  {
    var t, k1 := k.current, CountTick(k);
    assert k.threads[t].stat == SUSPEND;
    assert forall r :: On(k1, r) == On(k, r);
    assert OnReady(k, idle);
    HighestIsLeast(k, idle);
    SameHighest(k, k1, 0);
    var p := Highest(k).value;
    var to := On(k, ReadyRing(p))[0];
    assert to in On(k, ReadyRing(p)) && Belongs(k, ReadyRing(p), to);
    assert Next(k1) == to != t;
    var k2 := Insert(k1.(current := to), t);
    assert t in On(k2, ReadyRing(k.threads[t].pri)) && On(k2, WaitRing(o)) == On(k, WaitRing(o));
    DetachOn(k2, to, ReadyRing(k.threads[t].pri));
    DetachOn(k2, to, WaitRing(o));
    WithoutSubset(On(k2, ReadyRing(k.threads[t].pri)), to);
    WithoutSubset(On(k2, WaitRing(o)), to);
    var k' := Schedule(k1);
    assert forall r :: On(k', r) == On(Detach(k2, to), r);
  }

  /** The window is reached by any thread that joins a wait list in the last tick of its slice. */
  lemma TickWindowReached(k: Kernel, idle: Tid, o: nat, prio: bool)
    requires KInv(k, idle) && k.current != idle && k.threads[k.current].stat.base == Running && Expires(k)
    ensures forall x :: x in On(k, WaitRing(o)) ==> x in k.threads
    ensures var k1 := WaitOn(k, o, prio);
            && KInv(k1, idle) && !KInv(CountTick(k1), idle) && Next(CountTick(k1)) in k1.threads
            && !RingsOk(Schedule(CountTick(k1)))
  {
    WaitOnKeeps(k, idle, o, prio);
    var n := JoinedSplits(k, o, prio);
    var k1 := WaitOn(k, o, prio);
    assert k.current in On(k1, WaitRing(o));
    TickKeepsIff(k1, idle);
    TickWindowDuplicates(k1, idle, o);
  }

  // ---- waking a whole list ----

  /** sk_thread_resume moves the first waiter of a list, and so makes progress, exactly when it is suspended. */
  lemma ResumeProgressIff(k: Kernel, o: nat)
    requires RingsOk(k) && On(k, WaitRing(o)) != []
    ensures var t := On(k, WaitRing(o))[0];
            t in k.threads && (ResumeThread(k, t) != k <==> k.threads[t].stat == SUSPEND)
  {
    var w := On(k, WaitRing(o));
    assert w[0] in w && Belongs(k, WaitRing(o), w[0]);
    DetachKeeps(k, w[0]);
    if k.threads[w[0]].stat == SUSPEND { assert ResumeThread(k, w[0]).threads[w[0]].stat != SUSPEND; }
  }

  lemma FirstRemoved(k: Kernel, o: nat, r: Ring)
    requires RingsOk(k) && On(k, WaitRing(o)) != []
    ensures Without(On(k, r), On(k, WaitRing(o))[0]) == if r == WaitRing(o) then On(k, r)[1..] else On(k, r)
  {
    var t := On(k, WaitRing(o))[0];
    assert t in On(k, WaitRing(o));
    if r != WaitRing(o) { WithoutAbsent(On(k, r), t); }
  }

  /** The lists after the first waiter woke. */
  lemma FirstLists(k: Kernel, o: nat, t: Tid, k': Kernel)
    requires RingsOk(k) && On(k, WaitRing(o)) != [] && t == On(k, WaitRing(o))[0] && t in k.threads && Woke(k, t, k')
    ensures On(k', WaitRing(o)) == On(k, WaitRing(o))[1..]
    ensures forall q :: q != o ==> On(k', WaitRing(q)) == On(k, WaitRing(q))
    ensures forall p :: On(k', ReadyRing(p)) ==
              On(k, ReadyRing(p)) + if p == k.threads[t].pri && t != k.current then [t] else []
  {
    FirstRemoved(k, o, WaitRing(o));
    forall q | q != o ensures On(k', WaitRing(q)) == On(k, WaitRing(q)) { FirstRemoved(k, o, WaitRing(q)); }
    forall p ensures On(k', ReadyRing(p)) ==
                       On(k, ReadyRing(p)) + if p == k.threads[t].pri && t != k.current then [t] else []
    {
      FirstRemoved(k, o, ReadyRing(p));
    }
  }

  /** Waking the first waiter: the list loses its head, the head joins the ready list of its priority. */
  lemma ResumeFirst(k: Kernel, idle: Tid, o: nat)
    requires KInv(k, idle) && On(k, WaitRing(o)) != []
    ensures var t := On(k, WaitRing(o))[0];
            && t in k.threads && KInv(ResumeThread(k, t), idle)
            && On(ResumeThread(k, t), WaitRing(o)) == On(k, WaitRing(o))[1..]
            && (forall q :: q != o ==> On(ResumeThread(k, t), WaitRing(q)) == On(k, WaitRing(q)))
            && (forall p :: On(ResumeThread(k, t), ReadyRing(p)) ==
                  On(k, ReadyRing(p)) + if p == k.threads[t].pri && t != k.current then [t] else [])
            && ResumeThread(k, t).current == k.current
            && ResumeThread(k, t).threads ==
                 k.threads[t := k.threads[t].(stat := if t == k.current then RUNNING else READY)]
  {
    var w := On(k, WaitRing(o));
    var t := w[0];
    assert t in w && Belongs(k, WaitRing(o), t) && k.threads[t].stat == SUSPEND;
    ResumeKeeps(k, idle, t);
    FirstLists(k, o, t, ResumeThread(k, t));
  }

  /** __ipc_list_resume_all: keep waking the head until the list is empty. */
  ghost function ResumeAll(k: Kernel, idle: Tid, o: nat): (k': Kernel)
    requires KInv(k, idle)
    ensures KInv(k', idle) && On(k', WaitRing(o)) == [] && k'.current == k.current
    decreases |On(k, WaitRing(o))|
  {
    if On(k, WaitRing(o)) == [] then k
    else
      ResumeFirst(k, idle, o);
      ResumeAll(ResumeThread(k, On(k, WaitRing(o))[0]), idle, o)
  }

  /** The threads of w with priority p, in order, without the current one. */
  ghost function OfPriority(k: Kernel, w: seq<Tid>, p: nat): (r: seq<Tid>)
    requires forall x :: x in w ==> x in k.threads
  {
    if w == [] then []
    else (if k.threads[w[0]].pri == p && w[0] != k.current then [w[0]] else []) + OfPriority(k, w[1..], p)
  }

  lemma {:induction false} OfPrioritySame(k: Kernel, k': Kernel, w: seq<Tid>, p: nat)
    requires forall x :: x in w ==> x in k.threads && x in k'.threads && k'.threads[x].pri == k.threads[x].pri
    requires k'.current == k.current
    ensures OfPriority(k, w, p) == OfPriority(k', w, p)
    decreases |w|
  {
    if w != [] {
      assert w == [w[0]] + w[1..];
      OfPrioritySame(k, k', w[1..], p);
    }
  }

  lemma Reassociate(a: seq<Tid>, b: seq<Tid>, c: seq<Tid>)
    ensures (a + b) + c == a + (b + c)
  {
  }

  /** What the head of a list adds to the threads of priority p. */
  ghost function HeadOf(k: Kernel, w: seq<Tid>, p: nat): (r: seq<Tid>)
    requires w != [] && w[0] in k.threads
  {
    if k.threads[w[0]].pri == p && w[0] != k.current then [w[0]] else []
  }

  lemma HeadAdds(k: Kernel, k': Kernel, w: seq<Tid>, p: nat)
    requires w != [] && (forall x :: x in w ==> x in k.threads) && k'.current == k.current
    requires forall x :: x in w ==> x in k'.threads && k'.threads[x].pri == k.threads[x].pri
    ensures forall x :: x in w[1..] ==> x in k'.threads
    ensures OfPriority(k, w, p) == HeadOf(k, w, p) + OfPriority(k', w[1..], p)
  {
    assert w == [w[0]] + w[1..];
    OfPrioritySame(k, k', w[1..], p);
  }

  lemma ReadyGains(k: Kernel, idle: Tid, o: nat, p: nat)
    requires KInv(k, idle) && On(k, WaitRing(o)) != []
    ensures var w := On(k, WaitRing(o));
            w[0] in k.threads && On(ResumeThread(k, w[0]), ReadyRing(p)) == On(k, ReadyRing(p)) + HeadOf(k, w, p)
  {
    ResumeFirst(k, idle, o);
  }

  lemma WakingKnown(k: Kernel, idle: Tid, o: nat)
    requires KInv(k, idle) && On(k, WaitRing(o)) != []
    ensures var w := On(k, WaitRing(o));
            && (forall x :: x in w ==> x in k.threads)
            && var k1 := ResumeThread(k, w[0]);
               && k1.current == k.current
               && forall x :: x in w ==> x in k1.threads && k1.threads[x].pri == k.threads[x].pri
  {
    WaitersKnown(k, o);
    ResumeFirst(k, idle, o);
  }

  /** Waking the head moves its contribution from the wait list to the ready list. */
  lemma WakingHead(k: Kernel, idle: Tid, o: nat, p: nat)
    requires KInv(k, idle) && On(k, WaitRing(o)) != []
    ensures var w := On(k, WaitRing(o)); var k1 := ResumeThread(k, w[0]);
            && (forall x :: x in w ==> x in k.threads && x in k1.threads)
            && On(k1, ReadyRing(p)) + OfPriority(k1, w[1..], p) == On(k, ReadyRing(p)) + OfPriority(k, w, p)
  {
    var w := On(k, WaitRing(o));
    WakingKnown(k, idle, o);
    ReadyGains(k, idle, o, p);
    var k1 := ResumeThread(k, w[0]);
    HeadAdds(k, k1, w, p);
    Reassociate(On(k, ReadyRing(p)), HeadOf(k, w, p), OfPriority(k1, w[1..], p));
  }

  /** Every waiter ends up at the end of its own priority's ready list, in the order of the wait list. */
  lemma {:induction false} ResumeAllAppends(k: Kernel, idle: Tid, o: nat, p: nat)
    requires KInv(k, idle)
    ensures forall x :: x in On(k, WaitRing(o)) ==> x in k.threads
    ensures On(ResumeAll(k, idle, o), ReadyRing(p)) == On(k, ReadyRing(p)) + OfPriority(k, On(k, WaitRing(o)), p)
    decreases |On(k, WaitRing(o))|
  {
    WaitersKnown(k, o);
    if On(k, WaitRing(o)) != [] {
      ResumeFirst(k, idle, o);
      WakingHead(k, idle, o, p);
      ResumeAllAppends(ResumeThread(k, On(k, WaitRing(o))[0]), idle, o, p);
    }
  }

  /** Every waiter becomes ready, or runs on if it is the current thread; no other thread changes. */
  lemma {:induction false} ResumeAllStates(k: Kernel, idle: Tid, o: nat, t: Tid)
    requires KInv(k, idle) && t in k.threads
    ensures t in ResumeAll(k, idle, o).threads
    ensures ResumeAll(k, idle, o).threads[t] ==
            if t in On(k, WaitRing(o)) then k.threads[t].(stat := if t == k.current then RUNNING else READY)
            else k.threads[t]
    decreases |On(k, WaitRing(o))|
  {
    if On(k, WaitRing(o)) != [] {
      ResumeFirst(k, idle, o);
      TailMembers(On(k, WaitRing(o)));
      ResumeAllStates(ResumeThread(k, On(k, WaitRing(o))[0]), idle, o, t);
    }
  }

  // ---- runs ----

  datatype Step =
    | Create(t: Tid, pri: nat, tick: nat)
    | MarkStarted(t: Tid)
    | SuspendOne(t: Tid)
    | ResumeOne(t: Tid)
    | TimeoutOne(t: Tid)
    | Wait(obj: nat, prio: bool)
    | WakeAll(obj: nat)
    | Reschedule
    | Exit
    | Tick

  /** What the callers of the kernel see to: the idle thread never blocks, a blocked thread makes no calls,
      timers of closed threads are deleted, and no slice expires in the window of TickKeepsIff. */
  ghost predicate Enabled(k: Kernel, idle: Tid, s: Step)
    requires KInv(k, idle)
  {
    match s
    case Create(t, pri, _) => t !in k.threads && pri < PRIORITY_MAX
    case MarkStarted(t) => t in k.threads && k.threads[t].stat.base != Close && !(t == idle == k.current)
    case SuspendOne(t) => t in k.threads && t != idle
    case ResumeOne(t) => t in k.threads
    case TimeoutOne(t) => t in k.threads && k.threads[t].stat.base != Close
    case Wait(_, _) => k.current != idle && k.threads[k.current].stat.base == Running
    case WakeAll(_) => true
    case Reschedule => true
    case Exit => k.current != idle && k.threads[k.current].stat.base == Running
    case Tick => !(Expires(k) && OnWait(k, k.current))
  }

  ghost predicate Takes(k: Kernel, idle: Tid, s: Step, k': Kernel)
    requires KInv(k, idle)
  {
    Enabled(k, idle, s) &&
    match s
    case Create(t, pri, tick) => k' == CreateThread(k, t, pri, tick)
    case MarkStarted(t) => k' == SetStat(k, t, SUSPEND)
    case SuspendOne(t) => k' == SuspendThread(k, t)
    case ResumeOne(t) => k' == ResumeThread(k, t)
    case TimeoutOne(t) => k' == WakeThread(k, t)
    case Wait(o, prio) => (forall x :: x in On(k, WaitRing(o)) ==> x in k.threads) && k' == WaitOn(k, o, prio)
    case WakeAll(o) => k' == ResumeAll(k, idle, o)
    case Reschedule => Next(k) in k.threads && k' == Schedule(k)
    case Exit => Next(CloseCurrent(k)) in k.threads && k' == Schedule(CloseCurrent(k))
    case Tick => k' == CountTick(k)
  }

  lemma {:induction false} ResumeAllKeys(k: Kernel, idle: Tid, o: nat)
    requires KInv(k, idle)
    ensures ResumeAll(k, idle, o).threads.Keys == k.threads.Keys
    decreases |On(k, WaitRing(o))|
  {
    if On(k, WaitRing(o)) != [] {
      ResumeFirst(k, idle, o);
      ResumeAllKeys(ResumeThread(k, On(k, WaitRing(o))[0]), idle, o);
    }
  }

  lemma StepKeeps(k: Kernel, idle: Tid, s: Step, k': Kernel)
    requires KInv(k, idle) && Takes(k, idle, s, k')
    ensures KInv(k', idle) && k.threads.Keys <= k'.threads.Keys
    ensures s.Reschedule? || s.Exit? ==> k'.threads[k'.current].stat.base == Running
  {
    match s
    case Create(t, pri, tick) => CreateKeeps(k, idle, t, pri, tick);
    case MarkStarted(t) => StartupMarkKeeps(k, idle, t);
    case SuspendOne(t) => SuspendKeeps(k, idle, t);
    case ResumeOne(t) => ResumeKeeps(k, idle, t);
    case TimeoutOne(t) => WakeKeeps(k, idle, t);
    case Wait(o, prio) => WaitOnKeeps(k, idle, o, prio);
    case WakeAll(o) => ResumeAllKeys(k, idle, o);
    case Reschedule => KInvSchedulable(k, idle); ScheduleKeeps(k, idle);
    case Exit => CloseKeeps(k, idle); ScheduleKeeps(CloseCurrent(k), idle);
    case Tick => TickKeepsIff(k, idle);
  }

  // ---- awake threads ----

  /** The steps that put a thread to rest by name. */
  predicate Lulls(s: Step, t: Tid)
  {
    match s
    case SuspendOne(u) => u == t
    case MarkStarted(u) => u == t
    case _ => false
  }

  lemma AwakeSchedule(k: Kernel, idle: Tid, t: Tid)
    requires Core(k, idle) && Awake(k, t)
    ensures Next(k) in k.threads && Awake(Schedule(k), t)
  {
    NextKnown(k, idle);
    if Next(k) != k.current { SwitchExact(k, Next(k)); }
  }

  lemma AwakeWait(k: Kernel, idle: Tid, o: nat, prio: bool, t: Tid)
    requires KInv(k, idle) && k.current != idle && k.threads[k.current].stat.base == Running
    requires Awake(k, t) && t != k.current
    ensures forall x :: x in On(k, WaitRing(o)) ==> x in k.threads
    ensures Awake(WaitOn(k, o, prio), t)
  {
    WaitOnKeeps(k, idle, o, prio);
  }

  lemma AwakeExit(k: Kernel, idle: Tid, t: Tid)
    requires KInv(k, idle) && k.current != idle && Awake(k, t) && t != k.current
    ensures Next(CloseCurrent(k)) in k.threads && Awake(Schedule(CloseCurrent(k)), t)
  {
    CloseKeeps(k, idle);
    AwakeSchedule(CloseCurrent(k), idle, t);
  }

  /** Putting a thread on or off a list by name leaves any other as it is. */
  lemma AwakeNamed(k: Kernel, idle: Tid, u: Tid, t: Tid)
    requires KInv(k, idle) && u in k.threads && Awake(k, t)
    ensures Awake(ResumeThread(k, u), t) && Awake(WakeThread(k, u), t) && (u != t ==> Awake(SuspendThread(k, u), t))
  {
    SuspendExact(k, u);
    ResumeKeeps(k, idle, u);
    WakeExact(k, u);
  }

  /** An awake thread stays awake unless it is put to rest by name, waits or exits. */
  lemma AwakeStep(k: Kernel, idle: Tid, s: Step, k': Kernel, t: Tid)
    requires KInv(k, idle) && Takes(k, idle, s, k') && Awake(k, t)
    requires !Lulls(s, t) && (s.Wait? || s.Exit? ==> t != k.current)
    ensures Awake(k', t)
  {
    match s
    case Create(u, pri, tick) => CreateLists(k, u, pri, tick);
    case MarkStarted(_) =>
    case SuspendOne(u) => AwakeNamed(k, idle, u, t);
    case ResumeOne(u) => AwakeNamed(k, idle, u, t);
    case TimeoutOne(u) => AwakeNamed(k, idle, u, t);
    case Wait(o, prio) => AwakeWait(k, idle, o, prio, t);
    case WakeAll(o) => ResumeAllStates(k, idle, o, t);
    case Reschedule => AwakeSchedule(k, idle, t);
    case Exit => AwakeExit(k, idle, t);
    case Tick =>
  }
}
