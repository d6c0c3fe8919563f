/** sk_thread_sleep and timed waits (thread/thread.c, ipc) against the system timers and the tick (init/sys_tick.c):
    when does a thread that nothing wakes come back? */
module Sleeping {
  import opened Arith
  import opened Options
  import opened Seqs
  import opened Kernel
  import opened KernelInvariant
  import opened KernelSteps
  import opened KernelRuns
  import opened Conservation
  import opened Boot
  import T = Timers

  /** The thread_timer of a thread; all other timers have odd numbers. */
  function Own(t: Tid): (i: T.Id)
  {
    2 * t
  }

  datatype System = System(k: Kernel, timers: map<T.Id, T.Timer>, list: seq<T.Id>, tick: nat)

  ghost function W(y: System): T.Walk
  {
    T.Walk(y.timers, y.list, 0, [])
  }

  /** Every thread has its one-shot timer; that of a closed thread is off. The even timers on the list are theirs. */
  ghost predicate Orderly(y: System)
  {
    && T.Known(W(y)) && y.tick < T.TICK_RANGE
    && (forall u :: u in y.k.threads ==>
          && Own(u) in y.timers && !y.timers[Own(u)].periodic
          && (y.k.threads[u].stat.base == Close ==> !y.timers[Own(u)].active))
    && forall u: Tid :: Own(u) in y.list ==> u in y.k.threads
  }

  /** sk_timer_control and sk_timer_start of the timer of t, which sk_thread_suspend has stopped. */
  function Armed(y: System, t: Tid, n: nat): (y': System)
    requires Own(t) in y.timers
  {
    var x := y.timers[Own(t)].(initTick := n);
    y.(timers := y.timers[Own(t) := T.Started(y.tick, x)], list := [Own(t)] + Without(y.list, Own(t)))
  }

  /** sk_thread_sleep of the current thread, up to its sk_schedule. */
  function SleepFor(y: System, n: nat): (y': System)
    requires y.k.current in y.k.threads && Own(y.k.current) in y.timers
  {
    Armed(y, y.k.current, n).(k := SuspendThread(y.k, y.k.current))
  }

  /** A blocking call of the current thread on object o with a timeout, up to its sk_schedule. */
  function WaitFor(y: System, o: nat, prio: bool, n: nat): (y': System)
    requires y.k.current in y.k.threads && Own(y.k.current) in y.timers
    requires forall x :: x in On(y.k, WaitRing(o)) ==> x in y.k.threads
  {
    Armed(y, y.k.current, n).(k := WaitOn(y.k, o, prio))
  }

  /** The next value of sk_tick. */
  function After(tick: nat): (now: nat)
  {
    (tick + 1) % T.TICK_RANGE
  }

  /** What the clock shows m ticks after `start`. */
  function Clock(start: nat, m: nat): (now: nat)
  {
    if m == 0 then start else After(Clock(start, m - 1))
  }

  lemma AfterMod(x: nat)
    ensures After(x % T.TICK_RANGE) == (x + 1) % T.TICK_RANGE
  {
    var q, r := x / T.TICK_RANGE, x % T.TICK_RANGE;
    assert x == q * T.TICK_RANGE + r;
    if r + 1 < T.TICK_RANGE {
      DivMod(x + 1, T.TICK_RANGE, q, r + 1);
      DivMod(r + 1, T.TICK_RANGE, 0, r + 1);
    } else {
      DivMod(x + 1, T.TICK_RANGE, q + 1, 0);
      DivMod(r + 1, T.TICK_RANGE, 1, 0);
    }
  }

  lemma {:induction false} ClockIs(start: nat, m: nat)
    requires start < T.TICK_RANGE
    ensures Clock(start, m) == (start + m) % T.TICK_RANGE
    decreases m
  {
    if m == 0 {
      DivMod(start, T.TICK_RANGE, 0, start);
    } else {
      ClockIs(start, m - 1);
      AfterMod(start + m - 1);
    }
  }

  /** Sleep and TimedWait: the calls up to their sk_schedule. Other: any other section of the kernel. TickIrq:
      sk_tick_increase with n rounds of sk_timer_check; steps are the sections of the timeout functions, in order. */
  datatype Action =
    | Sleep(n: nat)
    | TimedWait(o: nat, prio: bool, n: nat)
    | Other(s: Step)
    | TickIrq(ks: seq<Kernel>, steps: seq<Step>, rounds: nat)

  ghost predicate SameTimer(y: System, y': System, i: T.Id)
  {
    && (i in y.timers <==> i in y'.timers) && (i in y.timers ==> y'.timers[i] == y.timers[i])
    && (i in y.list <==> i in y'.list)
  }

  /** The threads whose timer a section may stop or start: one it suspends, and the caller of a wait or an exit. */
  ghost predicate Touches(k: Kernel, s: Step, u: Tid)
    requires u in k.threads
  {
    match s
    case SuspendOne(v) => v == u && k.threads[u].stat.base in {Ready, Running}
    case Wait(_, _) => u == k.current
    case Exit => u == k.current
    case _ => false
  }

  ghost predicate MayCall(k: Kernel, idle: Tid)
  {
    KInv(k, idle) && k.current != idle && k.threads[k.current].stat.base == Running
  }

  /** What an interrupt handler may do. */
  predicate InHandler(s: Step)
  {
    !s.Wait? && !s.Exit? && !s.Tick?
  }

  ghost predicate StepAt(ks: seq<Kernel>, idle: Tid, steps: seq<Step>, i: nat)
    requires i < |steps| < |ks|
  {
    KInv(ks[i], idle) && Takes(ks[i], idle, steps[i], ks[i + 1])
  }

  /** The sections of a handler, one after the other. */
  ghost predicate Chain(ks: seq<Kernel>, idle: Tid, steps: seq<Step>)
  {
    |ks| == |steps| + 1 && forall i: nat :: i < |steps| ==> InHandler(steps[i]) && StepAt(ks, idle, steps, i)
  }

  /** The kernel part of sk_tick_increase: the slice, sk_schedule if it ended, then the timeout functions; exactly the
      fired timers of threads call sk_thread_timeout. */
  ghost predicate Handles(k: Kernel, idle: Tid, ks: seq<Kernel>, steps: seq<Step>, fired: seq<T.Id>, k': Kernel)
    requires k.current in k.threads
  {
    && Chain(ks, idle, steps) && ks[0] == CountTick(k) && ks[|steps|] == k'
    && (Expires(k) ==> steps != [] && steps[0] == Reschedule)
    && (forall u: Tid :: TimeoutOne(u) in steps <==> Own(u) in fired)
  }

  ghost predicate Moves(y: System, idle: Tid, a: Action, y': System)
  {
    KInv(y.k, idle) && Orderly(y) && Orderly(y') &&
    match a
    case Sleep(n) =>
      && MayCall(y.k, idle) && n < T.TICK_RANGE && Own(y.k.current) in y.timers
      && y' == SleepFor(y, n)
    case TimedWait(o, prio, n) =>
      && MayCall(y.k, idle) && 0 < n < T.TICK_RANGE && Own(y.k.current) in y.timers
      && (forall x :: x in On(y.k, WaitRing(o)) ==> x in y.k.threads)
      && y' == WaitFor(y, o, prio, n)
    case Other(s) =>
      && Takes(y.k, idle, s, y'.k) && !s.Tick? && !s.TimeoutOne? && y'.tick == y.tick
      && forall u :: u in y.k.threads && !Touches(y.k, s, u) ==> SameTimer(y, y', Own(u))
    case TickIrq(ks, steps, rounds) =>
      var now := After(y.tick);
      var w := T.Rounds(now, W(y), rounds);
      && !(Expires(y.k) && OnWait(y.k, y.k.current)) && T.Over(w) && Handles(y.k, idle, ks, steps, w.fired, y'.k)
      && y'.tick == now && y'.timers == w.timers && y'.list == w.list
  }

  /** No thread is closed between k and k'. */
  ghost predicate NoneCloses(k: Kernel, k': Kernel)
  {
    && k'.threads.Keys == k.threads.Keys
    && forall u :: u in k.threads && k'.threads[u].stat.base == Close ==> k.threads[u].stat.base == Close
  }

  // ---- the thread ----

  /** Asleep: suspended, on no list or on the wait list of one object. */
  ghost predicate Rests(k: Kernel, t: Tid, where: Option<nat>)
  {
    && t in k.threads && k.threads[t].stat == SUSPEND
    && match where case None => Off(k, t) case Some(o) => t in On(k, WaitRing(o))
  }

  /** The sections that end the rest of t. */
  predicate Rouses(s: Step, t: Tid, where: Option<nat>)
  {
    match s
    case ResumeOne(u) => u == t
    case TimeoutOne(u) => u == t
    case WakeAll(o) => where == Some(o)
    case _ => false
  }

  lemma RestNotReady(k: Kernel, idle: Tid, t: Tid, where: Option<nat>)
    requires KInv(k, idle) && Rests(k, t, where)
    ensures forall p: nat :: t !in On(k, ReadyRing(p))
    ensures forall o: nat :: where != Some(o) ==> t !in On(k, WaitRing(o))
  {
  }

  lemma RestCreate(k: Kernel, idle: Tid, u: Tid, pri: nat, tick: nat, t: Tid, where: Option<nat>)
    requires KInv(k, idle) && Rests(k, t, where) && u !in k.threads && pri < PRIORITY_MAX
    ensures Rests(CreateThread(k, u, pri, tick), t, where)
  {
    CreateLists(k, u, pri, tick);
    RestNotReady(k, idle, t, where);
  }

  lemma RestSuspend(k: Kernel, idle: Tid, u: Tid, t: Tid, where: Option<nat>)
    requires KInv(k, idle) && Rests(k, t, where) && u in k.threads
    ensures Rests(SuspendThread(k, u), t, where)
  {
    if u != t && k.threads[u].stat.base in {Ready, Running} {
      forall r ensures t in On(SuspendThread(k, u), r) <==> t in On(k, r) {
        DetachOn(k, u, r);
        WithoutSubset(On(k, r), u);
      }
    }
  }

  lemma RestWake(k: Kernel, idle: Tid, u: Tid, t: Tid, where: Option<nat>)
    requires KInv(k, idle) && Rests(k, t, where) && u in k.threads && u != t && k.threads[u].stat.base != Close
    ensures Rests(WakeThread(k, u), t, where)
  {
    WakeKeeps(k, idle, u);
  }

  lemma {:induction false} RestWakeAll(k: Kernel, idle: Tid, p: nat, t: Tid, where: Option<nat>)
    requires KInv(k, idle) && Rests(k, t, where) && where != Some(p)
    ensures Rests(ResumeAll(k, idle, p), t, where)
    decreases |On(k, WaitRing(p))|
  {
    if On(k, WaitRing(p)) != [] {
      var u := On(k, WaitRing(p))[0];
      assert u in On(k, WaitRing(p));
      RestNotReady(k, idle, t, where);
      ResumeFirst(k, idle, p);
      RestWake(k, idle, u, t, where);
      RestWakeAll(ResumeThread(k, u), idle, p, t, where);
    }
  }

  lemma RestWait(k: Kernel, idle: Tid, o: nat, prio: bool, t: Tid, where: Option<nat>)
    requires KInv(k, idle) && Rests(k, t, where) && k.current != idle && k.threads[k.current].stat.base == Running
    ensures forall x :: x in On(k, WaitRing(o)) ==> x in k.threads
    ensures Rests(WaitOn(k, o, prio), t, where)
  {
    WaitLists(k, idle, o, prio);
  }

  lemma SwitchStat(k: Kernel, to: Tid, t: Tid)
    requires k.current in k.threads && to in k.threads && to != k.current && t in k.threads && t != to
    requires k.threads[t].stat == SUSPEND
    ensures t in SwitchTo(k, to).threads && SwitchTo(k, to).threads[t] == k.threads[t]
  {
  }

  lemma RestSwitch(k: Kernel, idle: Tid, to: Tid, t: Tid, where: Option<nat>)
    requires Core(k, idle) && to in k.threads && to != k.current && OnReady(k, to)
    requires StaysRunnable(k) ==> k.threads[k.current].stat.base != Close && !OnWait(k, k.current)
    requires Rests(k, t, where) && t != to
    ensures Rests(SwitchTo(k, to), t, where)
  {
    SwitchLists(k, idle, to);
    SwitchStat(k, to, t);
    assert forall r :: t in On(SwitchTo(k, to), r) <==> t in On(k, r);
  }

  lemma RestSchedule(k: Kernel, idle: Tid, t: Tid, where: Option<nat>)
    requires KInv(k, idle) && Rests(k, t, where)
    ensures Next(k) in k.threads && Rests(Schedule(k), t, where)
  {
    NextKnown(k, idle);
    if Next(k) != k.current {
      RestNotReady(k, idle, t, where);
      KInvSchedulable(k, idle);
      RestSwitch(k, idle, Next(k), t, where);
    }
  }

  lemma RestExit(k: Kernel, idle: Tid, t: Tid, where: Option<nat>)
    requires KInv(k, idle) && Rests(k, t, where) && k.current != idle && k.threads[k.current].stat.base == Running
    ensures Next(CloseCurrent(k)) in k.threads && Rests(Schedule(CloseCurrent(k)), t, where)
  {
    CloseKeeps(k, idle);
    var k1 := CloseCurrent(k);
    ClosePlaces(k, idle, t);
    NextKnown(k1, idle);
    assert Rests(k1, t, where) by { assert where.None? ==> !Linked(k, t); }
    assert !OnReady(k1, t);
    if Next(k1) != k1.current { RestSwitch(k1, idle, Next(k1), t, where); }
  }

  /** Every section that does not rouse t leaves it asleep where it is. */
  lemma RestStep(k: Kernel, idle: Tid, s: Step, k': Kernel, t: Tid, where: Option<nat>)
    requires KInv(k, idle) && Takes(k, idle, s, k') && Rests(k, t, where) && !Rouses(s, t, where) && !s.Tick?
    ensures Rests(k', t, where)
  {
    match s
    case Create(u, pri, tick) => RestCreate(k, idle, u, pri, tick, t, where);
    case MarkStarted(u) => assert forall r :: On(k', r) == On(k, r);
    case SuspendOne(u) => RestSuspend(k, idle, u, t, where);
    case ResumeOne(u) => if k.threads[u].stat == SUSPEND { RestWake(k, idle, u, t, where); }
    case TimeoutOne(u) => RestWake(k, idle, u, t, where);
    case Wait(o, prio) => RestWait(k, idle, o, prio, t, where);
    case WakeAll(p) => RestWakeAll(k, idle, p, t, where);
    case Reschedule => RestSchedule(k, idle, t, where);
    case Exit => RestExit(k, idle, t, where);
  }

  lemma TimeoutWakes(k: Kernel, idle: Tid, t: Tid)
    requires KInv(k, idle) && t in k.threads
    ensures Awake(WakeThread(k, t), t)
  {
  }

  /** A tick in the last moment of the slice of a thread that is about to sleep. */
  ghost predicate InWindow(k: Kernel, t: Tid)
  {
    k.current == t && t in k.threads && Expires(k)
  }

  lemma RestTick(k: Kernel, idle: Tid, t: Tid, where: Option<nat>)
    requires KInv(k, idle) && Rests(k, t, where) && !InWindow(k, t)
    ensures Rests(CountTick(k), t, where)
  {
    assert forall r :: On(CountTick(k), r) == On(k, r);
  }

  /** The sections of a handler that neither rouse t, but for its timer, nor put it to rest. */
  ghost predicate Gentle(steps: seq<Step>, t: Tid, where: Option<nat>)
  {
    forall i :: 0 <= i < |steps| ==> (Rouses(steps[i], t, where) ==> steps[i] == TimeoutOne(t)) && !Lulls(steps[i], t)
  }

  /** Before its timeout is called t sleeps, from then on it is awake. */
  ghost predicate Turned(k: Kernel, t: Tid, where: Option<nat>, called: bool)
  {
    if called then Awake(k, t) else Rests(k, t, where)
  }

  lemma HandlerStep(k: Kernel, idle: Tid, s: Step, k': Kernel, t: Tid, where: Option<nat>, called: bool)
    requires KInv(k, idle) && Takes(k, idle, s, k') && InHandler(s) && Turned(k, t, where, called)
    requires (Rouses(s, t, where) ==> s == TimeoutOne(t)) && !Lulls(s, t)
    ensures KInv(k', idle) && Turned(k', t, where, called || s == TimeoutOne(t))
  {
    StepKeeps(k, idle, s, k');
    if called {
      AwakeStep(k, idle, s, k', t);
    } else if s == TimeoutOne(t) {
      TimeoutWakes(k, idle, t);
    } else {
      RestStep(k, idle, s, k', t, where);
    }
  }

  lemma {:induction false} HandlerRun(ks: seq<Kernel>, idle: Tid, steps: seq<Step>, t: Tid, where: Option<nat>, n: nat)
    requires Chain(ks, idle, steps) && n <= |steps| && Gentle(steps, t, where)
    requires KInv(ks[0], idle) && Rests(ks[0], t, where)
    ensures KInv(ks[n], idle) && Turned(ks[n], t, where, TimeoutOne(t) in steps[..n])
    decreases n
  {
    if n > 0 {
      var i := n - 1;
      HandlerRun(ks, idle, steps, t, where, i);
      assert StepAt(ks, idle, steps, i) && InHandler(steps[i]);
      assert steps[..n] == steps[..i] + [steps[i]];
      HandlerStep(ks[i], idle, steps[i], ks[n], t, where, TimeoutOne(t) in steps[..i]);
    }
  }

  // ---- the timer ----

  ghost predicate Ahead(w: T.Walk, i: T.Id)
  {
    exists j: nat :: w.i <= j < |w.list| && w.list[j] == i
  }

  lemma AheadStays(now: nat, w: T.Walk, i: T.Id)
    requires T.Known(w) && !T.Over(w) && Ahead(w, i) && w.list[w.i] != i
    ensures w.list[w.i] in w.timers && Ahead(T.WalkStep(now, w), i)
  {
    T.StepFrame(now, w);
    var j: nat :| w.i <= j < |w.list| && w.list[j] == i;
    T.TwoMembers(w.list, i, w.list[w.i]);
    var w' := T.WalkStep(now, w);
    if T.RestartsHere(now, w) {
      assert i in w'.list;
      var l: nat :| l < |w'.list| && w'.list[l] == i;
      assert w'.list[0] == w.list[w.i] && l >= 1;
    } else {
      assert w'.list[j] == i && j >= w'.i;
    }
  }

  /** What has fired stays so. */
  lemma {:induction false} FiredStays(now: nat, w: T.Walk, n: nat, i: T.Id)
    requires T.Known(w) && i in w.fired
    ensures i in T.Rounds(now, w, n).fired
    decreases n
  {
    if n > 0 && !T.Over(w) {
      T.StepFrame(now, w);
      FiredStays(now, T.WalkStep(now, w), n - 1, i);
    }
  }

  /** A one-shot timer that fires was on the list and active. */
  lemma {:induction false} FiredWasActive(now: nat, w: T.Walk, n: nat, i: T.Id)
    requires T.Known(w) && i !in w.fired && i in T.Rounds(now, w, n).fired
    ensures i in w.list && (!w.timers[i].periodic ==> w.timers[i].active)
    decreases n
  {
    T.StepFrame(now, w);
    var w1 := T.WalkStep(now, w);
    if i !in w1.fired { FiredWasActive(now, w1, n - 1, i); }
  }

  lemma {:induction false} RoundsMembers(now: nat, w: T.Walk, n: nat, i: T.Id)
    requires T.Known(w) && i in w.list
    ensures i in T.Rounds(now, w, n).list && i in T.Rounds(now, w, n).timers
    decreases n
  {
    if n > 0 && !T.Over(w) {
      T.StepFrame(now, w);
      RoundsMembers(now, T.WalkStep(now, w), n - 1, i);
    }
  }

  /** In a finished walk an active one-shot timer on the list fires exactly when it is due; if not, it stays as it is.
      That holds whatever the other timers are, as long as the walk ends. */
  lemma {:induction false} OneShotFires(now: nat, w: T.Walk, n: nat, i: T.Id)
    requires T.Known(w) && i in w.list && !w.timers[i].periodic && w.timers[i].active && i !in w.fired
    requires T.Due(now, w.timers[i]) ==> Ahead(w, i)
    ensures var w' := T.Rounds(now, w, n);
            && i in w'.list && i in w'.timers
            && (!T.Due(now, w.timers[i]) ==> i !in w'.fired && w'.timers[i] == w.timers[i])
            && (T.Due(now, w.timers[i]) && T.Over(w') ==> i in w'.fired)
    decreases n
  {
    if n > 0 && !T.Over(w) {
      T.StepFrame(now, w);
      var w1 := T.WalkStep(now, w);
      if w.list[w.i] == i && T.Due(now, w.timers[i]) {
        FiredStays(now, w1, n - 1, i);
        RoundsMembers(now, w1, n - 1, i);
      } else {
        if T.Due(now, w.timers[i]) { AheadStays(now, w, i); }
        OneShotFires(now, w1, n - 1, i);
      }
    }
  }

  /** A walk adds no timer, changes no kind and switches none on that was one-shot and off. */
  ghost predicate Tamer(w: T.Walk, w': T.Walk)
  {
    && w'.timers.Keys == w.timers.Keys && (forall i :: i in w'.list <==> i in w.list)
    && forall i :: i in w.timers && !w.timers[i].periodic ==>
         !w'.timers[i].periodic && (w'.timers[i].active ==> w.timers[i].active)
  }

  lemma {:induction false} RoundsFrame(now: nat, w: T.Walk, n: nat)
    requires T.Known(w)
    ensures Tamer(w, T.Rounds(now, w, n))
    decreases n
  {
    if n > 0 && !T.Over(w) {
      T.StepFrame(now, w);
      RoundsFrame(now, T.WalkStep(now, w), n - 1);
    }
  }

  // ---- runs ----

  /** Thread t sleeps, and its timer is set for tick `due`. */
  ghost predicate Resting(y: System, t: Tid, where: Option<nat>, due: nat)
  {
    && Rests(y.k, t, where) && Own(t) in y.list && Own(t) in y.timers
    && y.timers[Own(t)].active && y.timers[Own(t)].timeoutTick == due
  }

  /** Nothing wakes t but its timer, and no tick falls into the window. */
  ghost predicate Calm(y: System, a: Action, t: Tid, where: Option<nat>)
  {
    match a
    case Other(s) => !Rouses(s, t, where)
    case TickIrq(_, steps, _) => Gentle(steps, t, where) && !InWindow(y.k, t)
    case _ => true
  }

  lemma ArmedKeeps(y: System, u: Tid, n: nat, t: Tid)
    requires T.Known(W(y)) && Own(u) in y.timers && u != t
    ensures SameTimer(y, Armed(y, u, n), Own(t))
  {
    WithoutMembers(y.list, Own(u));
  }

  /** Every action but the tick leaves a sleeping thread and its timer alone. */
  lemma QuietRests(y: System, idle: Tid, a: Action, y': System, t: Tid, where: Option<nat>, due: nat)
    requires Moves(y, idle, a, y') && Resting(y, t, where, due) && Calm(y, a, t, where) && !a.TickIrq?
    ensures Resting(y', t, where, due) && y'.tick == y.tick
  {
    match a
    case Sleep(n) =>
      RestSuspend(y.k, idle, y.k.current, t, where);
      ArmedKeeps(y, y.k.current, n, t);
    case TimedWait(o, prio, n) =>
      RestWait(y.k, idle, o, prio, t, where);
      ArmedKeeps(y, y.k.current, n, t);
    case Other(s) =>
      RestStep(y.k, idle, s, y'.k, t, where);
      assert SameTimer(y, y', Own(t));
  }

  /** The kernel's part of a tick: t wakes exactly when its timer fires. */
  lemma HandlesRests(k: Kernel, idle: Tid, ks: seq<Kernel>, steps: seq<Step>, fired: seq<T.Id>, k': Kernel, t: Tid,
                     where: Option<nat>)
    requires KInv(k, idle) && !(Expires(k) && OnWait(k, k.current)) && Handles(k, idle, ks, steps, fired, k')
    requires Rests(k, t, where) && Gentle(steps, t, where) && !InWindow(k, t)
    ensures Turned(k', t, where, Own(t) in fired)
  {
    RestTick(k, idle, t, where);
    TickKeepsIff(k, idle);
    HandlerRun(ks, idle, steps, t, where, |steps|);
    assert steps[..|steps|] == steps;
  }

  /** The timers' part: an armed timer fires exactly when it is due. */
  lemma TimerTurns(now: nat, w: T.Walk, n: nat, i: T.Id)
    requires T.Known(w) && w.i == 0 && w.fired == [] && i in w.list && !w.timers[i].periodic && w.timers[i].active
    requires T.Over(T.Rounds(now, w, n))
    ensures var w' := T.Rounds(now, w, n);
            && i in w'.list && i in w'.timers && (i in w'.fired <==> now >= w.timers[i].timeoutTick)
            && (now < w.timers[i].timeoutTick ==> w'.timers[i] == w.timers[i])
  {
    var j: nat :| j < |w.list| && w.list[j] == i;
    assert Ahead(w, i);
    OneShotFires(now, w, n, i);
  }

  /** A tick wakes a sleeping thread exactly when its time has come. */
  lemma TickRests(y: System, idle: Tid, a: Action, y': System, t: Tid, where: Option<nat>, due: nat)
    requires Moves(y, idle, a, y') && Resting(y, t, where, due) && Calm(y, a, t, where) && a.TickIrq?
    ensures y'.tick == After(y.tick)
    ensures if y'.tick < due then Resting(y', t, where, due) else Awake(y'.k, t)
  {
    var now := After(y.tick);
    TimerTurns(now, W(y), a.rounds, Own(t));
    HandlesRests(y.k, idle, a.ks, a.steps, T.Rounds(now, W(y), a.rounds).fired, y'.k, t, where);
  }

  lemma {:induction false} HandlerKeeps(ks: seq<Kernel>, idle: Tid, steps: seq<Step>, n: nat)
    requires Chain(ks, idle, steps) && n <= |steps| && KInv(ks[0], idle)
    ensures KInv(ks[n], idle)
    decreases n
  {
    if n > 0 {
      HandlerKeeps(ks, idle, steps, n - 1);
      assert StepAt(ks, idle, steps, n - 1);
      StepKeeps(ks[n - 1], idle, steps[n - 1], ks[n]);
    }
  }

  /** Every action leaves the kernel in order. */
  lemma MoveKeeps(y: System, idle: Tid, a: Action, y': System)
    requires Moves(y, idle, a, y')
    ensures KInv(y'.k, idle) && Orderly(y')
  {
    match a
    case Sleep(_) => SuspendCurrent(y.k, idle);
    case TimedWait(o, prio, _) => WaitOnKeeps(y.k, idle, o, prio);
    case Other(s) => StepKeeps(y.k, idle, s, y'.k);
    case TickIrq(ks, steps, _) =>
      TickKeepsIff(y.k, idle);
      HandlerKeeps(ks, idle, steps, |steps|);
  }

  ghost predicate MovesAt(ys: seq<System>, idle: Tid, actions: seq<Action>, i: nat)
    requires i < |actions| < |ys|
  {
    Moves(ys[i], idle, actions[i], ys[i + 1])
  }

  ghost predicate IsRun(ys: seq<System>, idle: Tid, actions: seq<Action>)
  {
    |ys| == |actions| + 1 && forall i: nat :: i < |actions| ==> MovesAt(ys, idle, actions, i)
  }

  ghost predicate CalmAt(ys: seq<System>, actions: seq<Action>, t: Tid, where: Option<nat>, i: nat)
    requires i < |actions| < |ys|
  {
    Calm(ys[i], actions[i], t, where)
  }

  /** The ticks among the actions i, ..., n - 1. */
  function Ticks(actions: seq<Action>, i: nat, n: nat): (m: nat)
    requires i <= n <= |actions|
    decreases n
  {
    if n == i then 0 else Ticks(actions, i, n - 1) + if actions[n - 1].TickIrq? then 1 else 0
  }

  /** The clock shows less than `due` for the next m ticks. */
  ghost predicate Early(start: nat, due: nat, m: nat)
  {
    forall j: nat :: 1 <= j <= m ==> Clock(start, j) < due
  }

  /** Thread t sleeps and m ticks have passed. */
  ghost predicate AsleepAt(y: System, t: Tid, where: Option<nat>, due: nat, start: nat, m: nat)
  {
    Resting(y, t, where, due) && y.tick == Clock(start, m)
  }

  lemma AsleepStep(y: System, idle: Tid, a: Action, y': System, t: Tid, where: Option<nat>, due: nat, start: nat,
                   m: nat)
    requires Moves(y, idle, a, y') && Calm(y, a, t, where) && AsleepAt(y, t, where, due, start, m)
    ensures !a.TickIrq? ==> AsleepAt(y', t, where, due, start, m)
    ensures a.TickIrq? && Clock(start, m + 1) < due ==> AsleepAt(y', t, where, due, start, m + 1)
    ensures a.TickIrq? && Clock(start, m + 1) >= due ==> Awake(y'.k, t)
  {
    if a.TickIrq? {
      TickRests(y, idle, a, y', t, where, due);
    } else {
      QuietRests(y, idle, a, y', t, where, due);
    }
  }

  lemma AsleepNext(ys: seq<System>, idle: Tid, actions: seq<Action>, t: Tid, where: Option<nat>, due: nat, start: nat,
                   m: nat, i: nat)
    requires IsRun(ys, idle, actions) && i < |actions| && CalmAt(ys, actions, t, where, i)
    requires AsleepAt(ys[i], t, where, due, start, m)
    ensures !actions[i].TickIrq? ==> AsleepAt(ys[i + 1], t, where, due, start, m)
    ensures actions[i].TickIrq? && Clock(start, m + 1) < due ==> AsleepAt(ys[i + 1], t, where, due, start, m + 1)
    ensures actions[i].TickIrq? && Clock(start, m + 1) >= due ==> Awake(ys[i + 1].k, t)
  {
    assert MovesAt(ys, idle, actions, i);
    AsleepStep(ys[i], idle, actions[i], ys[i + 1], t, where, due, start, m);
  }

  lemma {:induction false} StillAsleep(ys: seq<System>, idle: Tid, actions: seq<Action>, t: Tid, where: Option<nat>,
                                       due: nat, start: nat, i: nat, n: nat)
    requires IsRun(ys, idle, actions) && i <= n <= |actions| && AsleepAt(ys[i], t, where, due, start, 0)
    requires Early(start, due, Ticks(actions, i, n))
    requires forall j: nat :: i <= j < n ==> CalmAt(ys, actions, t, where, j)
    ensures AsleepAt(ys[n], t, where, due, start, Ticks(actions, i, n))
    decreases n
  {
    if n > i {
      StillAsleep(ys, idle, actions, t, where, due, start, i, n - 1);
      AsleepNext(ys, idle, actions, t, where, due, start, Ticks(actions, i, n - 1), n - 1);
    }
  }

  // ---- how long ----

  /** The number of ticks until the clock, at `start`, reaches start + n as the code computes it. */
  function Delay(start: nat, n: nat): (d: nat)
  {
    if start == T.TICK_RANGE - 1 then (if n == 0 then T.TICK_RANGE else n)
    else if 0 < n && start + n < T.TICK_RANGE then n
    else 1
  }

  lemma Wraps(start: nat, m: nat)
    requires start < T.TICK_RANGE && m <= T.TICK_RANGE
    ensures Clock(start, m) == if start + m < T.TICK_RANGE then start + m else start + m - T.TICK_RANGE
  {
    ClockIs(start, m);
  }

  lemma DelayIsFirst(start: nat, n: nat)
    requires start < T.TICK_RANGE && n < T.TICK_RANGE
    ensures Delay(start, n) >= 1 && Early(start, Clock(start, n), Delay(start, n) - 1)
    ensures Clock(start, Delay(start, n)) >= Clock(start, n)
  {
    Wraps(start, n);
    Wraps(start, Delay(start, n));
    forall j: nat | 1 <= j <= Delay(start, n) - 1 ensures Clock(start, j) < Clock(start, n) { Wraps(start, j); }
  }

  /** The sleep lasts the ticks it was asked for exactly when they are at least one and do not run over the end of the
      32-bit counter, unless it starts in the last tick before that end. */
  lemma DelayExact(start: nat, n: nat)
    requires start < T.TICK_RANGE && n < T.TICK_RANGE
    ensures Delay(start, n) == n <==> n >= 1 && (start + n < T.TICK_RANGE || start == T.TICK_RANGE - 1)
  {
  }

  /** The call that puts the current thread to rest, where, and for how many ticks. */
  ghost predicate Rest(a: Action, where: Option<nat>, n: nat)
  {
    match a
    case Sleep(m) => where == None && n == m
    case TimedWait(o, _, m) => where == Some(o) && n == m
    case _ => false
  }

  lemma WaitRests(k: Kernel, idle: Tid, o: nat, prio: bool)
    requires MayCall(k, idle)
    ensures forall x :: x in On(k, WaitRing(o)) ==> x in k.threads
    ensures Rests(WaitOn(k, o, prio), k.current, Some(o))
  {
    WaitLists(k, idle, o, prio);
    assert WaitOn(k, o, prio).threads[k.current].stat == SUSPEND by { WaitOnKeeps(k, idle, o, prio); }
  }

  lemma ArmedRests(y: System, n: nat, k': Kernel, where: Option<nat>)
    requires Own(y.k.current) in y.timers && y.tick < T.TICK_RANGE && Rests(k', y.k.current, where)
    ensures Resting(Armed(y, y.k.current, n).(k := k'), y.k.current, where, Clock(y.tick, n))
  {
    ClockIs(y.tick, n);
  }

  lemma SleepBegins(y: System, idle: Tid, n: nat)
    requires MayCall(y.k, idle) && Own(y.k.current) in y.timers && y.tick < T.TICK_RANGE
    ensures Resting(SleepFor(y, n), y.k.current, None, Clock(y.tick, n))
  {
    SuspendCurrent(y.k, idle);
    ArmedRests(y, n, SuspendThread(y.k, y.k.current), None);
  }

  lemma WaitBegins(y: System, idle: Tid, o: nat, prio: bool, n: nat)
    requires MayCall(y.k, idle) && Own(y.k.current) in y.timers && y.tick < T.TICK_RANGE
    ensures forall x :: x in On(y.k, WaitRing(o)) ==> x in y.k.threads
    ensures Resting(WaitFor(y, o, prio, n), y.k.current, Some(o), Clock(y.tick, n))
  {
    WaitRests(y.k, idle, o, prio);
    ArmedRests(y, n, WaitOn(y.k, o, prio), Some(o));
  }

  lemma SleepStarts(y: System, idle: Tid, n: nat, y': System)
    requires Moves(y, idle, Sleep(n), y')
    ensures AsleepAt(y', y.k.current, None, Clock(y.tick, n), y.tick, 0) && y.tick < T.TICK_RANGE && n < T.TICK_RANGE
  {
    SleepBegins(y, idle, n);
  }

  lemma WaitStarts(y: System, idle: Tid, o: nat, prio: bool, n: nat, y': System)
    requires Moves(y, idle, TimedWait(o, prio, n), y')
    ensures AsleepAt(y', y.k.current, Some(o), Clock(y.tick, n), y.tick, 0) && y.tick < T.TICK_RANGE
    ensures n < T.TICK_RANGE
  {
    WaitBegins(y, idle, o, prio, n);
  }

  lemma RestBeginsAt(ys: seq<System>, idle: Tid, actions: seq<Action>, where: Option<nat>, n: nat, i: nat)
    requires IsRun(ys, idle, actions) && i < |actions| && Rest(actions[i], where, n)
    ensures AsleepAt(ys[i + 1], ys[i].k.current, where, Clock(ys[i].tick, n), ys[i].tick, 0)
    ensures ys[i].tick < T.TICK_RANGE && n < T.TICK_RANGE
  {
    assert MovesAt(ys, idle, actions, i);
    match actions[i]
    case Sleep(_) => SleepStarts(ys[i], idle, n, ys[i + 1]);
    case TimedWait(o, prio, _) => WaitStarts(ys[i], idle, o, prio, n, ys[i + 1]);
  }

  /** Nothing but its timer wakes the thread that action i put to rest, up to state m. */
  ghost predicate Undisturbed(ys: seq<System>, actions: seq<Action>, where: Option<nat>, i: nat, m: nat)
    requires i < m <= |actions| < |ys|
  {
    forall j: nat :: i < j < m ==> CalmAt(ys, actions, ys[i].k.current, where, j)
  }

  /** A thread that sleeps or waits for n ticks and that nothing else wakes sleeps through all but the last of
      Delay(tick, n) ticks. */
  lemma SleepsUntil(ys: seq<System>, idle: Tid, actions: seq<Action>, where: Option<nat>, n: nat, i: nat, m: nat)
    requires IsRun(ys, idle, actions) && i < m <= |actions| && Rest(actions[i], where, n)
    requires Undisturbed(ys, actions, where, i, m) && Ticks(actions, i + 1, m) < Delay(ys[i].tick, n)
    ensures AsleepAt(ys[m], ys[i].k.current, where, Clock(ys[i].tick, n), ys[i].tick, Ticks(actions, i + 1, m))
  {
    RestBeginsAt(ys, idle, actions, where, n, i);
    DelayIsFirst(ys[i].tick, n);
    StillAsleep(ys, idle, actions, ys[i].k.current, where, Clock(ys[i].tick, n), ys[i].tick, i + 1, m);
  }

  /** And the last one wakes it. */
  lemma WakesAt(ys: seq<System>, idle: Tid, actions: seq<Action>, where: Option<nat>, n: nat, i: nat, m: nat)
    requires IsRun(ys, idle, actions) && i + 1 < m <= |actions| && Rest(actions[i], where, n)
    requires Undisturbed(ys, actions, where, i, m) && actions[m - 1].TickIrq?
    requires Ticks(actions, i + 1, m) == Delay(ys[i].tick, n)
    ensures Awake(ys[m].k, ys[i].k.current)
  {
    var t, start, d := ys[i].k.current, ys[i].tick, Delay(ys[i].tick, n);
    RestBeginsAt(ys, idle, actions, where, n, i);
    DelayIsFirst(start, n);
    SleepsUntil(ys, idle, actions, where, n, i, m - 1);
    AsleepNext(ys, idle, actions, t, where, Clock(start, n), start, d - 1, m - 1);
  }

  // ---- the window ----

  /** The slice of a thread ends between its sleep and its sk_schedule: it is marked as yielding, is no longer plainly
      suspended, and sk_schedule queues it. */
  lemma WindowQueues(k: Kernel, idle: Tid, t: Tid)
    requires KInv(k, idle) && Rests(k, t, None) && InWindow(k, t) && t != idle
    ensures KInv(CountTick(k), idle) && Next(CountTick(k)) in k.threads
    ensures KInv(Schedule(CountTick(k)), idle) && Awake(Schedule(CountTick(k)), t)
  {
    TickKeepsIff(k, idle);
    NextKnown(CountTick(k), idle);
    ScheduleKeeps(CountTick(k), idle);
  }

  lemma {:induction false} AwakeRun(ks: seq<Kernel>, idle: Tid, steps: seq<Step>, t: Tid, n: nat)
    requires Chain(ks, idle, steps) && 1 <= n <= |steps| && Gentle(steps, t, None) && Awake(ks[1], t)
    ensures Awake(ks[n], t)
    decreases n
  {
    if n > 1 {
      AwakeRun(ks, idle, steps, t, n - 1);
      assert StepAt(ks, idle, steps, n - 1) && InHandler(steps[n - 1]);
      AwakeStep(ks[n - 1], idle, steps[n - 1], ks[n], t);
    }
  }

  lemma HandlesAwake(k: Kernel, idle: Tid, ks: seq<Kernel>, steps: seq<Step>, fired: seq<T.Id>, k': Kernel, t: Tid)
    requires KInv(k, idle) && Handles(k, idle, ks, steps, fired, k') && Gentle(steps, t, None)
    requires Rests(k, t, None) && InWindow(k, t) && t != idle
    ensures Awake(k', t)
  {
    WindowQueues(k, idle, t);
    assert StepAt(ks, idle, steps, 0);
    AwakeRun(ks, idle, steps, t, |steps|);
  }

  /** A tick in the window ends the sleep, however long it was to be. */
  lemma WindowWakes(y: System, idle: Tid, a: Action, y': System, t: Tid)
    requires Moves(y, idle, a, y') && a.TickIrq? && Rests(y.k, t, None) && InWindow(y.k, t) && t != idle
    requires Gentle(a.steps, t, None)
    ensures Awake(y'.k, t)
  {
    var now := After(y.tick);
    HandlesAwake(y.k, idle, a.ks, a.steps, T.Rounds(now, W(y), a.rounds).fired, y'.k, t);
  }

  // ---- from the start ----

  lemma ArmedKnown(y: System, t: Tid, n: nat)
    requires T.Known(W(y)) && Own(t) in y.timers
    ensures T.Known(W(Armed(y, t, n))) && forall i :: i in Armed(y, t, n).list <==> i in y.list || i == Own(t)
  {
    WithoutMembers(y.list, Own(t));
    assert W(y).list == y.list && Own(t) !in Without(y.list, Own(t));
  }

  lemma ArmedOrderly(y: System, t: Tid, n: nat, k': Kernel)
    requires Orderly(y) && t in y.k.threads && k'.threads.Keys == y.k.threads.Keys && k'.threads[t].stat.base != Close
    requires forall u :: u in y.k.threads && u != t ==> k'.threads[u].stat == y.k.threads[u].stat
    ensures Orderly(Armed(y, t, n).(k := k'))
  {
    ArmedKnown(y, t, n);
    assert W(Armed(y, t, n).(k := k')) == W(Armed(y, t, n));
  }

  /** The running thread can always go to sleep. */
  lemma SleepMoves(y: System, idle: Tid, n: nat)
    requires Orderly(y) && MayCall(y.k, idle) && n < T.TICK_RANGE
    ensures Moves(y, idle, Sleep(n), SleepFor(y, n))
  {
    SuspendCurrent(y.k, idle);
    ArmedOrderly(y, y.k.current, n, SuspendThread(y.k, y.k.current));
  }

  /** A thread sleeps for n ticks while no timer runs. */
  lemma FirstSleeps(y: System, idle: Tid, n: nat) returns (y': System)
    requires Orderly(y) && y.list == [] && MayCall(y.k, idle) && n < T.TICK_RANGE
    ensures Moves(y, idle, Sleep(n), y') && y'.k == SuspendThread(y.k, y.k.current) && KInv(y'.k, idle)
    ensures Resting(y', y.k.current, None, Clock(y.tick, n)) && y'.tick == y.tick && y'.list == [Own(y.k.current)]
  {
    SleepMoves(y, idle, n);
    SleepBegins(y, idle, n);
    SuspendCurrent(y.k, idle);
    y' := SleepFor(y, n);
  }

  lemma NotDueAlone(now: nat, w: T.Walk, i: T.Id)
    requires T.Known(w) && w.list == [i] && w.i == 0 && now < w.timers[i].timeoutTick
    ensures T.Rounds(now, w, 1) == w.(i := 1)
  {
    T.StepFrame(now, w);
    assert T.Rounds(now, w, 1) == T.Rounds(now, T.WalkStep(now, w), 0);
  }

  lemma ScheduleHandles(k: Kernel, idle: Tid, k1: Kernel, k2: Kernel)
    requires k.current in k.threads && k1 == CountTick(k) && KInv(k1, idle) && Takes(k1, idle, Reschedule, k2)
    ensures Handles(k, idle, [k1, k2], [Reschedule], [], k2)
  {
    assert StepAt([k1, k2], idle, [Reschedule], 0);
  }

  /** sk_tick_increase while no timer is due. */
  lemma PlainTick(y: System, idle: Tid, ks: seq<Kernel>, steps: seq<Step>, i: T.Id, y': System)
    requires KInv(y.k, idle) && Orderly(y) && y.list == [i] && !(Expires(y.k) && OnWait(y.k, y.k.current))
    requires y.tick + 1 < T.TICK_RANGE && i in y.timers && y.tick + 1 < y.timers[i].timeoutTick
    requires Handles(y.k, idle, ks, steps, [], y'.k) && y' == System(y'.k, y.timers, y.list, y.tick + 1)
    requires Orderly(y')
    ensures Moves(y, idle, TickIrq(ks, steps, 1), y')
  {
    NotDueAlone(y.tick + 1, W(y), i);
  }

  lemma ScheduleCloses(k: Kernel, idle: Tid)
    requires KInv(k, idle)
    ensures Next(k) in k.threads && NoneCloses(k, Schedule(k))
  {
    NextKnown(k, idle);
  }

  lemma TickCloses(k: Kernel)
    requires k.current in k.threads
    ensures NoneCloses(k, CountTick(k))
  {
  }

  /** A tick ends the slice of the sleeping thread before its sk_schedule; its timer is not due. */
  lemma WindowTick(y: System, idle: Tid, t: Tid) returns (y': System, a: Action)
    requires KInv(y.k, idle) && Orderly(y) && Rests(y.k, t, None) && InWindow(y.k, t) && t != idle
    requires y.list == [Own(t)] && y.tick + 1 < T.TICK_RANGE && y.tick + 1 < y.timers[Own(t)].timeoutTick
    ensures a.TickIrq? && Moves(y, idle, a, y') && Awake(y'.k, t) && y'.tick == y.tick + 1
  {
    WindowQueues(y.k, idle, t);
    var k1 := CountTick(y.k);
    TickCloses(y.k);
    ScheduleCloses(k1, idle);
    var k2 := Schedule(k1);
    ScheduleHandles(y.k, idle, k1, k2);
    y' := System(k2, y.timers, y.list, y.tick + 1);
    a := TickIrq([k1, k2], [Reschedule], 1);
    PlainTick(y, idle, [k1, k2], [Reschedule], Own(t), y');
  }

  /** Two threads whose timers do not run. */
  lemma NoTimers(k: Kernel, t: Tid, u: Tid) returns (y: System)
    requires k.threads.Keys == {t, u}
    ensures Orderly(y) && y.k == k && y.list == [] && y.tick == 0
  {
    var x := T.Timer(false, false, 0, 0);
    y := System(k, map[Own(t) := x, Own(u) := x], [], 0);
  }

  /** The window from the start of a system: a thread with a slice of one tick wants to sleep for n ticks and is ready
      again after the first. */
  lemma CutShort(nobody: Tid, idle: Tid, t: Tid, n: nat)
      returns (bs: seq<Kernel>, boot: seq<BootStep>, y0: System, y1: System, y2: System, a: Action)
    requires nobody != idle && nobody != t && idle != t && 1 < n < T.TICK_RANGE
    ensures IsBoot(bs, boot, nobody) && Highest(bs[|boot|]).Some?
    ensures On(bs[|boot|], ReadyRing(Highest(bs[|boot|]).value))[0] in bs[|boot|].threads
    ensures y0.k == StartFirst(bs[|boot|]) && y0.k.current == t && y0.list == [] && y0.tick == 0
    ensures Moves(y0, idle, Sleep(n), y1) && a.TickIrq? && Moves(y1, idle, a, y2)
    ensures Delay(0, n) == n && y2.tick == 1 && Awake(y2.k, t)
  {
    bs, boot := StartsWith(nobody, idle, t, 1);
    y0 := NoTimers(StartFirst(bs[|boot|]), t, idle);
    y1 := FirstSleeps(y0, idle, n);
    Wraps(0, n);
    y2, a := WindowTick(y1, idle, t);
  }
}
