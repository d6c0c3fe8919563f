/** The mutex (ipc/mutex.c) on top of the scheduler. */
module Mutex {
  import opened Options
  import opened Seqs
  import opened Kernel
  import opened KernelInvariant
  import opened KernelSteps
  import opened KernelRuns
  import opened Boot
  import opened IpcBase
  import S = Scheduler

  const HOLD_MAX := 0xFF

  datatype Mutex = Mutex(value: nat, owner: Option<Tid>, hold: nat, originalPri: nat)

  /** SK_EOK, SK_EFULL, SK_ETIMEOUT, SK_ERROR; Blocked: suspended inside the call, which returns SK_EOK when it runs
      again. */
  datatype Outcome = Ok | Full | TimedOut | Error | Blocked

  /** sk_mutex_init */
  const INITIAL := Mutex(1, None, 0, 0xFF)

  /** sk_mutex_lock by the current thread, up to its sk_schedule. */
  function Lock(k: Kernel, m: Mutex, o: nat, time: int): (r: (Kernel, Mutex, Outcome))
    requires k.current in k.threads && forall x :: x in Waiters(k, o) ==> x in k.threads
  {
    var t := k.current;
    if m.owner == Some(t) then
      if m.hold < HOLD_MAX then (k, m.(hold := m.hold + 1), Ok) else (k, m, Full)
    else if m.value > 0 then
      var m1 := m.(value := m.value - 1, owner := Some(t), originalPri := k.threads[t].pri);
      if m.hold < HOLD_MAX then (k, m1.(hold := m.hold + 1), Ok) else (k, m1, Full)
    else if time == 0 then (k, m, TimedOut)
    else (WaitOn(k, o, true), m, Blocked)
  }

  /** sk_mutex_unlock by the current thread, up to its sk_schedule. */
  function Unlock(k: Kernel, m: Mutex, o: nat): (r: (Kernel, Mutex, Outcome))
    requires forall x :: x in Waiters(k, o) ==> x in k.threads
  {
    var hold := (m.hold + 0xFF) % 0x100;
    if m.owner != Some(k.current) then (k, m, Error)
    else if hold != 0 then (k, m.(hold := hold), Ok)
    else if Waiters(k, o) != [] then
      var t := Waiters(k, o)[0];
      (ResumeThread(k, t), Mutex(m.value, Some(t), 1, k.threads[t].pri), Ok)
    else (k, Mutex(m.value + 1, None, 0, 0xFF), Ok)
  }

  /** The mutex is free, or held by one thread that does not wait for it; the waiters are sorted by priority. */
  ghost predicate MutexOk(k: Kernel, m: Mutex, o: nat)
  {
    && m.value == (if m.owner.None? then 1 else 0) && (m.owner.None? <==> m.hold == 0) && m.hold <= HOLD_MAX
    && (m.owner.Some? ==> m.owner.value in k.threads && m.originalPri == k.threads[m.owner.value].pri)
    && (m.owner.None? ==> m.originalPri == 0xFF)
    && (Waiters(k, o) != [] ==> m.owner.Some? && m.owner.value !in Waiters(k, o))
    && SortedByPri(k.threads, Waiters(k, o))
  }

  /** The threads inside a blocking sk_mutex_lock, those of them that a timeout or a resume took off the list, and when
      each one last joined it. */
  datatype System = System(k: Kernel, m: Mutex, blocked: set<Tid>, expelled: set<Tid>, arrived: map<Tid, nat>,
                           clock: nat)

  datatype Action = DoLock(time: int) | DoUnlock | Return | Env(s: Step)

  /** Calls are made in the name of the current thread, the idle one included; only a lock that blocks needs a thread
      that may. */
  ghost predicate Moves(y: System, idle: Tid, o: nat, a: Action, y': System)
  {
    KInv(y.k, idle) &&
    match a
    case DoLock(time) =>
      && y.k.current !in y.blocked && (forall x :: x in Waiters(y.k, o) ==> x in y.k.threads)
      && var (k', m', r) := Lock(y.k, y.m, o, time);
         if r == Blocked then
           CanCall(y.k, idle)
           && y' == y.(k := k', m := m', blocked := y.blocked + {y.k.current},
                       arrived := y.arrived[y.k.current := y.clock], clock := y.clock + 1)
         else y' == y.(k := k', m := m')
    case DoUnlock =>
      && y.k.current !in y.blocked && (forall x :: x in Waiters(y.k, o) ==> x in y.k.threads)
      && var (k', m', r) := Unlock(y.k, y.m, o); y' == y.(k := k', m := m')
    case Return =>
      CanCall(y.k, idle) && y.k.current in y.blocked
      && y' == y.(blocked := y.blocked - {y.k.current}, expelled := y.expelled - {y.k.current})
    case Env(s) =>
      Environment(y.k, idle, o, s, y'.k)
      && y' == y.(k := y'.k,
                  expelled := y.expelled + set t | t in y.blocked && t in Waiters(y.k, o) && t !in Waiters(y'.k, o))
  }

  /** The waiters stand by priority and, among equals, by arrival. A blocked thread waits, or was handed the mutex, or
      was expelled; only one of these. */
  ghost predicate Inv(y: System, idle: Tid, o: nat)
  {
    && KInv(y.k, idle) && MutexOk(y.k, y.m, o) && Queued(y.k.threads, Waiters(y.k, o), y.arrived, y.clock)
    && (forall t :: t in Waiters(y.k, o) ==> t in y.blocked)
    && y.expelled <= y.blocked
    && (forall t :: t in y.blocked ==> (t in Waiters(y.k, o) || y.m.owner == Some(t) || t in y.expelled))
    && (forall t :: t in y.expelled ==> t !in Waiters(y.k, o) && y.m.owner != Some(t))
  }

  /** The lock finds the mutex with another thread and is to wait for it. */
  predicate MustWait(k: Kernel, m: Mutex, time: int)
  {
    m.owner != Some(k.current) && m.value == 0 && time != 0
  }

  /** Locking keeps the invariant of the mutex. A free mutex is taken with a hold of 1, the owner holds it once more, up
      to the most an 8-bit hold can count; any other thread gives up or queues behind everybody of its priority or a
      better one. */
  lemma LockKeeps(k: Kernel, idle: Tid, m: Mutex, o: nat, time: int)
    requires KInv(k, idle) && MutexOk(k, m, o) && (MustWait(k, m, time) ==> CanCall(k, idle))
    ensures forall x :: x in Waiters(k, o) ==> x in k.threads
    ensures var (k', m', r) := Lock(k, m, o, time);
            && KInv(k', idle) && MutexOk(k', m', o)
            && (r == Ok <==> m.owner.None? || (m.owner == Some(k.current) && m.hold < HOLD_MAX))
            && (r == Full <==> m.owner == Some(k.current) && m.hold == HOLD_MAX)
            && (r == TimedOut <==> m.owner.Some? && m.owner.value != k.current && time == 0)
            && (r == Blocked <==> m.owner.Some? && m.owner.value != k.current && time != 0)
            && (m.owner.None? ==> k' == k && m' == Mutex(0, Some(k.current), 1, k.threads[k.current].pri))
            && (r == Ok && m.owner.Some? ==> k' == k && m' == m.(hold := m.hold + 1))
            && (r in {Full, TimedOut} ==> k' == k && m' == m)
            && (r == Blocked ==> m' == m && Blocks(k, o, true, k'))
  {
    WaitersKnown(k, o);
    if MustWait(k, m, time) {
      Join(k, idle, o, true);
      WaitOnKeeps(k, idle, o, true);
    }
  }

  /** Unlocking keeps the invariant of the mutex; the last unlock frees it, or hands it to the first waiter. */
  lemma UnlockKeeps(k: Kernel, idle: Tid, m: Mutex, o: nat)
    requires KInv(k, idle) && MutexOk(k, m, o)
    ensures forall x :: x in Waiters(k, o) ==> x in k.threads
    ensures var (k', m', r) := Unlock(k, m, o);
            && KInv(k', idle) && MutexOk(k', m', o)
            && (r == Error <==> m.owner != Some(k.current))
            && (r == Error ==> k' == k && m' == m)
            && (r == Ok <==> r != Error)
            && (r == Ok && m.hold > 1 ==> k' == k && m' == m.(hold := m.hold - 1))
            && (r == Ok && m.hold == 1 && Waiters(k, o) == [] ==> k' == k && m' == INITIAL)
            && (r == Ok && m.hold == 1 && Waiters(k, o) != [] ==>
                  var t := Waiters(k, o)[0];
                  && t in k.threads && m' == Mutex(0, Some(t), 1, k.threads[t].pri)
                  && Waiters(k', o) == Waiters(k, o)[1..])
  {
    WaitersKnown(k, o);
    if Waiters(k, o) != [] { WakeHead(k, idle, o); }
  }

  /** The hand-over wakes exactly the new owner. */
  lemma UnlockWakes(k: Kernel, idle: Tid, m: Mutex, o: nat)
    requires KInv(k, idle) && m.owner == Some(k.current) && m.hold == 1 && Waiters(k, o) != []
    ensures forall x :: x in Waiters(k, o) ==> x in k.threads
    ensures var k' := Unlock(k, m, o).0; FirstWoken(k, o, k') && Awake(k', Waiters(k, o)[0])
  {
    WaitersKnown(k, o);
    HeadWoken(k, idle, o);
  }

  lemma LockQueues(y: System, idle: Tid, o: nat)
    requires Inv(y, idle, o) && CanCall(y.k, idle)
    ensures forall x :: x in Waiters(y.k, o) ==> x in y.k.threads
    ensures var k' := WaitOn(y.k, o, true);
            Queued(k'.threads, Waiters(k', o), y.arrived[y.k.current := y.clock], y.clock + 1)
  {
    Join(y.k, idle, o, true);
    QueuedJoin(y.k.threads, Waiters(y.k, o), y.arrived, y.clock, y.k.current);
    var k' := WaitOn(y.k, o, true);
    QueuedSurvives(y.k, k', Waiters(k', o), Waiters(k', o), y.arrived[y.k.current := y.clock], y.clock + 1);
  }

  lemma LockMove(y: System, idle: Tid, o: nat, time: int, y': System)
    requires Inv(y, idle, o) && Moves(y, idle, o, DoLock(time), y')
    ensures Inv(y', idle, o)
  {
    LockKeeps(y.k, idle, y.m, o, time);
    if MustWait(y.k, y.m, time) {
      Join(y.k, idle, o, true);
      LockQueues(y, idle, o);
    }
  }

  lemma HandQueues(y: System, idle: Tid, o: nat)
    requires Inv(y, idle, o) && Waiters(y.k, o) != []
    ensures Waiters(y.k, o)[0] in y.k.threads
    ensures var k' := ResumeThread(y.k, Waiters(y.k, o)[0]);
            Queued(k'.threads, Waiters(k', o), y.arrived, y.clock)
  {
    WakeHead(y.k, idle, o);
    var w := Waiters(y.k, o);
    assert w[1..] == Without(w, w[0]);
    QueuedSurvives(y.k, ResumeThread(y.k, w[0]), w, w[1..], y.arrived, y.clock);
  }

  /** The places of the blocked threads after a hand-over. */
  lemma HandPlaces(y: System, idle: Tid, o: nat)
    requires Inv(y, idle, o) && y.m.owner == Some(y.k.current) && y.k.current !in y.blocked && Waiters(y.k, o) != []
    ensures Waiters(y.k, o)[0] in y.k.threads
    ensures var t, w' := Waiters(y.k, o)[0], Waiters(ResumeThread(y.k, Waiters(y.k, o)[0]), o);
            && (forall x :: x in w' ==> x in y.blocked)
            && (forall x :: x in y.blocked ==> x in w' || x == t || x in y.expelled)
            && (forall x :: x in y.expelled ==> x !in w' && x != t)
  {
    WakeHead(y.k, idle, o);
    assert Waiters(y.k, o)[0] in Waiters(y.k, o);
  }

  lemma UnlockMove(y: System, idle: Tid, o: nat, y': System)
    requires Inv(y, idle, o) && Moves(y, idle, o, DoUnlock, y')
    ensures Inv(y', idle, o)
  {
    UnlockKeeps(y.k, idle, y.m, o);
    if Waiters(y.k, o) != [] {
      if y.m.owner == Some(y.k.current) { HandPlaces(y, idle, o); }
      HandQueues(y, idle, o);
    }
  }

  lemma EnvMove(y: System, idle: Tid, o: nat, s: Step, y': System)
    requires Inv(y, idle, o) && Moves(y, idle, o, Env(s), y')
    ensures Inv(y', idle, o)
  {
    StepKeeps(y.k, idle, s, y'.k);
    EnvironmentLeaves(y.k, idle, o, s, y'.k);
    EnvironmentPriorities(y.k, idle, o, s, y'.k);
    OneLeftMembers(Waiters(y.k, o), Waiters(y'.k, o));
    SortedSurvives(y.k, y'.k, Waiters(y.k, o), Waiters(y'.k, o));
    QueuedSurvives(y.k, y'.k, Waiters(y.k, o), Waiters(y'.k, o), y.arrived, y.clock);
  }

  lemma MoveKeeps(y: System, idle: Tid, o: nat, a: Action, y': System)
    requires Inv(y, idle, o) && Moves(y, idle, o, a, y')
    ensures Inv(y', idle, o)
  {
    match a
    case DoLock(time) => LockMove(y, idle, o, time, y');
    case DoUnlock => UnlockMove(y, idle, o, y');
    case Return => RunningNotWaiting(y.k, idle, o);
    case Env(s) => EnvMove(y, idle, o, s, y');
  }

  /** A blocked sk_mutex_lock always returns SK_EOK; the caller then owns the mutex exactly when nothing but the owner's
      unlock took it off the wait list, as with waits without a timeout. */
  lemma ReturnOwnsIff(y: System, idle: Tid, o: nat)
    requires Inv(y, idle, o) && CanCall(y.k, idle) && y.k.current in y.blocked
    ensures y.m.owner == Some(y.k.current) <==> y.k.current !in y.expelled
  {
    RunningNotWaiting(y.k, idle, o);
  }

  lemma TimedLockWaits(y: System, idle: Tid, o: nat, time: int) returns (y': System)
    requires Inv(y, idle, o) && CanCall(y.k, idle) && y.k.current !in y.blocked && MustWait(y.k, y.m, time)
    ensures Moves(y, idle, o, DoLock(time), y') && Inv(y', idle, o)
    ensures y'.k.current == y.k.current && y'.m == y.m && y'.k.current in Waiters(y'.k, o)
  {
    var t := y.k.current;
    LockKeeps(y.k, idle, y.m, o, time);
    Join(y.k, idle, o, true);
    y' := y.(k := WaitOn(y.k, o, true), blocked := y.blocked + {t}, arrived := y.arrived[t := y.clock],
             clock := y.clock + 1);
    LockMove(y, idle, o, time, y');
  }

  /** A timeout makes its waiter one that will come back with SK_EOK and without the mutex. */
  lemma TimeoutExpels(y: System, idle: Tid, o: nat, t: Tid, y': System)
    requires Inv(y, idle, o) && t in Waiters(y.k, o) && Moves(y, idle, o, Env(TimeoutOne(t)), y')
    ensures t in y'.blocked && t in y'.expelled && y'.m == y.m && y'.m.owner != Some(t)
    ensures Waiters(y'.k, o) == Without(Waiters(y.k, o), t)
  {
    TimeoutLeaves(y.k, o, t);
  }

  lemma TimedLockReturns(y: System, idle: Tid, o: nat) returns (y': System)
    requires Inv(y, idle, o) && y.k.current != idle && y.k.current in Waiters(y.k, o)
    ensures Moves(y, idle, o, Env(TimeoutOne(y.k.current)), y') && Inv(y', idle, o)
    ensures CanCall(y'.k, idle) && y'.k.current == y.k.current && y'.k.current in y'.blocked
    ensures y'.m == y.m && y'.m.owner != Some(y'.k.current)
  {
    var t := y.k.current;
    var k' := WakeThread(y.k, t);
    CurrentTimesOut(y.k, idle, o);
    var gone := set x | x in y.blocked && x in Waiters(y.k, o) && x !in Waiters(k', o);
    y' := y.(k := k', expelled := y.expelled + gone);
    TimeoutExpels(y, idle, o, t, y');
    EnvMove(y, idle, o, TimeoutOne(t), y');
  }

  /** Every lock that waits for a mutex of another thread can end with SK_EOK and without the mutex. */
  lemma TimedLockFails(y: System, idle: Tid, o: nat, time: int) returns (y1: System, y2: System)
    requires Inv(y, idle, o) && CanCall(y.k, idle) && y.k.current !in y.blocked && MustWait(y.k, y.m, time)
    ensures Moves(y, idle, o, DoLock(time), y1) && Moves(y1, idle, o, Env(TimeoutOne(y.k.current)), y2)
    ensures Inv(y2, idle, o) && CanCall(y2.k, idle) && y2.k.current == y.k.current && y2.k.current in y2.blocked
    ensures y2.m == y.m && y2.m.owner != Some(y2.k.current)
  {
    y1 := TimedLockWaits(y, idle, o, time);
    y2 := TimedLockReturns(y1, idle, o);
  }

  lemma NewcomerQueued(k: Kernel, idle: Tid, u: Tid, tick: nat, o: nat) returns (k': Kernel)
    requires KInv(k, idle) && k.current == idle && u !in k.threads && On(k, ReadyRing(0)) == Waiters(k, o) == []
    ensures Environment(k, idle, o, Create(u, 0, tick), k') && KInv(k', idle) && Waiters(k', o) == []
    ensures k'.current == idle && Highest(k') == Some(0) && On(k', ReadyRing(0)) == [u] && u in k'.threads
  {
    k' := CreateThread(k, u, 0, tick);
    CreateKeeps(k, idle, u, 0, tick);
    TopIs(k', 0, 0);
  }

  lemma BestTakesOver(k: Kernel, idle: Tid, u: Tid)
    requires KInv(k, idle) && k.current == idle && u in k.threads && Highest(k) == Some(0)
    requires On(k, ReadyRing(0)) == [u]
    ensures Next(k) == u && Schedule(k).current == u && u in Schedule(k).threads
    ensures KInv(Schedule(k), idle) && Schedule(k).threads[u].stat == RUNNING
  {
    KInvSchedulable(k, idle);
    ScheduleKeeps(k, idle);
    NextKnown(k, idle);
    SwitchExact(k, u);
  }

  /** A new thread of the best priority takes over from the idle thread. */
  lemma NewcomerRuns(k: Kernel, idle: Tid, u: Tid, tick: nat, o: nat) returns (k1: Kernel, k2: Kernel)
    requires KInv(k, idle) && k.current == idle && u !in k.threads && On(k, ReadyRing(0)) == Waiters(k, o) == []
    ensures Environment(k, idle, o, Create(u, 0, tick), k1) && Environment(k1, idle, o, Reschedule, k2)
    ensures k2.current == u && u in k2.threads && k2.threads[u].stat == RUNNING && KInv(k2, idle)
    ensures Waiters(k1, o) == Waiters(k2, o) == []
  {
    k1 := NewcomerQueued(k, idle, u, tick, o);
    BestTakesOver(k1, idle, u);
    k2 := Schedule(k1);
    ScheduleLeaves(k1, idle, o);
  }

  /** While nobody waits, other steps change only the kernel. */
  lemma QuietMove(y: System, idle: Tid, o: nat, s: Step, k': Kernel) returns (y': System)
    requires Inv(y, idle, o) && Waiters(y.k, o) == [] && Environment(y.k, idle, o, s, k')
    ensures Moves(y, idle, o, Env(s), y') && Inv(y', idle, o) && y' == y.(k := k')
  {
    y' := y.(k := k');
    assert y.expelled == y.expelled + set t | t in y.blocked && t in Waiters(y.k, o) && t !in Waiters(k', o);
    EnvMove(y, idle, o, s, y');
  }

  lemma InitInv(k: Kernel, idle: Tid, o: nat)
    requires KInv(k, idle) && Waiters(k, o) == []
    ensures Inv(System(k, INITIAL, {}, {}, map[], 0), idle, o)
  {
  }

  /** The idle thread locks a free mutex. */
  lemma IdleLocks(k: Kernel, idle: Tid, o: nat) returns (y: System, y': System)
    requires KInv(k, idle) && k.current == idle && Waiters(k, o) == []
    ensures y == System(k, INITIAL, {}, {}, map[], 0) && Moves(y, idle, o, DoLock(0), y') && Inv(y', idle, o)
    ensures y'.k == k && y'.m.owner == Some(idle) && y'.m.value == 0 && y'.blocked == {}
  {
    y := System(k, INITIAL, {}, {}, map[], 0);
    InitInv(k, idle, o);
    y' := y.(m := Lock(k, INITIAL, o, 0).1);
    LockMove(y, idle, o, 0, y');
  }

  /** A new thread runs beside the idle thread that holds the mutex. */
  lemma NewcomerContends(y: System, idle: Tid, u: Tid, o: nat) returns (y1: System, y2: System)
    requires Inv(y, idle, o) && y.k.current == idle && y.k.threads.Keys == {idle} && (forall r :: On(y.k, r) == [])
    requires y.m.owner == Some(idle) && y.m.value == 0 && y.blocked == {} && u != idle
    ensures Moves(y, idle, o, Env(Create(u, 0, 1)), y1) && Moves(y1, idle, o, Env(Reschedule), y2)
    ensures Inv(y2, idle, o) && CanCall(y2.k, idle) && y2.k.current == u && y2.m == y.m && y2.blocked == {}
  {
    var k1, k2 := NewcomerRuns(y.k, idle, u, 1, o);
    y1 := QuietMove(y, idle, o, Create(u, 0, 1), k1);
    y2 := QuietMove(y1, idle, o, Reschedule, k2);
  }

  /** From the start of a system: a lock on the mutex of the idle thread times out and returns SK_EOK. */
  lemma TimedLockFromStart(nobody: Tid, idle: Tid, u: Tid, o: nat, time: int)
      returns (bs: seq<Kernel>, boot: seq<BootStep>, y0: System, y1: System, y2: System, y3: System, y4: System,
               y5: System)
    requires nobody != idle && nobody != u && idle != u && time != 0
    ensures IsBoot(bs, boot, nobody) && Highest(bs[|boot|]).Some?
    ensures On(bs[|boot|], ReadyRing(Highest(bs[|boot|]).value))[0] in bs[|boot|].threads
    ensures y0 == System(StartFirst(bs[|boot|]), INITIAL, {}, {}, map[], 0)
    ensures Moves(y0, idle, o, DoLock(0), y1) && Moves(y1, idle, o, Env(Create(u, 0, 1)), y2)
    ensures Moves(y2, idle, o, Env(Reschedule), y3) && Moves(y3, idle, o, DoLock(time), y4)
    ensures Moves(y4, idle, o, Env(TimeoutOne(u)), y5)
    ensures CanCall(y5.k, idle) && y5.k.current == u && u in y5.blocked && y5.m.owner == Some(idle)
  {
    bs, boot := IdleAlone(nobody, idle, 1);
    y0, y1 := IdleLocks(StartFirst(bs[|boot|]), idle, o);
    y2, y3 := NewcomerContends(y1, idle, u, o);
    y4, y5 := TimedLockFails(y3, idle, o, time);
  }

  ghost predicate MovesAt(ys: seq<System>, idle: Tid, o: nat, actions: seq<Action>, i: nat)
    requires i < |actions| < |ys|
  {
    Moves(ys[i], idle, o, actions[i], ys[i + 1])
  }

  ghost predicate IsRun(ys: seq<System>, idle: Tid, o: nat, actions: seq<Action>)
  {
    && |ys| == |actions| + 1
    && forall i :: 0 <= i < |actions| ==> MovesAt(ys, idle, o, actions, i)
  }

  /** No timeout and no foreign resume took a thread off the list during the first n steps. */
  ghost predicate Undisturbed(ys: seq<System>, o: nat, actions: seq<Action>, n: nat)
    requires |ys| == |actions| + 1 && n <= |actions|
  {
    forall i :: 0 <= i < n && actions[i].Env? ==> Waiters(ys[i + 1].k, o) == Waiters(ys[i].k, o)
  }

  /** Every run of lock, unlock and other kernel steps keeps the invariant; if no step of the environment took a waiter
      off the list, every thread that comes back from a blocking lock owns the mutex. */
  lemma {:induction false} RunKeeps(ys: seq<System>, idle: Tid, o: nat, actions: seq<Action>, n: nat)
    requires IsRun(ys, idle, o, actions) && Inv(ys[0], idle, o) && n <= |actions|
    ensures Inv(ys[n], idle, o)
    ensures (ys[0].expelled == {} && Undisturbed(ys, o, actions, n)) ==> ys[n].expelled == {}
    decreases n
  {
    if n > 0 {
      var i := n - 1;
      RunKeeps(ys, idle, o, actions, i);
      assert MovesAt(ys, idle, o, actions, i);
      MoveKeeps(ys[i], idle, o, actions[i], ys[i + 1]);
    }
  }

  // ---- nesting ----

  /** How often thread t holds the mutex. */
  function HoldOf(m: Mutex, t: Tid): (n: nat)
  {
    if m.owner == Some(t) then m.hold else 0
  }

  /** A lock of t that gets the mutex at once: it is free, or t has it and may hold it once more. */
  ghost predicate Locks(y: System, a: Action, t: Tid)
  {
    a.DoLock? && y.k.current == t && (y.m.owner.None? || (y.m.owner == Some(t) && y.m.hold < HOLD_MAX))
  }

  /** The last unlock of the owner hands the mutex to the first waiter t and so grants the lock t waits in. */
  ghost predicate Hands(y: System, o: nat, a: Action, t: Tid)
  {
    && a.DoUnlock? && y.m.owner == Some(y.k.current) && y.m.hold == 1
    && Waiters(y.k, o) != [] && Waiters(y.k, o)[0] == t
  }

  /** The action is an unlock by the owner t. */
  ghost predicate Unlocks(y: System, a: Action, t: Tid)
  {
    a.DoUnlock? && y.k.current == t && y.m.owner == Some(t)
  }

  /** One lock of t was granted, one unlock of t was made, or neither. */
  lemma HoldStep(y: System, idle: Tid, o: nat, a: Action, y': System, t: Tid)
    requires Inv(y, idle, o) && Moves(y, idle, o, a, y')
    ensures HoldOf(y'.m, t) + (if Unlocks(y, a, t) then 1 else 0) ==
            HoldOf(y.m, t) + (if Locks(y, a, t) || Hands(y, o, a, t) then 1 else 0)
  {
    match a
    case DoLock(time) => LockKeeps(y.k, idle, y.m, o, time);
    case DoUnlock =>
      UnlockKeeps(y.k, idle, y.m, o);
      if Waiters(y.k, o) != [] { assert Waiters(y.k, o)[0] in Waiters(y.k, o); }
    case Return =>
    case Env(_) =>
  }

  /** The same for step n of a run. */
  lemma HoldAt(ys: seq<System>, idle: Tid, o: nat, actions: seq<Action>, t: Tid, n: nat)
    requires IsRun(ys, idle, o, actions) && Inv(ys[0], idle, o) && n < |actions|
    ensures HoldOf(ys[n + 1].m, t) + (if Unlocks(ys[n], actions[n], t) then 1 else 0) ==
            HoldOf(ys[n].m, t) + (if Locks(ys[n], actions[n], t) || Hands(ys[n], o, actions[n], t) then 1 else 0)
  {
    RunKeeps(ys, idle, o, actions, n);
    assert MovesAt(ys, idle, o, actions, n);
    HoldStep(ys[n], idle, o, actions[n], ys[n + 1], t);
  }

  lemma OwnerHolds(ys: seq<System>, idle: Tid, o: nat, actions: seq<Action>, t: Tid, n: nat)
    requires IsRun(ys, idle, o, actions) && Inv(ys[0], idle, o) && n <= |actions|
    ensures ys[n].m.owner == Some(t) <==> HoldOf(ys[n].m, t) > 0
  {
    RunKeeps(ys, idle, o, actions, n);
  }

  /** The locks of t granted by the actions i, ..., n - 1, at once or by a hand-over. */
  ghost function Granted(ys: seq<System>, o: nat, actions: seq<Action>, t: Tid, i: nat, n: nat): (c: nat)
    requires i <= n <= |actions| < |ys|
    decreases n
  {
    if n == i then 0
    else Granted(ys, o, actions, t, i, n - 1) +
         if Locks(ys[n - 1], actions[n - 1], t) || Hands(ys[n - 1], o, actions[n - 1], t) then 1 else 0
  }

  /** The unlocks of t among them. */
  ghost function Unlocked(ys: seq<System>, actions: seq<Action>, t: Tid, i: nat, n: nat): (c: nat)
    requires i <= n <= |actions| < |ys|
    decreases n
  {
    if n == i then 0
    else Unlocked(ys, actions, t, i, n - 1) + if Unlocks(ys[n - 1], actions[n - 1], t) then 1 else 0
  }

  /** Nested locks need as many unlocks, in every run, for every thread and with any contention: the hold is what it was
      plus the locks granted minus the unlocks. From a free mutex on, a thread owns it exactly while its unlocks are
      fewer than its locks. */
  lemma {:induction false} NestedLocks(ys: seq<System>, idle: Tid, o: nat, actions: seq<Action>, t: Tid, i: nat, n: nat)
    requires IsRun(ys, idle, o, actions) && Inv(ys[0], idle, o) && i <= n <= |actions|
    ensures HoldOf(ys[n].m, t) + Unlocked(ys, actions, t, i, n) == HoldOf(ys[i].m, t) + Granted(ys, o, actions, t, i, n)
    ensures ys[i].m.owner.None? ==>
              (ys[n].m.owner == Some(t) <==> Unlocked(ys, actions, t, i, n) < Granted(ys, o, actions, t, i, n))
    decreases n
  {
    OwnerHolds(ys, idle, o, actions, t, n);
    if n > i {
      NestedLocks(ys, idle, o, actions, t, i, n - 1);
      HoldAt(ys, idle, o, actions, t, n - 1);
    }
  }

  /** The owner keeps the mutex through every action but its own last unlock, whoever waits and whatever happens
      between; that unlock hands it to the first waiter, or frees it. */
  lemma OwnerStep(y: System, idle: Tid, o: nat, a: Action, y': System, t: Tid)
    requires Inv(y, idle, o) && Moves(y, idle, o, a, y') && y.m.owner == Some(t)
    ensures !(Unlocks(y, a, t) && y.m.hold == 1) ==> y'.m.owner == Some(t)
    ensures Unlocks(y, a, t) && y.m.hold == 1 ==>
              y'.m.owner != Some(t) && y'.m.owner == if Waiters(y.k, o) == [] then None else Some(Waiters(y.k, o)[0])
  {
    match a
    case DoLock(time) => LockKeeps(y.k, idle, y.m, o, time);
    case DoUnlock =>
      UnlockKeeps(y.k, idle, y.m, o);
      if Waiters(y.k, o) != [] { assert Waiters(y.k, o)[0] in Waiters(y.k, o); }
    case Return =>
    case Env(_) =>
  }

  /** The same for step n of a run. */
  lemma OwnerAt(ys: seq<System>, idle: Tid, o: nat, actions: seq<Action>, t: Tid, n: nat)
    requires IsRun(ys, idle, o, actions) && Inv(ys[0], idle, o) && n < |actions| && ys[n].m.owner == Some(t)
    ensures !Unlocks(ys[n], actions[n], t) ==> ys[n + 1].m.owner == Some(t)
    ensures ys[n + 1].m.owner != Some(t) ==>
              var w := Waiters(ys[n].k, o); ys[n + 1].m.owner == if w == [] then None else Some(w[0])
  {
    RunKeeps(ys, idle, o, actions, n);
    assert MovesAt(ys, idle, o, actions, n);
    OwnerStep(ys[n], idle, o, actions[n], ys[n + 1], t);
  }

  /** In every run, an unlock ends the ownership of t exactly when it is as many as its locks since the mutex was free;
      the mutex then goes to the first waiter, or is free if nobody waits. */
  lemma LastUnlock(ys: seq<System>, idle: Tid, o: nat, actions: seq<Action>, t: Tid, i: nat, n: nat)
    requires IsRun(ys, idle, o, actions) && Inv(ys[0], idle, o) && i < n <= |actions| && ys[i].m.owner.None?
    requires Unlocks(ys[n - 1], actions[n - 1], t)
    ensures ys[n].m.owner != Some(t) <==> Unlocked(ys, actions, t, i, n) == Granted(ys, o, actions, t, i, n)
    ensures ys[n].m.owner != Some(t) ==>
              var w := Waiters(ys[n - 1].k, o); ys[n].m.owner == if w == [] then None else Some(w[0])
  {
    NestedLocks(ys, idle, o, actions, t, i, n);
    OwnerAt(ys, idle, o, actions, t, n - 1);
  }

  // ---- the thread that gets the mutex ----

  /** The actions that may put thread t to rest: its suspension or startup by name, its own wait or exit. */
  ghost predicate Rests(y: System, a: Action, t: Tid)
  {
    match a
    case DoLock(time) => y.k.current == t && MustWait(y.k, y.m, time)
    case Env(s) => Lulls(s, t) || ((s.Wait? || s.Exit?) && y.k.current == t)
    case _ => false
  }

  lemma AwakeMove(y: System, idle: Tid, o: nat, a: Action, y': System, t: Tid)
    requires Inv(y, idle, o) && Moves(y, idle, o, a, y') && Awake(y.k, t) && !Rests(y, a, t)
    ensures Awake(y'.k, t)
  {
    match a
    case DoLock(time) => LockKeeps(y.k, idle, y.m, o, time);
    case DoUnlock => if y.k.threads != y'.k.threads { UnlockWakes(y.k, idle, y.m, o); }
    case Return =>
    case Env(s) => AwakeStep(y.k, idle, s, y'.k, t);
  }

  /** The same for step n of a run. */
  lemma AwakeAt(ys: seq<System>, idle: Tid, o: nat, actions: seq<Action>, t: Tid, n: nat)
    requires IsRun(ys, idle, o, actions) && Inv(ys[0], idle, o) && n < |actions|
    requires Awake(ys[n].k, t) && !Rests(ys[n], actions[n], t)
    ensures Awake(ys[n + 1].k, t)
  {
    RunKeeps(ys, idle, o, actions, n);
    assert MovesAt(ys, idle, o, actions, n);
    AwakeMove(ys[n], idle, o, actions[n], ys[n + 1], t);
  }

  lemma HandsAt(ys: seq<System>, idle: Tid, o: nat, actions: seq<Action>, t: Tid, n: nat)
    requires IsRun(ys, idle, o, actions) && Inv(ys[0], idle, o) && n < |actions| && Hands(ys[n], o, actions[n], t)
    ensures Awake(ys[n + 1].k, t) && ys[n + 1].m.owner == Some(t)
  {
    RunKeeps(ys, idle, o, actions, n);
    assert MovesAt(ys, idle, o, actions, n);
    UnlockKeeps(ys[n].k, idle, ys[n].m, o);
    UnlockWakes(ys[n].k, idle, ys[n].m, o);
  }

  /** Over every run, the waiter that gets the mutex is ready or running from then on, as its owner, until it unlocks or
      something puts it to rest. */
  lemma {:induction false} HandedAwake(ys: seq<System>, idle: Tid, o: nat, actions: seq<Action>, i: nat, n: nat, t: Tid)
    requires IsRun(ys, idle, o, actions) && Inv(ys[0], idle, o) && i < n <= |actions|
    requires Hands(ys[i], o, actions[i], t)
    requires forall m :: i < m < n ==> !Rests(ys[m], actions[m], t) && !Unlocks(ys[m], actions[m], t)
    ensures Awake(ys[n].k, t) && ys[n].m.owner == Some(t)
    decreases n
  {
    var m := n - 1;
    if m == i {
      HandsAt(ys, idle, o, actions, t, i);
    } else {
      HandedAwake(ys, idle, o, actions, i, m, t);
      AwakeAt(ys, idle, o, actions, t, m);
      OwnerAt(ys, idle, o, actions, t, m);
    }
  }

  /** In every run the first waiter has the best priority and, among its equals, came first. */
  lemma FirstInLine(ys: seq<System>, idle: Tid, o: nat, actions: seq<Action>, n: nat, x: Tid)
    requires IsRun(ys, idle, o, actions) && Inv(ys[0], idle, o) && n <= |actions|
    requires x in Waiters(ys[n].k, o) && x != Waiters(ys[n].k, o)[0]
    ensures var y, t := ys[n], Waiters(ys[n].k, o)[0];
            t in y.k.threads && x in y.k.threads && t in y.arrived && x in y.arrived
            && Before(y.k.threads, y.arrived, t, x)
  {
    RunKeeps(ys, idle, o, actions, n);
    var w := Waiters(ys[n].k, o);
    assert w[0] in w;
    var j :| 0 <= j < |w| && w[j] == x;
    assert Before(ys[n].k.threads, ys[n].arrived, w[0], w[j]);
  }

  // ---- the object ----

  class MutexObject {
    const sched: S.Scheduler
    const obj: nat

    var value: nat
    var owner: Option<Tid>
    var hold: nat
    var originalPri: nat

    ghost function M(): Mutex
      reads this
    {
      Mutex(value, owner, hold, originalPri)
    }

    ghost predicate Valid()
      reads this, sched
    {
      sched.Valid() && MutexOk(sched.K(), M(), obj)
    }

    /** sk_mutex_init */
    constructor (sched: S.Scheduler, obj: nat)
      requires sched.Valid() && Waiters(sched.K(), obj) == []
      ensures Valid() && M() == INITIAL && this.sched == sched && this.obj == obj
    {
      this.sched, this.obj := sched, obj;
      value, owner, hold, originalPri := 1, None, 0, 0xFF;
    }

    /** sk_mutex_lock up to its sk_schedule. */
    method SkMutexLock(time: int) returns (r: Outcome)
      requires Valid() && (MustWait(sched.K(), M(), time) ==> CanCall(sched.K(), sched.idle))
      modifies this, sched
      ensures Valid()
      ensures forall x :: x in Waiters(old(sched.K()), obj) ==> x in old(sched.threads)
      ensures (sched.K(), M(), r) == Lock(old(sched.K()), old(M()), obj, time)
      ensures r == Ok <==> old(owner).None? || (old(owner) == Some(old(sched.current)) && old(hold) < HOLD_MAX)
      ensures r == Ok ==> owner == Some(old(sched.current)) && hold == old(hold) + 1
    {
      LockKeeps(sched.K(), sched.idle, M(), obj, time);
      var t := sched.current;
      if owner == Some(t) {
        if hold < HOLD_MAX { hold := hold + 1; return Ok; }
        return Full;
      }
      if value > 0 {
        value := value - 1;
        owner := Some(t);
        originalPri := sched.threads[t].pri;
        if hold < HOLD_MAX { hold := hold + 1; return Ok; }
        return Full;
      }
      if time == 0 { return TimedOut; }
      sched.ListSuspend(obj, true);
      return Blocked;
    }

    /** sk_mutex_unlock up to its sk_schedule. */
    method SkMutexUnlock() returns (r: Outcome)
      requires Valid()
      modifies this, sched
      ensures Valid()
      ensures forall x :: x in Waiters(old(sched.K()), obj) ==> x in old(sched.threads)
      ensures (sched.K(), M(), r) == Unlock(old(sched.K()), old(M()), obj)
      ensures r == Ok <==> old(owner) == Some(old(sched.current))
      ensures r == Ok && old(hold) > 1 ==> owner == old(owner) && hold == old(hold) - 1
      ensures r == Ok && old(hold) == 1 && Waiters(old(sched.K()), obj) != [] ==>
                && owner == Some(Waiters(old(sched.K()), obj)[0]) && hold == 1
                && FirstWoken(old(sched.K()), obj, sched.K())
    {
      UnlockKeeps(sched.K(), sched.idle, M(), obj);
      if owner == Some(sched.current) && hold == 1 && Waiters(sched.K(), obj) != [] {
        UnlockWakes(sched.K(), sched.idle, M(), obj);
      }
      if owner != Some(sched.current) { return Error; }
      hold := (hold + 0xFF) % 0x100;
      if hold == 0 {
        if WaitRing(obj) in sched.rings && sched.rings[WaitRing(obj)] != [] {
          var t := sched.rings[WaitRing(obj)][0];
          assert t in Waiters(sched.K(), obj);
          owner := Some(t);
          originalPri := sched.threads[t].pri;
          hold := hold + 1;
          var ok := sched.ResumeThreadOf(t);
        } else {
          value := value + 1;
          owner := None;
          originalPri := 0xFF;
        }
      }
      return Ok;
    }
  }
}
