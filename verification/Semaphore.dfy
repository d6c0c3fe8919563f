/** The counting semaphore (ipc/semaphore.c) on top of the scheduler. */
module Semaphore {
  import opened Seqs
  import opened Kernel
  import opened KernelInvariant
  import opened KernelSteps
  import opened KernelRuns
  import opened Boot
  import opened IpcBase
  import S = Scheduler

  const VALUE_MAX := 0xFFFF

  /** SK_EOK, SK_EFULL, SK_ETIMEOUT; Blocked: suspended inside the call, which returns SK_EOK when it runs again. */
  datatype Outcome = Ok | Full | TimedOut | Blocked

  /** sk_sem_wait by the current thread, up to its sk_schedule. */
  function SemWait(k: Kernel, value: nat, o: nat, prio: bool, time: int): (r: (Kernel, nat, Outcome))
    requires k.current in k.threads && forall x :: x in Waiters(k, o) ==> x in k.threads
  {
    if value > 0 then (k, value - 1, Ok)
    else if time == 0 then (k, value, TimedOut)
    else (WaitOn(k, o, prio), value, Blocked)
  }

  /** sk_sem_post, up to its sk_schedule. */
  function Post(k: Kernel, value: nat, o: nat): (r: (Kernel, nat, Outcome))
    requires forall x :: x in Waiters(k, o) ==> x in k.threads
  {
    if Waiters(k, o) != [] then (ResumeThread(k, Waiters(k, o)[0]), value, Ok)
    else if value < VALUE_MAX then (k, value + 1, Ok)
    else (k, value, Full)
  }

  /** Nobody waits while a permit is left. */
  ghost predicate SemOk(k: Kernel, value: nat, o: nat)
  {
    value <= VALUE_MAX && (Waiters(k, o) != [] ==> value == 0)
  }

  /** The semaphore and its history: the threads inside a blocking wait, those of them a post woke and those something
      else took off the list; how many posts were accepted, how many waits came back with SK_EOK, how many of these
      empty-handed. */
  datatype System = System(k: Kernel, value: nat, blocked: set<Tid>, handed: set<Tid>, expelled: set<Tid>,
                           posts: nat, oks: nat, hollow: nat)

  datatype Action = DoWait(time: int) | DoPost | Return | Env(s: Step)

  /** Waits and posts come from the running thread or from an interrupt handler, which must not block. */
  ghost predicate Moves(y: System, idle: Tid, o: nat, prio: bool, a: Action, y': System)
  {
    KInv(y.k, idle) && (forall x :: x in Waiters(y.k, o) ==> x in y.k.threads) &&
    match a
    case DoWait(time) =>
      var (k', v', r) := SemWait(y.k, y.value, o, prio, time);
      && (r == Blocked ==> CanCall(y.k, idle) && y.k.current !in y.blocked)
      && y' == y.(k := k', value := v', oks := if r == Ok then y.oks + 1 else y.oks,
                  blocked := if r == Blocked then y.blocked + {y.k.current} else y.blocked)
    case DoPost =>
      var (k', v', r) := Post(y.k, y.value, o);
      y' == y.(k := k', value := v', posts := if r == Ok then y.posts + 1 else y.posts,
               handed := if Waiters(y.k, o) != [] then y.handed + {Waiters(y.k, o)[0]} else y.handed)
    case Return =>
      var t := y.k.current;
      && CanCall(y.k, idle) && t in y.blocked
      && y' == y.(blocked := y.blocked - {t}, handed := y.handed - {t}, expelled := y.expelled - {t},
                  oks := y.oks + 1, hollow := if t in y.expelled then y.hollow + 1 else y.hollow)
    case Env(s) =>
      && Environment(y.k, idle, o, s, y'.k)
      && y' == y.(k := y'.k,
                  expelled := y.expelled + set t | t in y.blocked && t in Waiters(y.k, o) && t !in Waiters(y'.k, o))
  }

  /** A blocked thread waits, or a post woke it, or it was expelled; exactly one of the three. */
  ghost predicate Placed(y: System, o: nat)
  {
    && (forall t :: t in Waiters(y.k, o) ==> t in y.blocked && t !in y.handed && t !in y.expelled)
    && y.handed <= y.blocked && y.expelled <= y.blocked && y.handed !! y.expelled
    && (forall t :: t in y.blocked ==> t in Waiters(y.k, o) || t in y.handed || t in y.expelled)
  }

  /** Permits are conserved: what is left, what came back with SK_EOK and what is on its way to a woken thread make up
      the initial value, the accepted posts and the waits that came back empty-handed. */
  ghost predicate Inv(y: System, idle: Tid, o: nat, initial: nat)
  {
    && KInv(y.k, idle) && SemOk(y.k, y.value, o) && Placed(y, o)
    && y.value + y.oks + |y.handed| == initial + y.posts + y.hollow
  }

  lemma InitInv(k: Kernel, idle: Tid, o: nat, initial: nat)
    requires KInv(k, idle) && Waiters(k, o) == [] && initial <= VALUE_MAX
    ensures Inv(System(k, initial, {}, {}, {}, 0, 0, 0), idle, o, initial)
  {
  }

  /** A wait succeeds at once exactly when a permit is there, whatever the timeout; else it gives up or blocks. */
  lemma WaitOutcome(k: Kernel, idle: Tid, value: nat, o: nat, prio: bool, time: int)
    requires KInv(k, idle) && (value == 0 && time != 0 ==> CanCall(k, idle))
    ensures forall x :: x in Waiters(k, o) ==> x in k.threads
    ensures var (k', v', r) := SemWait(k, value, o, prio, time);
            && (r == Ok <==> value > 0) && (r == TimedOut <==> value == 0 && time == 0)
            && (r == Blocked <==> value == 0 && time != 0)
            && (r == Ok ==> k' == k && v' + 1 == value) && (r == TimedOut ==> k' == k && v' == value)
            && (r == Blocked ==> v' == value && Blocks(k, o, prio, k'))
  {
    WaitersKnown(k, o);
    if value == 0 && time != 0 { WaitOnKeeps(k, idle, o, prio); }
  }

  /** A post wakes the first waiter; without one it adds a permit, or is refused at the most a semaphore can hold. */
  lemma PostOutcome(k: Kernel, idle: Tid, value: nat, o: nat)
    requires KInv(k, idle) && SemOk(k, value, o)
    ensures forall x :: x in Waiters(k, o) ==> x in k.threads
    ensures var (k', v', r) := Post(k, value, o);
            && (r == Full <==> Waiters(k, o) == [] && value == VALUE_MAX) && (r == Ok <==> r != Full)
            && (r == Full ==> k' == k && v' == value)
            && (Waiters(k, o) != [] ==> v' == value && FirstWoken(k, o, k') && Awake(k', Waiters(k, o)[0]))
            && (Waiters(k, o) == [] && value < VALUE_MAX ==> k' == k && v' == value + 1)
  {
    WaitersKnown(k, o);
    if Waiters(k, o) != [] { HeadWoken(k, idle, o); }
  }

  lemma WaitMove(y: System, idle: Tid, o: nat, prio: bool, initial: nat, time: int, y': System)
    requires Inv(y, idle, o, initial) && Moves(y, idle, o, prio, DoWait(time), y')
    ensures Inv(y', idle, o, initial)
  {
    if y.value == 0 && time != 0 { Join(y.k, idle, o, prio); }
  }

  lemma PostMove(y: System, idle: Tid, o: nat, prio: bool, initial: nat, y': System)
    requires Inv(y, idle, o, initial) && Moves(y, idle, o, prio, DoPost, y')
    ensures Inv(y', idle, o, initial)
  {
    if Waiters(y.k, o) != [] {
      WakeHead(y.k, idle, o);
      assert Waiters(y.k, o)[0] in Waiters(y.k, o);
    }
  }

  lemma ReturnMove(y: System, idle: Tid, o: nat, prio: bool, initial: nat, y': System)
    requires Inv(y, idle, o, initial) && Moves(y, idle, o, prio, Return, y')
    ensures Inv(y', idle, o, initial)
  {
    RunningNotWaiting(y.k, idle, o);
    var t := y.k.current;
    if t in y.expelled { assert y.handed - {t} == y.handed; }
  }

  lemma EnvMove(y: System, idle: Tid, o: nat, prio: bool, initial: nat, s: Step, y': System)
    requires Inv(y, idle, o, initial) && Moves(y, idle, o, prio, Env(s), y')
    ensures Inv(y', idle, o, initial)
  {
    StepKeeps(y.k, idle, s, y'.k);
    EnvironmentLeaves(y.k, idle, o, s, y'.k);
    OneLeftMembers(Waiters(y.k, o), Waiters(y'.k, o));
  }

  lemma MoveKeeps(y: System, idle: Tid, o: nat, prio: bool, initial: nat, a: Action, y': System)
    requires Inv(y, idle, o, initial) && Moves(y, idle, o, prio, a, y')
    ensures Inv(y', idle, o, initial)
  {
    match a
    case DoWait(time) => WaitMove(y, idle, o, prio, initial, time, y');
    case DoPost => PostMove(y, idle, o, prio, initial, y');
    case Return => ReturnMove(y, idle, o, prio, initial, y');
    case Env(s) => EnvMove(y, idle, o, prio, initial, s, y');
  }

  ghost predicate IsRun(ys: seq<System>, idle: Tid, o: nat, prio: bool, actions: seq<Action>)
  {
    && |ys| == |actions| + 1
    && forall i :: 0 <= i < |actions| ==> Moves(ys[i], idle, o, prio, actions[i], ys[i + 1])
  }

  /** Permits are conserved in every run, whatever timeouts and foreign resumes do. */
  lemma {:induction false} RunConserves(ys: seq<System>, idle: Tid, o: nat, prio: bool, initial: nat,
                                        actions: seq<Action>, n: nat)
    requires IsRun(ys, idle, o, prio, actions) && Inv(ys[0], idle, o, initial) && n <= |actions|
    ensures Inv(ys[n], idle, o, initial)
    decreases n
  {
    if n > 0 {
      var i := n - 1;
      RunConserves(ys, idle, o, prio, initial, actions, i);
      assert Moves(ys[i], idle, o, prio, actions[i], ys[i + 1]);
      MoveKeeps(ys[i], idle, o, prio, initial, actions[i], ys[i + 1]);
    }
  }

  /** No timeout and no foreign resume took a thread off the list during the first n steps. */
  ghost predicate Undisturbed(ys: seq<System>, o: nat, actions: seq<Action>, n: nat)
    requires |ys| == |actions| + 1 && n <= |actions|
  {
    forall i :: 0 <= i < n && actions[i].Env? ==> Waiters(ys[i + 1].k, o) == Waiters(ys[i].k, o)
  }

  /** Without timeouts the semaphore never grants more than it was given. */
  lemma {:induction false} UndisturbedBound(ys: seq<System>, idle: Tid, o: nat, prio: bool, initial: nat,
                                            actions: seq<Action>, n: nat)
    requires IsRun(ys, idle, o, prio, actions) && Inv(ys[0], idle, o, initial) && n <= |actions|
    requires ys[0].expelled == {} && ys[0].hollow == 0 && Undisturbed(ys, o, actions, n)
    ensures ys[n].expelled == {} && ys[n].hollow == 0
    ensures ys[n].value + ys[n].oks + |ys[n].handed| == initial + ys[n].posts
    decreases n
  {
    RunConserves(ys, idle, o, prio, initial, actions, n);
    if n > 0 {
      var i := n - 1;
      UndisturbedBound(ys, idle, o, prio, initial, actions, i);
      assert Moves(ys[i], idle, o, prio, actions[i], ys[i + 1]);
    }
  }

  /** A blocked sk_sem_wait always returns SK_EOK, but it brings a permit exactly when a post woke it. */
  lemma ReturnGrantsIff(y: System, idle: Tid, o: nat, prio: bool, initial: nat, y': System)
    requires Inv(y, idle, o, initial) && Moves(y, idle, o, prio, Return, y')
    ensures y.k.current in y.handed <==> y.k.current !in y.expelled
    ensures y'.hollow == y.hollow <==> y.k.current in y.handed
    ensures y'.oks == y.oks + 1
  {
    RunningNotWaiting(y.k, idle, o);
  }

  /** The actions that may put thread t to rest: its suspension or startup by name, its own wait or exit. */
  ghost predicate Rests(y: System, a: Action, t: Tid)
  {
    match a
    case DoWait(time) => y.k.current == t && y.value == 0 && time != 0
    case Env(s) => Lulls(s, t) || ((s.Wait? || s.Exit?) && y.k.current == t)
    case _ => false
  }

  lemma AwakeMove(y: System, idle: Tid, o: nat, prio: bool, initial: nat, a: Action, y': System, t: Tid)
    requires Inv(y, idle, o, initial) && Moves(y, idle, o, prio, a, y') && Awake(y.k, t) && !Rests(y, a, t)
    ensures Awake(y'.k, t)
  {
    match a
    case DoWait(time) => WaitOutcome(y.k, idle, y.value, o, prio, time);
    case DoPost => PostOutcome(y.k, idle, y.value, o);
    case Return =>
    case Env(s) => AwakeStep(y.k, idle, s, y'.k, t);
  }

  /** Over every run, the waiter a post wakes is ready or running from then on, and its permit is on its way to it,
      until it returns or something puts it to rest. */
  lemma {:induction false} HandedAwake(ys: seq<System>, idle: Tid, o: nat, prio: bool, initial: nat,
                                       actions: seq<Action>, i: nat, n: nat, t: Tid)
    requires IsRun(ys, idle, o, prio, actions) && Inv(ys[0], idle, o, initial) && i < n <= |actions|
    requires actions[i] == DoPost && Waiters(ys[i].k, o) != [] && Waiters(ys[i].k, o)[0] == t
    requires forall m :: i < m < n ==> !Rests(ys[m], actions[m], t) && !(actions[m].Return? && ys[m].k.current == t)
    ensures Awake(ys[n].k, t) && t in ys[n].handed
    decreases n
  {
    var m := n - 1;
    RunConserves(ys, idle, o, prio, initial, actions, m);
    assert Moves(ys[m], idle, o, prio, actions[m], ys[n]);
    if m == i {
      PostOutcome(ys[i].k, idle, ys[i].value, o);
    } else {
      HandedAwake(ys, idle, o, prio, initial, actions, i, m, t);
      AwakeMove(ys[m], idle, o, prio, initial, actions[m], ys[n], t);
    }
  }

  /** A timeout makes its waiter one that will come back with SK_EOK and without a permit. */
  lemma TimeoutExpels(y: System, idle: Tid, o: nat, prio: bool, initial: nat, t: Tid, y': System)
    requires Inv(y, idle, o, initial) && t in Waiters(y.k, o) && Moves(y, idle, o, prio, Env(TimeoutOne(t)), y')
    ensures t in y'.blocked && t in y'.expelled && t !in y'.handed && y'.value == y.value
    ensures Waiters(y'.k, o) == Without(Waiters(y.k, o), t)
  {
    TimeoutLeaves(y.k, o, t);
  }

  lemma TimedWaitBegins(y: System, idle: Tid, o: nat, prio: bool, initial: nat, time: int) returns (y': System)
    requires Inv(y, idle, o, initial) && CanCall(y.k, idle) && y.k.current !in y.blocked && y.value == 0 && time != 0
    ensures Moves(y, idle, o, prio, DoWait(time), y') && Inv(y', idle, o, initial)
    ensures y'.k.current == y.k.current && y'.value == 0 && y'.k.current in Waiters(y'.k, o)
  {
    Join(y.k, idle, o, prio);
    y' := y.(k := WaitOn(y.k, o, prio), blocked := y.blocked + {y.k.current});
    WaitMove(y, idle, o, prio, initial, time, y');
  }

  lemma TimedWaitReturns(y: System, idle: Tid, o: nat, prio: bool, initial: nat) returns (y': System)
    requires Inv(y, idle, o, initial) && y.k.current != idle && y.k.current in Waiters(y.k, o)
    ensures Moves(y, idle, o, prio, Env(TimeoutOne(y.k.current)), y') && Inv(y', idle, o, initial)
    ensures CanCall(y'.k, idle) && y'.k.current == y.k.current && y'.k.current in y'.expelled && y'.value == y.value
  {
    var t := y.k.current;
    var k' := WakeThread(y.k, t);
    CurrentTimesOut(y.k, idle, o);
    var gone := set x | x in y.blocked && x in Waiters(y.k, o) && x !in Waiters(k', o);
    y' := y.(k := k', expelled := y.expelled + gone);
    TimeoutExpels(y, idle, o, prio, initial, t, y');
    EnvMove(y, idle, o, prio, initial, TimeoutOne(t), y');
  }

  /** Every wait on a semaphore without permits can end with SK_EOK and without a permit. */
  lemma TimedWaitFails(y: System, idle: Tid, o: nat, prio: bool, initial: nat, time: int)
      returns (y1: System, y2: System)
    requires Inv(y, idle, o, initial) && CanCall(y.k, idle) && y.k.current !in y.blocked && y.value == 0 && time != 0
    ensures Moves(y, idle, o, prio, DoWait(time), y1)
    ensures Moves(y1, idle, o, prio, Env(TimeoutOne(y.k.current)), y2)
    ensures Inv(y2, idle, o, initial) && CanCall(y2.k, idle) && y2.k.current == y.k.current
    ensures y2.k.current in y2.expelled && y2.value == 0
  {
    y1 := TimedWaitBegins(y, idle, o, prio, initial, time);
    y2 := TimedWaitReturns(y1, idle, o, prio, initial);
  }

  /** From the start of a system: its first thread waits on an empty semaphore and times out. */
  lemma TimedWaitFromStart(nobody: Tid, idle: Tid, t: Tid, o: nat, prio: bool, time: int)
      returns (bs: seq<Kernel>, boot: seq<BootStep>, y1: System, y2: System)
    requires nobody != idle && nobody != t && idle != t && time != 0
    ensures IsBoot(bs, boot, nobody) && Highest(bs[|boot|]).Some?
    ensures On(bs[|boot|], ReadyRing(Highest(bs[|boot|]).value))[0] in bs[|boot|].threads
    ensures Moves(System(StartFirst(bs[|boot|]), 0, {}, {}, {}, 0, 0, 0), idle, o, prio, DoWait(time), y1)
    ensures Moves(y1, idle, o, prio, Env(TimeoutOne(t)), y2)
    ensures CanCall(y2.k, idle) && y2.k.current == t && t in y2.expelled
  {
    bs, boot := StartsWith(nobody, idle, t, 1);
    var y := System(StartFirst(bs[|boot|]), 0, {}, {}, {}, 0, 0, 0);
    InitInv(y.k, idle, o, 0);
    y1, y2 := TimedWaitFails(y, idle, o, prio, 0, time);
  }

  // ---- the object ----

  class SemaphoreObject {
    const sched: S.Scheduler
    const obj: nat
    const prio: bool

    var value: nat

    ghost predicate Valid()
      reads this, sched
    {
      sched.Valid() && SemOk(sched.K(), value, obj)
    }

    /** sk_sem_init */
    constructor (sched: S.Scheduler, obj: nat, value: nat, prio: bool)
      requires sched.Valid() && Waiters(sched.K(), obj) == [] && value <= VALUE_MAX
      ensures Valid() && this.value == value && this.sched == sched && this.obj == obj && this.prio == prio
    {
      this.sched, this.obj, this.prio, this.value := sched, obj, prio, value;
    }

    /** sk_sem_wait up to its sk_schedule. */
    method SkSemWait(time: int) returns (r: Outcome)
      requires Valid() && (value == 0 && time != 0 ==> CanCall(sched.K(), sched.idle))
      modifies this, sched
      ensures Valid()
      ensures forall x :: x in Waiters(old(sched.K()), obj) ==> x in old(sched.threads)
      ensures (sched.K(), value, r) == SemWait(old(sched.K()), old(value), obj, prio, time)
      ensures r == if old(value) > 0 then Ok else if time == 0 then TimedOut else Blocked
    {
      WaitersKnown(sched.K(), obj);
      if value > 0 { value := value - 1; return Ok; }
      if time == 0 { return TimedOut; }
      sched.ListSuspend(obj, prio);
      return Blocked;
    }

    /** sk_sem_post up to its sk_schedule. */
    method SkSemPost() returns (r: Outcome)
      requires Valid()
      modifies this, sched
      ensures Valid()
      ensures forall x :: x in Waiters(old(sched.K()), obj) ==> x in old(sched.threads)
      ensures (sched.K(), value, r) == Post(old(sched.K()), old(value), obj)
      ensures r == Full <==> Waiters(old(sched.K()), obj) == [] && old(value) == VALUE_MAX
      ensures Waiters(old(sched.K()), obj) != [] ==> FirstWoken(old(sched.K()), obj, sched.K())
    {
      WaitersKnown(sched.K(), obj);
      if WaitRing(obj) in sched.rings && sched.rings[WaitRing(obj)] != [] {
        var t := sched.rings[WaitRing(obj)][0];
        assert t in Waiters(sched.K(), obj);
        WakeHead(sched.K(), sched.idle, obj);
        HeadWoken(sched.K(), sched.idle, obj);
        var ok := sched.ResumeThreadOf(t);
        return Ok;
      }
      if value < VALUE_MAX { value := value + 1; return Ok; }
      return Full;
    }
  }
}
