/** sk_thread_sleep and sk_tick_increase on the scheduler and the timer queue together. */
module SystemClock {
  import opened Seqs
  import opened Kernel
  import opened KernelInvariant
  import opened KernelRuns
  import opened Sleeping
  import S = Scheduler
  import T = Timers

  lemma WithoutTwice<X>(s: seq<X>, x: X)
    requires NoDup(s)
    ensures Without(Without(s, x), x) == Without(s, x)
  {
    WithoutMembers(s, x);
    WithoutAbsent(Without(s, x), x);
  }

  ghost predicate Goes(k: Kernel, idle: Tid, s: Step, k': Kernel)
  {
    KInv(k, idle) && Takes(k, idle, s, k') && InHandler(s)
  }

  lemma ChainAppend(ks: seq<Kernel>, idle: Tid, steps: seq<Step>, s: Step, k': Kernel)
    requires Chain(ks, idle, steps) && Goes(ks[|steps|], idle, s, k')
    ensures Chain(ks + [k'], idle, steps + [s])
  {
    var ks', steps' := ks + [k'], steps + [s];
    forall i: nat | i < |steps'| ensures InHandler(steps'[i]) && StepAt(ks', idle, steps', i) {
      if i < |steps| { assert StepAt(ks, idle, steps, i); }
    }
  }

  /** The timeouts of threads called so far. */
  ghost predicate Called(steps: seq<Step>, fired: seq<T.Id>)
  {
    forall u: Tid :: TimeoutOne(u) in steps <==> Own(u) in fired
  }

  lemma TimeoutCloses(k: Kernel, u: Tid)
    requires u in k.threads
    ensures NoneCloses(k, WakeThread(k, u))
  {
  }

  lemma CalledThread(steps: seq<Step>, fired: seq<T.Id>, u: Tid)
    requires Called(steps, fired)
    ensures Called(steps + [TimeoutOne(u), Reschedule], fired + [Own(u)])
  {
    forall v: Tid ensures TimeoutOne(v) in steps + [TimeoutOne(u), Reschedule] <==> Own(v) in fired + [Own(u)] {
      assert TimeoutOne(v) in steps <==> Own(v) in fired;
    }
  }

  lemma CalledOther(steps: seq<Step>, fired: seq<T.Id>, i: T.Id)
    requires Called(steps, fired) && i % 2 != 0
    ensures Called(steps, fired + [i])
  {
    forall v: Tid ensures TimeoutOne(v) in steps <==> Own(v) in fired + [i] {
      assert TimeoutOne(v) in steps <==> Own(v) in fired;
    }
  }

  lemma TimeoutGoes(k: Kernel, idle: Tid, u: Tid)
    requires KInv(k, idle) && u in k.threads && k.threads[u].stat.base != Close
    ensures Goes(k, idle, TimeoutOne(u), WakeThread(k, u)) && KInv(WakeThread(k, u), idle)
  {
    StepKeeps(k, idle, TimeoutOne(u), WakeThread(k, u));
  }

  lemma ScheduleGoes(k: Kernel, idle: Tid, k': Kernel)
    requires KInv(k, idle) && S.Scheduled(k, k')
    ensures Goes(k, idle, Reschedule, k')
  {
  }

  lemma ClosesTrans(k: Kernel, k1: Kernel, k2: Kernel)
    requires NoneCloses(k, k1) && NoneCloses(k1, k2)
    ensures NoneCloses(k, k2)
  {
  }

  lemma ChainTwo(ks: seq<Kernel>, idle: Tid, steps: seq<Step>, s: Step, k1: Kernel, s': Step, k': Kernel)
    requires Chain(ks, idle, steps) && Goes(ks[|steps|], idle, s, k1) && Goes(k1, idle, s', k')
    ensures Chain(ks + [k1, k'], idle, steps + [s, s'])
  {
    ChainAppend(ks, idle, steps, s, k1);
    ChainAppend(ks + [k1], idle, steps + [s], s', k');
    assert ks + [k1] + [k'] == ks + [k1, k'];
    assert steps + [s] + [s'] == steps + [s, s'];
  }

  /** If timer i belongs to a thread, that thread is not closed. */
  ghost predicate Alive(k: Kernel, i: T.Id)
  {
    forall u: Tid :: Own(u) == i ==> u in k.threads && k.threads[u].stat.base != Close
  }

  lemma AliveStays(k: Kernel, k': Kernel, i: T.Id)
    requires Alive(k, i) && NoneCloses(k, k')
    ensures Alive(k', i)
  {
  }

  /** The threads whose timers fire are not closed. */
  lemma FiredAlive(y: System, k: Kernel, now: nat, n: nat)
    requires Orderly(y) && NoneCloses(y.k, k)
    ensures forall i :: i in T.Rounds(now, W(y), n).fired ==> Alive(k, i)
  {
    forall i | i in T.Rounds(now, W(y), n).fired ensures Alive(k, i) {
      FiredWasActive(now, W(y), n, i);
      AliveStays(y.k, k, i);
    }
  }

  /** The walk keeps the timers in order. */
  lemma TickOrderly(y: System, now: nat, n: nat, y': System)
    requires Orderly(y) && NoneCloses(y.k, y'.k) && now < T.TICK_RANGE && y'.tick == now
    requires y'.timers == T.Rounds(now, W(y), n).timers && y'.list == T.Rounds(now, W(y), n).list
    ensures Orderly(y')
  {
    RoundsFrame(now, W(y), n);
  }

  lemma TickMoves(y: System, idle: Tid, ks: seq<Kernel>, steps: seq<Step>, n: nat, y': System)
    requires KInv(y.k, idle) && Orderly(y) && !(Expires(y.k) && OnWait(y.k, y.k.current)) && NoneCloses(y.k, y'.k)
    requires var w := T.Rounds(After(y.tick), W(y), n);
             && T.Over(w) && Handles(y.k, idle, ks, steps, w.fired, y'.k)
             && y'.tick == After(y.tick) && y'.timers == w.timers && y'.list == w.list
    ensures Orderly(y') && Moves(y, idle, TickIrq(ks, steps, n), y')
  {
    TickOrderly(y, After(y.tick), n, y');
  }

  class Clock {
    const sched: S.Scheduler
    const queue: T.TimerQueue

    ghost function Y(): System
      reads this, sched, queue
    {
      System(sched.K(), queue.timers, queue.list, queue.tick)
    }

    ghost predicate Valid()
      reads this, sched, queue
    {
      sched.Valid() && Orderly(Y())
    }

    constructor (sched: S.Scheduler, queue: T.TimerQueue)
      requires sched.Valid() && Orderly(System(sched.K(), queue.timers, queue.list, queue.tick))
      ensures Valid() && this.sched == sched && this.queue == queue
    {
      this.sched, this.queue := sched, queue;
    }

    /** sk_timer_stop as sk_thread_suspend calls it, sk_timer_control and sk_timer_start. */
    method Arm(t: Tid, n: nat)
      requires queue.Valid() && Own(t) in queue.timers
      modifies queue
      ensures queue.Valid() && queue.tick == old(queue.tick)
      ensures var y := Armed(old(Y()), t, n); queue.timers == y.timers && queue.list == y.list
    {
      WithoutTwice(queue.list, Own(t));
      var stopped := queue.TimerStop(Own(t));
      queue.timers := queue.timers[Own(t) := queue.timers[Own(t)].(initTick := n)];
      queue.TimerStart(Own(t));
    }

    /** sk_thread_sleep up to its sk_schedule. */
    method ThreadSleep(n: nat)
      requires Valid() && MayCall(sched.K(), sched.idle) && n < T.TICK_RANGE
      modifies sched, queue
      ensures Valid() && Moves(old(Y()), sched.idle, Sleep(n), Y())
    {
      SleepMoves(Y(), sched.idle, n);
      var t := sched.current;
      var ok := sched.SuspendThreadOf(t);
      Arm(t, n);
    }

    /** sk_thread_timeout out of sk_timer_check. */
    method FireThread(u: Tid, ghost ks: seq<Kernel>, ghost steps: seq<Step>)
      returns (ghost ks': seq<Kernel>, ghost steps': seq<Step>)
      requires sched.Valid() && u in sched.threads && sched.threads[u].stat.base != Close
      requires Chain(ks, sched.idle, steps) && ks[|steps|] == sched.K()
      modifies sched
      ensures sched.Valid() && NoneCloses(old(sched.K()), sched.K())
      ensures Chain(ks', sched.idle, steps') && ks'[|steps'|] == sched.K() && ks <= ks'
      ensures steps' == steps + [TimeoutOne(u), Reschedule]
    {
      ghost var k, k1 := sched.K(), WakeThread(sched.K(), u);
      TimeoutGoes(k, sched.idle, u);
      TimeoutCloses(k, u);
      sched.Timeout(u);
      ScheduleGoes(k1, sched.idle, sched.K());
      ScheduleCloses(k1, sched.idle);
      ClosesTrans(k, k1, sched.K());
      ChainTwo(ks, sched.idle, steps, TimeoutOne(u), k1, Reschedule, sched.K());
      ks', steps' := ks + [k1, sched.K()], steps + [TimeoutOne(u), Reschedule];
    }

    /** The function of timer i. */
    method Fire(i: T.Id, ghost done: seq<T.Id>, ghost ks: seq<Kernel>, ghost steps: seq<Step>)
      returns (ghost ks': seq<Kernel>, ghost steps': seq<Step>)
      requires sched.Valid() && Chain(ks, sched.idle, steps) && ks[|steps|] == sched.K() && Called(steps, done)
      requires Alive(sched.K(), i)
      modifies sched
      ensures sched.Valid() && NoneCloses(old(sched.K()), sched.K())
      ensures Chain(ks', sched.idle, steps') && ks'[|steps'|] == sched.K() && ks <= ks' && steps <= steps'
      ensures Called(steps', done + [i])
    {
      if i % 2 == 0 {
        var u := i / 2;
        assert Own(u) == i;
        CalledThread(steps, done, u);
        ks', steps' := FireThread(u, ks, steps);
      } else {
        CalledOther(steps, done, i);
        ks', steps' := ks, steps;
      }
    }

    /** The calls of sk_thread_timeout, in the order of the walk. They leave the timers alone, so the walk may be done
        first. */
    method FireThreads(fired: seq<T.Id>, ghost ks0: seq<Kernel>, ghost steps0: seq<Step>)
      returns (ghost ks: seq<Kernel>, ghost steps: seq<Step>)
      requires sched.Valid() && Chain(ks0, sched.idle, steps0) && ks0[|steps0|] == sched.K() && Called(steps0, [])
      requires forall i :: i in fired ==> Alive(sched.K(), i)
      modifies sched
      ensures sched.Valid() && NoneCloses(old(sched.K()), sched.K())
      ensures Chain(ks, sched.idle, steps) && ks[|steps|] == sched.K() && ks0 <= ks && steps0 <= steps
      ensures Called(steps, fired)
    {
      ks, steps := ks0, steps0;
      for j := 0 to |fired|
        invariant sched.Valid() && NoneCloses(old(sched.K()), sched.K())
        invariant Chain(ks, sched.idle, steps) && ks[|steps|] == sched.K() && ks0 <= ks && steps0 <= steps
        invariant Called(steps, fired[..j])
      {
        assert fired[..j + 1] == fired[..j] + [fired[j]];
        AliveStays(old(sched.K()), sched.K(), fired[j]);
        ks, steps := Fire(fired[j], fired[..j], ks, steps);
      }
      assert fired[..|fired|] == fired;
    }

    /** The slice part of sk_tick_increase. */
    method Slice() returns (ghost ks: seq<Kernel>, ghost steps: seq<Step>)
      requires sched.Valid() && !(Expires(sched.K()) && OnWait(sched.K(), sched.current))
      modifies sched
      ensures sched.Valid() && NoneCloses(old(sched.K()), sched.K())
      ensures Chain(ks, sched.idle, steps) && ks[0] == CountTick(old(sched.K())) && ks[|steps|] == sched.K()
      ensures Called(steps, []) && (Expires(old(sched.K())) ==> steps != [] && steps[0] == Reschedule)
    {
      ghost var k, k1 := sched.K(), CountTick(sched.K());
      TickKeepsIff(k, sched.idle);
      TickCloses(k);
      sched.TickIncrease();
      ks, steps := [k1], [];
      if Expires(k) {
        ScheduleGoes(k1, sched.idle, sched.K());
        ScheduleCloses(k1, sched.idle);
        ClosesTrans(k, k1, sched.K());
        ChainAppend([k1], sched.idle, [], Reschedule, sched.K());
        ks, steps := [k1] + [sched.K()], [] + [Reschedule];
      }
    }

    /** sk_tick_increase, while the functions of the timers that belong to no thread leave threads and timers alone. */
    method TickIncrease() returns (ghost a: Action)
      requires Valid() && !(Expires(sched.K()) && OnWait(sched.K(), sched.current))
      requires T.AtMostOneSticky(After(queue.tick), W(Y()))
      modifies sched, queue
      ensures Valid() && a.TickIrq? && Moves(old(Y()), sched.idle, a, Y())
    {
      ghost var y := Y();
      queue.tick := (queue.tick + 1) % T.TICK_RANGE;
      ghost var ks, steps := Slice();
      var fired;
      ghost var n;
      fired, n := queue.TimerCheck();
      FiredAlive(y, sched.K(), After(y.tick), n);
      ks, steps := FireThreads(fired, ks, steps);
      a := TickIrq(ks, steps, n);
      TickMoves(y, sched.idle, ks, steps, n, Y());
    }
  }
}
