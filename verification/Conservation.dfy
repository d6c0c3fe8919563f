/** No thread is lost: where each thread goes in every step of the kernel, and over every run from the start of the
    system. */
module Conservation {
  import opened Kernel
  import opened KernelInvariant
  import opened KernelSteps
  import opened KernelRuns
  import opened Boot

  ghost predicate Linked(k: Kernel, t: Tid)
  {
    exists r :: t in On(k, r)
  }

  /** Running or on a list: the kernel can still find the thread. */
  ghost predicate Placed(k: Kernel, t: Tid)
  {
    t == k.current || Linked(k, t)
  }

  /** The steps that let go of a thread: suspending a queued thread, its exit, and switching away from a thread that
      suspended itself without joining a wait list. */
  ghost predicate Drops(k: Kernel, s: Step, t: Tid)
    requires k.current in k.threads && t in k.threads
  {
    match s
    case SuspendOne(u) => u == t && t != k.current && k.threads[t].stat.base == Ready
    case Exit => t == k.current
    case Reschedule => t == k.current && k.threads[t].stat == SUSPEND && !OnWait(k, t)
    case _ => false
  }

  /** The steps that bring a thread in: its creation, its resume and its timeout. */
  ghost predicate Restores(k: Kernel, s: Step, t: Tid)
  {
    match s
    case Create(u, _, _) => u == t
    case ResumeOne(u) => u == t && t in k.threads && k.threads[t].stat == SUSPEND
    case TimeoutOne(u) => u == t
    case _ => false
  }

  /** The steps that take a waiter of object o off its list. */
  ghost predicate Wakes(s: Step, t: Tid, o: nat)
  {
    match s
    case ResumeOne(u) => u == t
    case TimeoutOne(u) => u == t
    case WakeAll(p) => p == o
    case _ => false
  }

  // ---- one step ----

  /** What a step does to thread t: it stays placed unless dropped, a dropped one comes back only by a restore, and a
      waiter leaves its list exactly when it is woken, to be ready or running. */
  ghost predicate Moved(k: Kernel, s: Step, k': Kernel, t: Tid)
    requires k.current in k.threads
  {
    && (t in k.threads ==> (Placed(k', t) <==> (Placed(k, t) && !Drops(k, s, t)) || Restores(k, s, t)))
    && (t !in k.threads && t in k'.threads ==> Placed(k', t))
    && forall o :: t in On(k, WaitRing(o)) ==>
         && (t in On(k', WaitRing(o)) <==> !Wakes(s, t, o))
         && (Wakes(s, t, o) ==> t in k'.threads && (OnReady(k', t) || t == k'.current))
  }

  lemma SameListsMoved(k: Kernel, s: Step, k': Kernel, t: Tid)
    requires k.current in k.threads && k'.current == k.current && k'.threads.Keys == k.threads.Keys
    requires (forall r :: On(k', r) == On(k, r)) && (s.MarkStarted? || s.Tick?)
    ensures Moved(k, s, k', t)
  {
    assert Linked(k', t) <==> Linked(k, t);
  }

  lemma CreateMoved(k: Kernel, idle: Tid, s: Step, k': Kernel, t: Tid)
    requires KInv(k, idle) && Takes(k, idle, s, k') && s.Create?
    ensures Moved(k, s, k', t)
  {
    CreateKeeps(k, idle, s.t, s.pri, s.tick);
    var r := ReadyRing(s.pri);
    assert forall q, x :: x in On(k', q) <==> x in On(k, q) || (q == r && x == s.t);
    assert s.t in On(k', r);
    forall q | t in On(k, q) ensures t in k.threads { assert Belongs(k, q, t); }
  }

  lemma SuspendMoved(k: Kernel, idle: Tid, s: Step, k': Kernel, t: Tid)
    requires KInv(k, idle) && Takes(k, idle, s, k') && s.SuspendOne?
    ensures Moved(k, s, k', t)
  {
    SuspendKeeps(k, idle, s.t);
    if t in k.threads && t == s.t && t != k.current { assert ResidentOk(k, t); }
    assert t != s.t ==> (Linked(k', t) <==> Linked(k, t)) by {
      if k.threads[s.t].stat.base in {Ready, Running} && t != s.t {
        assert forall r :: t in On(k', r) <==> t in On(k, r);
      }
    }
  }

  lemma WakeMoved(k: Kernel, idle: Tid, s: Step, k': Kernel, t: Tid)
    requires KInv(k, idle) && Takes(k, idle, s, k') && (s.TimeoutOne? || s.ResumeOne?)
    ensures Moved(k, s, k', t)
  {
    if s.TimeoutOne? || k.threads[s.t].stat == SUSPEND {
      WakeKeeps(k, idle, s.t);
      assert t != s.t ==> forall r :: t in On(k', r) <==> t in On(k, r);
      assert t == s.t && t != k.current ==> t in On(k', ReadyRing(k.threads[t].pri));
    }
  }

  lemma WaitLists(k: Kernel, idle: Tid, o: nat, prio: bool)
    requires KInv(k, idle) && k.current != idle && k.threads[k.current].stat.base == Running
    ensures forall x :: x in On(k, WaitRing(o)) ==> x in k.threads
    ensures forall r, x :: x in On(WaitOn(k, o, prio), r) <==> x in On(k, r) || (r == WaitRing(o) && x == k.current)
    ensures Off(k, k.current)
  {
    WaitOnKeeps(k, idle, o, prio);
    CurrentOff(k, idle);
    var n := JoinedSplits(k, o, prio);
    InsertedMembers(On(k, WaitRing(o)), n, k.current);
  }

  lemma WaitMoved(k: Kernel, idle: Tid, s: Step, k': Kernel, t: Tid)
    requires KInv(k, idle) && Takes(k, idle, s, k') && s.Wait?
    ensures Moved(k, s, k', t)
  {
    WaitLists(k, idle, s.obj, s.prio);
    WaitOnKeeps(k, idle, s.obj, s.prio);
    assert t != k.current ==> forall r :: t in On(k', r) <==> t in On(k, r);
  }

  lemma FirstPlaces(k: Kernel, idle: Tid, o: nat, t: Tid)
    requires KInv(k, idle) && On(k, WaitRing(o)) != []
    ensures var w := On(k, WaitRing(o)); var k1 := ResumeThread(k, w[0]);
            && w[0] in k.threads && (Placed(k1, t) <==> Placed(k, t))
            && (t in w ==> t in k.threads && (t in On(k1, WaitRing(o)) || OnReady(k1, t) || t == k1.current))
            && (t in k.threads && OnReady(k, t) ==> OnReady(k1, t))
            && (t in k.threads ==> k1.threads[t].pri == k.threads[t].pri)
  {
    var w := On(k, WaitRing(o));
    ResumeFirst(k, idle, o);
    var k1 := ResumeThread(k, w[0]);
    assert w[0] in w && k.threads[w[0]].stat == SUSPEND;
    WakeKeeps(k, idle, w[0]);
    assert t != w[0] ==> forall r :: t in On(k1, r) <==> t in On(k, r);
    assert t == w[0] && t != k.current ==> t in On(k1, ReadyRing(k.threads[t].pri));
  }

  /** Waking a whole list moves its waiters to their ready lists and nobody else. */
  lemma {:induction false} ResumeAllPlaces(k: Kernel, idle: Tid, o: nat, t: Tid)
    requires KInv(k, idle)
    ensures var k' := ResumeAll(k, idle, o);
            && k'.threads.Keys == k.threads.Keys
            && (t in k.threads ==> k'.threads[t].pri == k.threads[t].pri)
            && (Placed(k', t) <==> Placed(k, t))
            && (t in On(k, WaitRing(o)) ==> t in k.threads && (OnReady(k', t) || t == k'.current))
            && (t in k.threads && OnReady(k, t) ==> OnReady(k', t))
            && forall q :: q != o ==> On(k', WaitRing(q)) == On(k, WaitRing(q))
    decreases |On(k, WaitRing(o))|
  {
    var w := On(k, WaitRing(o));
    if w != [] {
      ResumeFirst(k, idle, o);
      FirstPlaces(k, idle, o, t);
      ResumeAllPlaces(ResumeThread(k, w[0]), idle, o, t);
    }
  }

  lemma WakeAllMoved(k: Kernel, idle: Tid, s: Step, k': Kernel, t: Tid)
    requires KInv(k, idle) && Takes(k, idle, s, k') && s.WakeAll?
    ensures Moved(k, s, k', t)
  {
    ResumeAllPlaces(k, idle, s.obj, t);
  }

  /** Who is placed after a switch; the wait lists stay as they are. */
  lemma SwitchPlaces(k: Kernel, idle: Tid, to: Tid, t: Tid)
    requires Core(k, idle) && to in k.threads && to != k.current && OnReady(k, to)
    requires StaysRunnable(k) ==> k.threads[k.current].stat.base != Close && !OnWait(k, k.current)
    ensures Placed(SwitchTo(k, to), t) <==> Linked(k, t) || (t == k.current && StaysRunnable(k))
    ensures forall o :: t in On(SwitchTo(k, to), WaitRing(o)) <==> t in On(k, WaitRing(o))
  {
    SwitchKeeps(k, idle, to);
    var k' := SwitchTo(k, to);
    assert to in On(k, ReadyRing(k.threads[to].pri));
    assert t != to && t != k.current ==> forall r :: t in On(k', r) <==> t in On(k, r);
    if t == k.current && StaysRunnable(k) { assert t in On(k', ReadyRing(k.threads[t].pri)); }
  }

  /** The current thread is on no list but perhaps one wait list. */
  lemma LeavingLinked(k: Kernel, idle: Tid)
    requires KInv(k, idle)
    ensures Linked(k, k.current) <==> OnWait(k, k.current)
  {
    if !OnWait(k, k.current) { CurrentOff(k, idle); }
  }

  lemma RescheduleMoved(k: Kernel, idle: Tid, s: Step, k': Kernel, t: Tid)
    requires KInv(k, idle) && Takes(k, idle, s, k') && s.Reschedule?
    ensures Moved(k, s, k', t)
  {
    NextKnown(k, idle);
    if Next(k) != k.current {
      KInvSchedulable(k, idle);
      SwitchPlaces(k, idle, Next(k), t);
      LeavingLinked(k, idle);
    } else {
      assert k.threads[k.current].stat.base == Running;
    }
  }

  /** Closing the running thread takes nobody else off a list. */
  lemma ClosePlaces(k: Kernel, idle: Tid, t: Tid)
    requires KInv(k, idle) && k.current != idle && k.threads[k.current].stat.base == Running
    ensures Linked(CloseCurrent(k), t) <==> Linked(k, t) && t != k.current
    ensures forall o :: t in On(CloseCurrent(k), WaitRing(o)) <==> t in On(k, WaitRing(o))
  {
    DetachKeeps(k, k.current);
    var k1 := CloseCurrent(k);
    assert forall r :: On(k1, r) == On(Detach(k, k.current), r);
    assert t != k.current ==> forall r :: t in On(k1, r) <==> t in On(k, r);
    assert forall o :: k.current !in On(k, WaitRing(o));
  }

  lemma ExitMoved(k: Kernel, idle: Tid, s: Step, k': Kernel, t: Tid)
    requires KInv(k, idle) && Takes(k, idle, s, k') && s.Exit?
    ensures Moved(k, s, k', t)
  {
    var k1 := CloseCurrent(k);
    CloseKeeps(k, idle);
    NextKnown(k1, idle);
    ClosePlaces(k, idle, t);
    SwitchPlaces(k1, idle, Next(k1), t);
  }

  /** Every step of the kernel moves every thread as stated. */
  lemma StepMoves(k: Kernel, idle: Tid, s: Step, k': Kernel, t: Tid)
    requires KInv(k, idle) && Takes(k, idle, s, k')
    ensures Moved(k, s, k', t)
  {
    match s
    case Create(_, _, _) => CreateMoved(k, idle, s, k', t);
    case SuspendOne(_) => SuspendMoved(k, idle, s, k', t);
    case ResumeOne(_) => WakeMoved(k, idle, s, k', t);
    case TimeoutOne(_) => WakeMoved(k, idle, s, k', t);
    case Wait(_, _) => WaitMoved(k, idle, s, k', t);
    case WakeAll(_) => WakeAllMoved(k, idle, s, k', t);
    case Reschedule => RescheduleMoved(k, idle, s, k', t);
    case Exit => ExitMoved(k, idle, s, k', t);
    case MarkStarted(_) => SameListsMoved(k, s, k', t);
    case Tick => SameListsMoved(k, s, k', t);
  }

  // ---- runs ----

  ghost predicate TakesAt(ks: seq<Kernel>, idle: Tid, steps: seq<Step>, i: nat)
    requires i < |steps| < |ks|
  {
    KInv(ks[i], idle) ==> Takes(ks[i], idle, steps[i], ks[i + 1])
  }

  /** The system from its start: threads are created, the scheduler is started, then any steps follow. */
  ghost predicate IsRun(bs: seq<Kernel>, boot: seq<BootStep>, nobody: Tid, ks: seq<Kernel>, idle: Tid, steps: seq<Step>)
  {
    && IsBoot(bs, boot, nobody) && HasIdle(bs[|boot|], idle)
    && |ks| == |steps| + 1 && Highest(bs[|boot|]).Some?
    && On(bs[|boot|], ReadyRing(Highest(bs[|boot|]).value))[0] in bs[|boot|].threads
    && ks[0] == StartFirst(bs[|boot|])
    && forall i: nat :: i < |steps| ==> TakesAt(ks, idle, steps, i)
  }

  /** The invariant holds at every moment: each thread is on at most one list and the current one on no ready list. */
  lemma {:induction false} RunKeeps(bs: seq<Kernel>, boot: seq<BootStep>, nobody: Tid, ks: seq<Kernel>, idle: Tid,
                                    steps: seq<Step>, n: nat)
    requires IsRun(bs, boot, nobody, ks, idle, steps) && n <= |steps|
    ensures KInv(ks[n], idle) && ks[0].threads.Keys <= ks[n].threads.Keys
    decreases n
  {
    if n == 0 {
      BootKeeps(bs, boot, nobody, |boot|);
      StartKeeps(bs[|boot|], idle);
    } else {
      RunKeeps(bs, boot, nobody, ks, idle, steps, n - 1);
      assert TakesAt(ks, idle, steps, n - 1);
      StepKeeps(ks[n - 1], idle, steps[n - 1], ks[n]);
    }
  }

  /** Step i of a run drops thread t. */
  ghost predicate DroppedAt(ks: seq<Kernel>, steps: seq<Step>, t: Tid, i: nat)
    requires i < |steps| < |ks|
  {
    ks[i].current in ks[i].threads && t in ks[i].threads && Drops(ks[i], steps[i], t)
  }

  /** Conservation over every run of the system: a thread, once created, is running or on a list, unless a step
      dropped it (its suspension, its sleep or its exit) and no resume or timeout has brought it back since. */
  lemma {:induction false} RunConserves(bs: seq<Kernel>, boot: seq<BootStep>, nobody: Tid, ks: seq<Kernel>, idle: Tid,
                                        steps: seq<Step>, n: nat, t: Tid) returns (j: nat)
    requires IsRun(bs, boot, nobody, ks, idle, steps) && n <= |steps| && t in ks[n].threads
    ensures Placed(ks[n], t) ||
            (j < n && DroppedAt(ks, steps, t, j) && forall i :: j < i < n ==> !Restores(ks[i], steps[i], t))
    decreases n
  {
    j := 0;
    if n == 0 {
      BootKeeps(bs, boot, nobody, |boot|);
      StartKeeps(bs[|boot|], idle);
    } else {
      var i := n - 1;
      RunKeeps(bs, boot, nobody, ks, idle, steps, i);
      assert TakesAt(ks, idle, steps, i);
      StepMoves(ks[i], idle, steps[i], ks[n], t);
      if t in ks[i].threads {
        j := RunConserves(bs, boot, nobody, ks, idle, steps, i, t);
        if !Placed(ks[n], t) && Placed(ks[i], t) { j := i; }
      }
    }
  }

  // ---- the running thread ----

  /** What takes the processor or the right to it from the running thread t: its own wait or exit, its suspension, the
      end of its slice, or sk_schedule while a strictly better thread is ready. */
  ghost predicate Unseats(k: Kernel, s: Step, t: Tid)
    requires k.current in k.threads && t in k.threads
  {
    match s
    case Wait(_, _) => true
    case Exit => true
    case SuspendOne(u) => u == t
    case MarkStarted(u) => u == t
    case Tick => Expires(k)
    case Reschedule => exists u :: u in k.threads && OnReady(k, u) && k.threads[u].pri < k.threads[t].pri
    case _ => false
  }

  /** Thread t is current and plainly running. */
  ghost predicate Runs(k: Kernel, t: Tid)
  {
    k.current == t && t in k.threads && k.threads[t].stat == RUNNING
  }

  lemma RunnerSchedule(k: Kernel, idle: Tid, t: Tid)
    requires KInv(k, idle) && Runs(k, t)
    ensures Next(k) in k.threads && (Runs(Schedule(k), t) <==> !Unseats(k, Reschedule, t))
  {
    NextKnown(k, idle);
    LeavesIff(k, idle);
    if Next(k) != t { SwitchExact(k, Next(k)); }
  }

  lemma RunnerExit(k: Kernel, idle: Tid, t: Tid)
    requires KInv(k, idle) && Runs(k, t) && t != idle
    ensures Next(CloseCurrent(k)) in k.threads && !Runs(Schedule(CloseCurrent(k)), t)
  {
    CloseKeeps(k, idle);
    NextKnown(CloseCurrent(k), idle);
    SwitchExact(CloseCurrent(k), Next(CloseCurrent(k)));
  }

  /** A step leaves the running thread running exactly when it is none of these. */
  lemma RunnerStep(k: Kernel, idle: Tid, s: Step, k': Kernel, t: Tid)
    requires KInv(k, idle) && Takes(k, idle, s, k') && Runs(k, t)
    ensures Runs(k', t) <==> !Unseats(k, s, t)
  {
    match s
    case Create(u, pri, tick) => CreateLists(k, u, pri, tick);
    case MarkStarted(_) =>
    case SuspendOne(u) => SuspendExact(k, u);
    case ResumeOne(u) => ResumeKeeps(k, idle, u);
    case TimeoutOne(u) => WakeExact(k, u);
    case Wait(o, prio) => WaitOnKeeps(k, idle, o, prio);
    case WakeAll(o) => ResumeAllStates(k, idle, o, t);
    case Reschedule => RunnerSchedule(k, idle, t);
    case Exit => RunnerExit(k, idle, t);
    case Tick =>
  }

  /** Over every run a running thread keeps the processor, whatever becomes ready beside it, until one of these steps.
      */
  lemma {:induction false} RunnerKeeps(bs: seq<Kernel>, boot: seq<BootStep>, nobody: Tid, ks: seq<Kernel>, idle: Tid,
                                       steps: seq<Step>, i: nat, n: nat, t: Tid)
    requires IsRun(bs, boot, nobody, ks, idle, steps) && i <= n <= |steps| && Runs(ks[i], t)
    requires forall m :: i <= m < n && Runs(ks[m], t) ==> !Unseats(ks[m], steps[m], t)
    ensures Runs(ks[n], t)
    decreases n
  {
    if n > i {
      RunnerKeeps(bs, boot, nobody, ks, idle, steps, i, n - 1, t);
      RunKeeps(bs, boot, nobody, ks, idle, steps, n - 1);
      assert TakesAt(ks, idle, steps, n - 1);
      RunnerStep(ks[n - 1], idle, steps[n - 1], ks[n], t);
    }
  }

  // ---- closed threads ----

  /** Thread t is closed, and nothing can find it. */
  ghost predicate Gone(k: Kernel, t: Tid)
  {
    t in k.threads && k.threads[t].stat == CLOSE && Off(k, t) && t != k.current
  }

  lemma ClosedMeans(k: Kernel, idle: Tid, t: Tid)
    requires KInv(k, idle) && t in k.threads && k.threads[t].stat.base == Close
    ensures Gone(k, t)
  {
    assert ResidentOk(k, t);
  }

  lemma ClosedSchedule(k: Kernel, idle: Tid, t: Tid)
    requires Core(k, idle) && t in k.threads && k.threads[t].stat == CLOSE
    ensures Next(k) in k.threads && Schedule(k).threads[t].stat == CLOSE
  {
    NextKnown(k, idle);
    assert !OnReady(k, t);
    if Next(k) != k.current { SwitchExact(k, Next(k)); }
  }

  lemma ClosedNamed(k: Kernel, idle: Tid, u: Tid, t: Tid)
    requires KInv(k, idle) && Gone(k, t) && u in k.threads
    ensures SuspendThread(k, u).threads.Keys == ResumeThread(k, u).threads.Keys == k.threads.Keys
    ensures SuspendThread(k, u).threads[t].stat == CLOSE && ResumeThread(k, u).threads[t].stat == CLOSE
    ensures u != t ==> t in WakeThread(k, u).threads && WakeThread(k, u).threads[t].stat == CLOSE
  {
    SuspendExact(k, u);
    ResumeKeeps(k, idle, u);
    WakeExact(k, u);
  }

  lemma ClosedState(k: Kernel, idle: Tid, s: Step, k': Kernel, t: Tid)
    requires KInv(k, idle) && Takes(k, idle, s, k') && Gone(k, t)
    ensures t in k'.threads && k'.threads[t].stat == CLOSE
  {
    match s {
      case Create(u, pri, tick) => CreateLists(k, u, pri, tick);
      case MarkStarted(_) =>
      case SuspendOne(u) => ClosedNamed(k, idle, u, t);
      case ResumeOne(u) => ClosedNamed(k, idle, u, t);
      case TimeoutOne(u) => ClosedNamed(k, idle, u, t);
      case Wait(o, prio) => WaitOnKeeps(k, idle, o, prio);
      case WakeAll(o) => ResumeAllStates(k, idle, o, t);
      case Reschedule => ClosedSchedule(k, idle, t);
      case Exit => CloseKeeps(k, idle); ClosedSchedule(CloseCurrent(k), idle, t);
      case Tick =>
    }
  }

  /** No step changes a closed thread. */
  lemma ClosedStep(k: Kernel, idle: Tid, s: Step, k': Kernel, t: Tid)
    requires KInv(k, idle) && Takes(k, idle, s, k') && Gone(k, t)
    ensures KInv(k', idle) && Gone(k', t)
  {
    ClosedState(k, idle, s, k', t);
    StepKeeps(k, idle, s, k');
    ClosedMeans(k', idle, t);
  }

  /** __thread_exit closes the current thread. */
  lemma ExitCloses(k: Kernel, idle: Tid, k': Kernel)
    requires KInv(k, idle) && Takes(k, idle, Exit, k')
    ensures KInv(k', idle) && Gone(k', k.current)
  {
    StepKeeps(k, idle, Exit, k');
    CloseKeeps(k, idle);
    ClosedSchedule(CloseCurrent(k), idle, k.current);
    ClosedMeans(k', idle, k.current);
  }

  /** Over every run, a thread that has exited is on no list and never runs again: no resume, timeout, startup or
      suspension brings it back. */
  lemma {:induction false} ExitIsFinal(bs: seq<Kernel>, boot: seq<BootStep>, nobody: Tid, ks: seq<Kernel>, idle: Tid,
                                       steps: seq<Step>, i: nat, n: nat)
    requires IsRun(bs, boot, nobody, ks, idle, steps) && i < n <= |steps| && steps[i] == Exit
    ensures KInv(ks[n], idle) && Gone(ks[n], ks[i].current)
    decreases n
  {
    RunKeeps(bs, boot, nobody, ks, idle, steps, n - 1);
    assert TakesAt(ks, idle, steps, n - 1);
    if n == i + 1 {
      ExitCloses(ks[i], idle, ks[n]);
    } else {
      ExitIsFinal(bs, boot, nobody, ks, idle, steps, i, n - 1);
      ClosedStep(ks[n - 1], idle, steps[n - 1], ks[n], ks[i].current);
    }
  }

  // ---- waiters ----

  /** Step j of a run takes waiter t of object o off its list and makes it ready or current. */
  ghost predicate WokenAt(ks: seq<Kernel>, steps: seq<Step>, t: Tid, o: nat, j: nat)
    requires j < |steps| < |ks|
  {
    && t in On(ks[j], WaitRing(o)) && Wakes(steps[j], t, o)
    && t in ks[j + 1].threads && (OnReady(ks[j + 1], t) || t == ks[j + 1].current)
  }

  lemma WaiterStep(ks: seq<Kernel>, idle: Tid, steps: seq<Step>, t: Tid, o: nat, j: nat)
    requires j < |steps| < |ks| && KInv(ks[j], idle) && TakesAt(ks, idle, steps, j)
    requires t in On(ks[j], WaitRing(o))
    ensures t in On(ks[j + 1], WaitRing(o)) <==> !Wakes(steps[j], t, o)
    ensures t in On(ks[j + 1], WaitRing(o)) || WokenAt(ks, steps, t, o, j)
  {
    StepMoves(ks[j], idle, steps[j], ks[j + 1], t);
  }

  /** Whether t still waits on o, or what woke it. */
  ghost predicate WaitsOrWoken(ks: seq<Kernel>, steps: seq<Step>, t: Tid, o: nat, i: nat, n: nat, j: nat)
    requires n <= |steps| < |ks|
  {
    t in On(ks[n], WaitRing(o)) || (i <= j < n && WokenAt(ks, steps, t, o, j))
  }

  lemma WaiterAt(bs: seq<Kernel>, boot: seq<BootStep>, nobody: Tid, ks: seq<Kernel>, idle: Tid, steps: seq<Step>,
                 i: nat, m: nat, t: Tid, o: nat)
    requires IsRun(bs, boot, nobody, ks, idle, steps) && i <= m < |steps| && t in On(ks[m], WaitRing(o))
    ensures WaitsOrWoken(ks, steps, t, o, i, m + 1, m)
  {
    RunKeeps(bs, boot, nobody, ks, idle, steps, m);
    assert TakesAt(ks, idle, steps, m);
    WaiterStep(ks, idle, steps, t, o, m);
  }

  /** A waiter stays on its list until a resume, a timeout or the waking of the whole list moves it to its ready list or
      makes it run: no step loses it. */
  lemma {:induction false} WaiterKept(bs: seq<Kernel>, boot: seq<BootStep>, nobody: Tid, ks: seq<Kernel>, idle: Tid,
                                      steps: seq<Step>, i: nat, n: nat, t: Tid, o: nat) returns (j: nat)
    requires IsRun(bs, boot, nobody, ks, idle, steps) && i <= n <= |steps| && t in On(ks[i], WaitRing(o))
    ensures WaitsOrWoken(ks, steps, t, o, i, n, j)
    decreases n
  {
    j := i;
    if n > i {
      var m := n - 1;
      j := WaiterKept(bs, boot, nobody, ks, idle, steps, i, m, t, o);
      if t in On(ks[m], WaitRing(o)) {
        WaiterAt(bs, boot, nobody, ks, idle, steps, i, m, t, o);
        j := m;
      }
    }
  }

  /** Without such a step it waits on. */
  lemma WaiterStays(bs: seq<Kernel>, boot: seq<BootStep>, nobody: Tid, ks: seq<Kernel>, idle: Tid, steps: seq<Step>,
                    i: nat, n: nat, t: Tid, o: nat)
    requires IsRun(bs, boot, nobody, ks, idle, steps) && i <= n <= |steps| && t in On(ks[i], WaitRing(o))
    requires forall m :: i <= m < n ==> !Wakes(steps[m], t, o)
    ensures t in On(ks[n], WaitRing(o))
  {
    var j := WaiterKept(bs, boot, nobody, ks, idle, steps, i, n, t, o);
  }

  /** The window of KernelRuns.TickKeepsIff from the start of a system: the first thread has a slice of one tick and
      waits. */
  lemma WindowFromStart(nobody: Tid, idle: Tid, t: Tid, o: nat, prio: bool)
    returns (bs: seq<Kernel>, boot: seq<BootStep>)
    requires nobody != idle && nobody != t && idle != t
    ensures IsBoot(bs, boot, nobody) && Highest(bs[|boot|]).Some?
    ensures On(bs[|boot|], ReadyRing(Highest(bs[|boot|]).value))[0] in bs[|boot|].threads
    ensures var k := StartFirst(bs[|boot|]);
            && KInv(k, idle) && k.current == t && (forall x :: x in On(k, WaitRing(o)) ==> x in k.threads)
            && KInv(WaitOn(k, o, prio), idle) && !KInv(CountTick(WaitOn(k, o, prio)), idle)
  {
    bs, boot := StartsWith(nobody, idle, t, 1);
    TickWindowReached(StartFirst(bs[|boot|]), idle, o, prio);
  }

  /** Only the idle thread is ready beside the first one. */
  lemma OnlyIdleReady(k: Kernel, idle: Tid, t: Tid)
    requires KInv(k, idle) && k.current == t && t != idle && k.threads.Keys == {t, idle} && k.threads[t].pri == 0
    ensures Highest(k).Some? && Highest(k).value > 0
  {
    assert OnReady(k, idle);
    HighestIsLeast(k, idle);
    var r := ReadyRing(Highest(k).value);
    assert On(k, r)[0] in On(k, r) && Belongs(k, r, On(k, r)[0]);
  }

  lemma LastTickYields(k: Kernel, idle: Tid, t: Tid)
    requires KInv(k, idle) && k.current == t && t != idle && k.threads.Keys == {t, idle} && k.threads[t].pri == 0
    requires Expires(k) && !OnWait(k, t)
    ensures KInv(CountTick(k), idle) && Next(CountTick(k)) in k.threads
    ensures Schedule(CountTick(k)).current in k.threads && !Optimal(Schedule(CountTick(k)))
  {
    TickKeepsIff(k, idle);
    OnlyIdleReady(CountTick(k), idle, t);
    ScheduleOptimalIff(CountTick(k), idle);
  }

  /** A thread whose slice of one tick ends gives way to the idle thread, far below it. */
  lemma YieldsDown(nobody: Tid, idle: Tid, t: Tid) returns (bs: seq<Kernel>, boot: seq<BootStep>)
    requires nobody != idle && nobody != t && idle != t
    ensures IsBoot(bs, boot, nobody) && Highest(bs[|boot|]).Some?
    ensures On(bs[|boot|], ReadyRing(Highest(bs[|boot|]).value))[0] in bs[|boot|].threads
    ensures var k := StartFirst(bs[|boot|]);
            && KInv(k, idle) && k.current == t && KInv(CountTick(k), idle) && Next(CountTick(k)) in k.threads
            && Schedule(CountTick(k)).current in k.threads && !Optimal(Schedule(CountTick(k)))
  {
    bs, boot := StartsWith(nobody, idle, t, 1);
    LastTickYields(StartFirst(bs[|boot|]), idle, t);
  }
}
