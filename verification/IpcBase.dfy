/** The wait list of one IPC object among all the other things the kernel does (ipc/ipc_base.c). */
module IpcBase {
  import opened Seqs
  import opened Kernel
  import opened KernelInvariant
  import opened KernelSteps
  import opened KernelRuns

  /** The threads waiting on object o. */
  function Waiters(k: Kernel, o: nat): (w: seq<Tid>)
  {
    On(k, WaitRing(o))
  }

  /** A thread may make calls: it is running, and it is not the idle thread. */
  ghost predicate CanCall(k: Kernel, idle: Tid)
  {
    KInv(k, idle) && k.current != idle && k.threads[k.current].stat.base == Running
  }

  /** Everything the kernel may do between two operations on object o: other calls, ticks, timeouts, rescheduling. */
  ghost predicate Environment(k: Kernel, idle: Tid, o: nat, s: Step, k': Kernel)
  {
    KInv(k, idle) && Takes(k, idle, s, k') && !(s.Wait? && s.obj == o)
  }

  /** The list is as before, empty, or lacks one thread. */
  ghost predicate OneLeft(w: seq<Tid>, w': seq<Tid>)
  {
    w' == w || w' == [] || exists t :: w' == Without(w, t)
  }

  lemma DetachLeaves(k: Kernel, t: Tid, o: nat)
    ensures OneLeft(Waiters(k, o), Waiters(Detach(k, t), o))
  {
    DetachOn(k, t, WaitRing(o));
  }

  lemma WakeLeaves(k: Kernel, t: Tid, o: nat)
    requires t in k.threads
    ensures OneLeft(Waiters(k, o), Waiters(WakeThread(k, t), o))
  {
    DetachLeaves(k, t, o);
    assert Waiters(WakeThread(k, t), o) == Waiters(Detach(k, t), o);
  }

  lemma ScheduleLeaves(k: Kernel, idle: Tid, o: nat)
    requires Core(k, idle) && Next(k) in k.threads
    ensures Waiters(Schedule(k), o) == Waiters(k, o)
  {
    NextKnown(k, idle);
    var to := Next(k);
    if to != k.current {
      var from, k1 := k.current, k.(current := to);
      var k2 := if k.threads[from].stat != SUSPEND && k.threads[from].stat != CLOSE then Insert(k1, from) else k1;
      assert Waiters(k2, o) == Waiters(k, o);
      DetachOn(k2, to, WaitRing(o));
      WithoutAbsent(Waiters(k, o), to);
      assert Waiters(Schedule(k), o) == Waiters(Detach(k2, to), o);
    }
  }

  lemma {:induction false} ResumeAllLeaves(k: Kernel, idle: Tid, p: nat, o: nat)
    requires KInv(k, idle)
    ensures OneLeft(Waiters(k, o), Waiters(ResumeAll(k, idle, p), o))
    decreases |On(k, WaitRing(p))|
  {
    if On(k, WaitRing(p)) != [] && p != o {
      ResumeFirst(k, idle, p);
      ResumeAllLeaves(ResumeThread(k, On(k, WaitRing(p))[0]), idle, p, o);
    }
  }

  lemma ExitLeaves(k: Kernel, idle: Tid, o: nat)
    requires CanCall(k, idle) && Next(CloseCurrent(k)) in k.threads
    ensures Waiters(Schedule(CloseCurrent(k)), o) == Waiters(k, o)
  {
    CloseKeeps(k, idle);
    ScheduleLeaves(CloseCurrent(k), idle, o);
    DetachOn(k, k.current, WaitRing(o));
    WithoutAbsent(Waiters(k, o), k.current);
  }

  lemma OtherWaitLeaves(k: Kernel, idle: Tid, p: nat, prio: bool, o: nat)
    requires CanCall(k, idle) && p != o && forall x :: x in On(k, WaitRing(p)) ==> x in k.threads
    ensures Waiters(WaitOn(k, p, prio), o) == Waiters(k, o)
  {
    WaitOnKeeps(k, idle, p, prio);
  }

  /** Other steps can only take threads off the list. */
  lemma EnvironmentLeaves(k: Kernel, idle: Tid, o: nat, s: Step, k': Kernel)
    requires Environment(k, idle, o, s, k')
    ensures OneLeft(Waiters(k, o), Waiters(k', o))
  {
    match s
    case Create(t, pri, tick) =>
    case MarkStarted(t) =>
    case SuspendOne(t) => DetachLeaves(k, t, o);
    case ResumeOne(t) => if k.threads[t].stat == SUSPEND { WakeLeaves(k, t, o); }
    case TimeoutOne(t) => WakeLeaves(k, t, o);
    case Wait(p, prio) => OtherWaitLeaves(k, idle, p, prio, o);
    case WakeAll(p) => ResumeAllLeaves(k, idle, p, o);
    case Reschedule => ScheduleLeaves(k, idle, o);
    case Exit => ExitLeaves(k, idle, o);
    case Tick =>
  }

  lemma OneLeftMembers(w: seq<Tid>, w': seq<Tid>)
    requires OneLeft(w, w')
    ensures forall x :: x in w' ==> x in w
  {
    if t :| w' == Without(w, t) { WithoutSubset(w, t); }
  }

  /** Priorities never change. */
  ghost predicate SamePriorities(k: Kernel, k': Kernel)
  {
    forall t :: t in k.threads ==> t in k'.threads && k'.threads[t].pri == k.threads[t].pri
  }

  lemma {:induction false} ResumeAllPriorities(k: Kernel, idle: Tid, p: nat)
    requires KInv(k, idle)
    ensures SamePriorities(k, ResumeAll(k, idle, p))
    decreases |On(k, WaitRing(p))|
  {
    if On(k, WaitRing(p)) != [] {
      ResumeFirst(k, idle, p);
      ResumeAllPriorities(ResumeThread(k, On(k, WaitRing(p))[0]), idle, p);
    }
  }

  lemma SchedulePriorities(k: Kernel)
    requires k.current in k.threads && Next(k) in k.threads
    ensures SamePriorities(k, Schedule(k))
  {
  }

  lemma WakePriorities(k: Kernel, t: Tid)
    requires t in k.threads
    ensures SamePriorities(k, WakeThread(k, t)) && SamePriorities(k, ResumeThread(k, t))
  {
  }

  lemma SuspendPriorities(k: Kernel, t: Tid)
    requires t in k.threads
    ensures SamePriorities(k, SuspendThread(k, t))
  {
  }

  lemma TickPriorities(k: Kernel)
    requires k.current in k.threads
    ensures SamePriorities(k, CountTick(k))
  {
  }

  lemma ExitPriorities(k: Kernel)
    requires k.current in k.threads && Next(CloseCurrent(k)) in k.threads
    ensures SamePriorities(k, Schedule(CloseCurrent(k)))
  {
    SchedulePriorities(CloseCurrent(k));
    assert SamePriorities(k, CloseCurrent(k));
  }

  lemma WaitPriorities(k: Kernel, idle: Tid, o: nat, prio: bool)
    requires CanCall(k, idle)
    ensures forall x :: x in On(k, WaitRing(o)) ==> x in k.threads
    ensures SamePriorities(k, WaitOn(k, o, prio))
  {
    WaitOnKeeps(k, idle, o, prio);
  }

  lemma MarkPriorities(k: Kernel, t: Tid)
    requires t in k.threads
    ensures SamePriorities(k, SetStat(k, t, SUSPEND))
  {
  }

  lemma EnvironmentPriorities(k: Kernel, idle: Tid, o: nat, s: Step, k': Kernel)
    requires Environment(k, idle, o, s, k')
    ensures SamePriorities(k, k')
  {
    match s
    case Create(t, pri, tick) => CreateLists(k, t, pri, tick);
    case SuspendOne(t) => SuspendPriorities(k, t);
    case Tick => TickPriorities(k);
    case WakeAll(p) => ResumeAllPriorities(k, idle, p);
    case Reschedule => SchedulePriorities(k);
    case Exit => ExitPriorities(k);
    case Wait(p, prio) => WaitPriorities(k, idle, p, prio);
    case ResumeOne(t) => WakePriorities(k, t);
    case TimeoutOne(t) => WakePriorities(k, t);
    case MarkStarted(t) => MarkPriorities(k, t);
  }

  lemma SortedGap(threads: map<Tid, Thread>, w: seq<Tid>, n: nat)
    requires SortedByPri(threads, w) && n < |w|
    ensures SortedByPri(threads, w[..n] + w[n + 1..])
  {
    var r := w[..n] + w[n + 1..];
    assert forall x :: x in r ==> x in w;
    forall i, j | 0 <= i < j < |r| ensures threads[r[i]].pri <= threads[r[j]].pri {
      var i', j' := if i < n then i else i + 1, if j < n then j else j + 1;
      assert r[i] == w[i'] && r[j] == w[j'];
    }
  }

  lemma SortedWithout(threads: map<Tid, Thread>, w: seq<Tid>, t: Tid)
    requires SortedByPri(threads, w)
    ensures SortedByPri(threads, Without(w, t))
  {
    if t in w {
      var n := FirstIndex(w, t);
      WithoutAt(w, t, n);
      WithoutSubset(w, t);
      SortedGap(threads, w, n);
    } else {
      WithoutAbsent(w, t);
    }
  }

  lemma SortedSurvives(k: Kernel, k': Kernel, w: seq<Tid>, w': seq<Tid>)
    requires SortedByPri(k.threads, w) && OneLeft(w, w') && SamePriorities(k, k')
    ensures SortedByPri(k'.threads, w')
  {
    if t :| w' == Without(w, t) { SortedWithout(k.threads, w, t); }
  }

  lemma {:induction false} PrioInsertMembers(threads: map<Tid, Thread>, w: seq<Tid>, t: Tid)
    requires t in threads && forall x :: x in w ==> x in threads
    ensures forall x :: x in PrioInsert(threads, w, t) <==> x in w || x == t
    ensures |PrioInsert(threads, w, t)| == |w| + 1
    decreases |w|
  {
    if w != [] {
      assert w == [w[0]] + w[1..];
      PrioInsertMembers(threads, w[1..], t);
    }
  }

  /** The current thread joins the list of object o. */
  lemma Join(k: Kernel, idle: Tid, o: nat, prio: bool)
    requires CanCall(k, idle)
    ensures forall x :: x in Waiters(k, o) ==> x in k.threads
    ensures var k' := WaitOn(k, o, prio);
            && KInv(k', idle) && k'.current == k.current && SamePriorities(k, k')
            && Waiters(k', o) == Joined(k, o, prio)
            && (forall x :: x in Waiters(k', o) <==> x in Waiters(k, o) || x == k.current)
            && k.current !in Waiters(k, o)
            && (prio && SortedByPri(k.threads, Waiters(k, o)) ==> SortedByPri(k'.threads, Waiters(k', o)))
  {
    WaitOnKeeps(k, idle, o, prio);
    assert k.current !in Waiters(k, o) by {
      assert k.threads[k.current].stat != SUSPEND;
    }
    if prio {
      PrioInsertMembers(k.threads, Waiters(k, o), k.current);
      if SortedByPri(k.threads, Waiters(k, o)) {
        PrioInsertKeepsSorted(k.threads, Waiters(k, o), k.current);
        SortedSurvives(k, WaitOn(k, o, true), Joined(k, o, true), Joined(k, o, true));
      }
    }
  }

  /** The current thread is suspended and waits on object o, last or, by priority, behind its equals; all other lists
      and threads are as before. */
  ghost predicate Blocks(k: Kernel, o: nat, prio: bool, k': Kernel)
    requires k.current in k.threads && forall x :: x in Waiters(k, o) ==> x in k.threads
  {
    && k'.current == k.current && k'.threads == k.threads[k.current := k.threads[k.current].(stat := SUSPEND)]
    && Waiters(k', o) == Joined(k, o, prio)
    && forall r :: r != WaitRing(o) ==> On(k', r) == On(k, r)
  }

  lemma JoinedKeeps(k: Kernel, o: nat, prio: bool, t: Tid)
    requires k.current in k.threads && (forall x :: x in Waiters(k, o) ==> x in k.threads) && t in Waiters(k, o)
    ensures t in Joined(k, o, prio)
  {
    var n := JoinedSplits(k, o, prio);
    assert Waiters(k, o) == Waiters(k, o)[..n] + Waiters(k, o)[n..];
  }

  lemma TailWaiters(k: Kernel, o: nat)
    requires RingsOk(k) && Waiters(k, o) != []
    ensures forall x :: x in Waiters(k, o)[1..] <==> x in Waiters(k, o) && x != Waiters(k, o)[0]
  {
    TailMembers(Waiters(k, o));
  }

  lemma TailSorted(k: Kernel, k': Kernel, w: seq<Tid>)
    requires SortedByPri(k.threads, w) && w != [] && SamePriorities(k, k')
    ensures SortedByPri(k'.threads, w[1..])
  {
    assert w[1..] == Without(w, w[0]);
    SortedSurvives(k, k', w, w[1..]);
  }

  lemma HeadLeaves(k: Kernel, idle: Tid, o: nat)
    requires KInv(k, idle) && Waiters(k, o) != []
    ensures var t := Waiters(k, o)[0]; t in k.threads && KInv(ResumeThread(k, t), idle)
    ensures var k' := ResumeThread(k, Waiters(k, o)[0]);
            && k'.current == k.current && k'.threads.Keys == k.threads.Keys && Waiters(k', o) == Waiters(k, o)[1..]
  {
    ResumeFirst(k, idle, o);
  }

  /** The first waiter of object o left its list: it is ready and last on the list of its priority, or goes on running
      if it is the current thread. All other lists and threads are as before. */
  ghost predicate FirstWoken(k: Kernel, o: nat, k': Kernel)
    requires Waiters(k, o) != []
  {
    var t := Waiters(k, o)[0];
    && t in k.threads && k'.current == k.current
    && k'.threads == k.threads[t := k.threads[t].(stat := if t == k.current then RUNNING else READY)]
    && Waiters(k', o) == Waiters(k, o)[1..]
    && (forall p :: p != o ==> Waiters(k', p) == Waiters(k, p))
    && forall p :: On(k', ReadyRing(p)) ==
         On(k, ReadyRing(p)) + if p == k.threads[t].pri && t != k.current then [t] else []
  }

  /** Resuming it does this. */
  lemma HeadWoken(k: Kernel, idle: Tid, o: nat)
    requires KInv(k, idle) && Waiters(k, o) != []
    ensures Waiters(k, o)[0] in k.threads
    ensures var k' := ResumeThread(k, Waiters(k, o)[0]); FirstWoken(k, o, k') && Awake(k', Waiters(k, o)[0])
  {
    ResumeFirst(k, idle, o);
  }

  /** The first waiter of object o is resumed. */
  lemma WakeHead(k: Kernel, idle: Tid, o: nat)
    requires KInv(k, idle) && Waiters(k, o) != []
    ensures var t := Waiters(k, o)[0]; t in k.threads && KInv(ResumeThread(k, t), idle)
    ensures var t := Waiters(k, o)[0]; var k' := ResumeThread(k, t);
            && k'.current == k.current && SamePriorities(k, k') && k'.threads.Keys == k.threads.Keys
            && Waiters(k', o) == Waiters(k, o)[1..] && t !in Waiters(k', o)
            && (forall x :: x in Waiters(k', o) <==> x in Waiters(k, o) && x != t)
            && (SortedByPri(k.threads, Waiters(k, o)) ==> SortedByPri(k'.threads, Waiters(k', o)))
  {
    HeadLeaves(k, idle, o);
    var w := Waiters(k, o);
    TailWaiters(k, o);
    WakePriorities(k, w[0]);
    if SortedByPri(k.threads, w) { TailSorted(k, ResumeThread(k, w[0]), w); }
  }

  lemma RunningNotWaiting(k: Kernel, idle: Tid, o: nat)
    requires CanCall(k, idle)
    ensures k.current !in Waiters(k, o)
  {
    assert k.threads[k.current].stat != SUSPEND;
  }

  /** A timeout takes exactly its own thread off the list. */
  lemma TimeoutLeaves(k: Kernel, o: nat, t: Tid)
    requires t in k.threads && NoDup(Waiters(k, o))
    ensures Waiters(WakeThread(k, t), o) == Without(Waiters(k, o), t) && t !in Waiters(WakeThread(k, t), o)
  {
    DetachOn(k, t, WaitRing(o));
    assert Waiters(WakeThread(k, t), o) == Waiters(Detach(k, t), o);
    WithoutMembers(Waiters(k, o), t);
  }

  /** A thread that is still current when its wait times out goes on running. */
  lemma CurrentTimesOut(k: Kernel, idle: Tid, o: nat)
    requires KInv(k, idle) && k.current != idle
    ensures var k' := WakeThread(k, k.current);
            CanCall(k', idle) && k'.current == k.current && Environment(k, idle, o, TimeoutOne(k.current), k')
  {
    WakeKeeps(k, idle, k.current);
    WakeExact(k, k.current);
  }

  /** Where a new waiter queues: last, or behind everybody of its priority or a better one and before the first worse
      one. */
  lemma WaitOrder(k: Kernel, idle: Tid, o: nat, prio: bool) returns (n: nat)
    requires CanCall(k, idle)
    ensures forall x :: x in Waiters(k, o) ==> x in k.threads
    ensures n <= |Waiters(k, o)|
    ensures Waiters(WaitOn(k, o, prio), o) == Waiters(k, o)[..n] + [k.current] + Waiters(k, o)[n..]
    ensures !prio ==> n == |Waiters(k, o)|
    ensures prio ==> forall i :: 0 <= i < n ==> k.threads[Waiters(k, o)[i]].pri <= k.threads[k.current].pri
    ensures prio && n < |Waiters(k, o)| ==> k.threads[k.current].pri < k.threads[Waiters(k, o)[n]].pri
  {
    Join(k, idle, o, prio);
    if prio { n := PrioInsertSplits(k.threads, Waiters(k, o), k.current); } else { n := |Waiters(k, o)|; }
  }

  /** The first waiter, if any, is resumed. */
  function WakeFirst(k: Kernel, o: nat): (k': Kernel)
    requires forall x :: x in Waiters(k, o) ==> x in k.threads
  {
    if Waiters(k, o) == [] then k else ResumeThread(k, Waiters(k, o)[0])
  }

  /** The threads of s that do not wait on object o: inside a call on it, and woken. */
  ghost function Woken(k: Kernel, o: nat, s: set<Tid>): (w: set<Tid>)
  {
    set t | t in s && t !in Waiters(k, o)
  }

  /** Nothing happens without a waiter, else exactly the first one wakes. */
  ghost predicate WakesOne(k: Kernel, o: nat, k': Kernel)
  {
    if Waiters(k, o) == [] then k' == k else FirstWoken(k, o, k') && Awake(k', Waiters(k, o)[0])
  }

  /** The wake of a send or a receive does that. */
  lemma WakeFirstExact(k: Kernel, idle: Tid, o: nat)
    requires KInv(k, idle)
    ensures forall x :: x in Waiters(k, o) ==> x in k.threads
    ensures WakesOne(k, o, WakeFirst(k, o))
  {
    WaitersKnown(k, o);
    if Waiters(k, o) != [] { HeadWoken(k, idle, o); }
  }

  lemma WakeFirstKeeps(k: Kernel, idle: Tid, o: nat, s: set<Tid>)
    requires KInv(k, idle) && forall x :: x in Waiters(k, o) ==> x in s
    ensures forall x :: x in Waiters(k, o) ==> x in k.threads
    ensures var k' := WakeFirst(k, o);
            && KInv(k', idle) && k'.current == k.current && k'.threads.Keys == k.threads.Keys
            && (forall x :: x in Waiters(k', o) ==> x in Waiters(k, o))
            && Waiters(k', o) == (if Waiters(k, o) == [] then [] else Waiters(k, o)[1..])
            && Woken(k', o, s) == Woken(k, o, s) + (if Waiters(k, o) == [] then {} else {Waiters(k, o)[0]})
            && |Woken(k', o, s)| == |Woken(k, o, s)| + (if Waiters(k, o) == [] then 0 else 1)
  {
    WaitersKnown(k, o);
    if Waiters(k, o) != [] {
      WakeHead(k, idle, o);
      var t := Waiters(k, o)[0];
      assert t in Waiters(k, o);
      assert Woken(WakeFirst(k, o), o, s) == Woken(k, o, s) + {t};
    }
  }

  lemma WokenGrows(k: Kernel, k': Kernel, o: nat, s: set<Tid>)
    requires forall x :: x in Waiters(k', o) ==> x in Waiters(k, o)
    ensures Woken(k, o, s) <= Woken(k', o, s) && |Woken(k, o, s)| <= |Woken(k', o, s)|
  {
    SubsetCount(Woken(k, o, s), Woken(k', o, s));
  }

  /** Waking the first waiter of one object leaves the list of another alone. */
  lemma ResumeOther(k: Kernel, idle: Tid, o: nat, p: nat)
    requires KInv(k, idle) && Waiters(k, o) != [] && o != p
    ensures Waiters(k, o)[0] in k.threads && Waiters(ResumeThread(k, Waiters(k, o)[0]), p) == Waiters(k, p)
  {
    ResumeFirst(k, idle, o);
  }

  /** While somebody of s waits on object o, at least n of the others are woken. */
  ghost predicate Covered(k: Kernel, o: nat, s: set<Tid>, n: nat)
  {
    && (forall t :: t in Waiters(k, o) ==> t in s)
    && (Waiters(k, o) != [] ==> n <= |Woken(k, o, s)|)
  }

  /** Waking the first waiter covers one more. */
  lemma WakeCovers(k: Kernel, idle: Tid, o: nat, s: set<Tid>, n: nat)
    requires KInv(k, idle) && (forall t :: t in Waiters(k, o) ==> t in s)
    requires Waiters(k, o) != [] ==> n <= |Woken(k, o, s)| + 1
    ensures forall x :: x in Waiters(k, o) ==> x in k.threads
    ensures KInv(WakeFirst(k, o), idle) && Covered(WakeFirst(k, o), o, s, n)
  {
    WakeFirstKeeps(k, idle, o, s);
  }

  /** Other steps uncover nothing. */
  lemma EnvironmentCovers(k: Kernel, idle: Tid, o: nat, s: set<Tid>, n: nat, step: Step, k': Kernel)
    requires Covered(k, o, s, n) && Environment(k, idle, o, step, k')
    ensures KInv(k', idle) && Covered(k', o, s, n)
  {
    StepKeeps(k, idle, step, k');
    EnvironmentLeaves(k, idle, o, step, k');
    OneLeftMembers(Waiters(k, o), Waiters(k', o));
    WokenGrows(k, k', o, s);
    if Waiters(k', o) != [] { assert Waiters(k', o)[0] in Waiters(k, o); }
  }

  /** A thread of s that runs is woken; without it one fewer is covered. */
  lemma RunnerCovers(k: Kernel, idle: Tid, o: nat, s: set<Tid>, n: nat)
    requires CanCall(k, idle) && k.current in s && Covered(k, o, s, n)
    ensures Covered(k, o, s - {k.current}, if n > 0 then n - 1 else 0)
  {
    RunningNotWaiting(k, idle, o);
    assert Woken(k, o, s) == Woken(k, o, s - {k.current}) + {k.current};
  }

  /** Waking somebody puts nobody to rest. */
  lemma AwakeWake(k: Kernel, idle: Tid, o: nat, t: Tid)
    requires KInv(k, idle) && Awake(k, t)
    ensures forall x :: x in Waiters(k, o) ==> x in k.threads
    ensures Awake(WakeFirst(k, o), t)
  {
    WakeFirstExact(k, idle, o);
  }

  /** A better priority, or the same one and an earlier arrival. */
  ghost predicate Before(threads: map<Tid, Thread>, arrived: map<Tid, nat>, a: Tid, b: Tid)
    requires a in threads && b in threads && a in arrived && b in arrived
  {
    threads[a].pri < threads[b].pri || (threads[a].pri == threads[b].pri && arrived[a] < arrived[b])
  }

  /** The list is ordered by priority, equal priorities by arrival; `clock` is later than every arrival. */
  ghost predicate Queued(threads: map<Tid, Thread>, w: seq<Tid>, arrived: map<Tid, nat>, clock: nat)
  {
    && (forall x :: x in w ==> x in threads && x in arrived && arrived[x] < clock)
    && forall i, j :: 0 <= i < j < |w| ==> Before(threads, arrived, w[i], w[j])
  }

  lemma QueuedGap(threads: map<Tid, Thread>, w: seq<Tid>, arrived: map<Tid, nat>, clock: nat, n: nat)
    requires Queued(threads, w, arrived, clock) && n < |w|
    ensures Queued(threads, w[..n] + w[n + 1..], arrived, clock)
  {
    var r := w[..n] + w[n + 1..];
    assert forall x :: x in r ==> x in w;
    forall i, j | 0 <= i < j < |r| ensures Before(threads, arrived, r[i], r[j]) {
      var i', j' := if i < n then i else i + 1, if j < n then j else j + 1;
      assert r[i] == w[i'] && r[j] == w[j'];
    }
  }

  lemma QueuedWithout(threads: map<Tid, Thread>, w: seq<Tid>, arrived: map<Tid, nat>, clock: nat, t: Tid)
    requires Queued(threads, w, arrived, clock)
    ensures Queued(threads, Without(w, t), arrived, clock)
  {
    if t in w {
      var n := FirstIndex(w, t);
      WithoutAt(w, t, n);
      QueuedGap(threads, w, arrived, clock, n);
    } else {
      WithoutAbsent(w, t);
    }
  }

  lemma QueuedSame(k: Kernel, k': Kernel, w: seq<Tid>, arrived: map<Tid, nat>, clock: nat)
    requires Queued(k.threads, w, arrived, clock) && SamePriorities(k, k')
    ensures Queued(k'.threads, w, arrived, clock)
  {
    forall i, j | 0 <= i < j < |w| ensures Before(k'.threads, arrived, w[i], w[j]) {
      assert w[i] in w && w[j] in w && Before(k.threads, arrived, w[i], w[j]);
    }
  }

  /** Threads that leave do not disturb the order of the others. */
  lemma QueuedSurvives(k: Kernel, k': Kernel, w: seq<Tid>, w': seq<Tid>, arrived: map<Tid, nat>, clock: nat)
    requires Queued(k.threads, w, arrived, clock) && OneLeft(w, w') && SamePriorities(k, k')
    ensures Queued(k'.threads, w', arrived, clock)
  {
    if t :| w' == Without(w, t) { QueuedWithout(k.threads, w, arrived, clock, t); }
    QueuedSame(k, k', w', arrived, clock);
  }

  /** Threads behind a worse one are worse than the newcomer too. */
  lemma WorseBehind(threads: map<Tid, Thread>, w: seq<Tid>, arrived: map<Tid, nat>, clock: nat, t: Tid, n: nat, j: nat)
    requires Queued(threads, w, arrived, clock) && t in threads && n <= j < |w|
    requires w[n] in threads && threads[t].pri < threads[w[n]].pri
    ensures w[j] in w && w[j] in threads && threads[t].pri < threads[w[j]].pri
  {
    assert w[j] in w && w[n] in w;
    if n < j { assert Before(threads, arrived, w[n], w[j]); }
  }

  lemma QueuedInsert(threads: map<Tid, Thread>, w: seq<Tid>, arrived: map<Tid, nat>, clock: nat, t: Tid, n: nat)
    requires Queued(threads, w, arrived, clock) && t in threads && t !in w && n <= |w|
    requires forall i :: 0 <= i < n ==> threads[w[i]].pri <= threads[t].pri
    requires n < |w| ==> threads[t].pri < threads[w[n]].pri
    ensures Queued(threads, w[..n] + [t] + w[n..], arrived[t := clock], clock + 1)
  {
    var r, later := w[..n] + [t] + w[n..], arrived[t := clock];
    assert forall x :: x in r ==> x in w || x == t;
    forall i, j | 0 <= i < j < |r| ensures Before(threads, later, r[i], r[j]) {
      var i', j' := if i < n then i else i - 1, if j < n then j else j - 1;
      assert (i != n ==> r[i] == w[i'] && r[i] in w) && (j != n ==> r[j] == w[j'] && r[j] in w);
      if i == n {
        WorseBehind(threads, w, arrived, clock, t, n, j');
      } else if j != n {
        assert Before(threads, arrived, w[i'], w[j']);
      }
    }
  }

  /** A newcomer by priority stands behind everybody of its priority. */
  lemma QueuedJoin(threads: map<Tid, Thread>, w: seq<Tid>, arrived: map<Tid, nat>, clock: nat, t: Tid)
    requires Queued(threads, w, arrived, clock) && t in threads && t !in w
    ensures Queued(threads, PrioInsert(threads, w, t), arrived[t := clock], clock + 1)
  {
    var n := PrioInsertSplits(threads, w, t);
    QueuedInsert(threads, w, arrived, clock, t, n);
  }
}
