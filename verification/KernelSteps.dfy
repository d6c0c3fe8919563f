/** Each step of the kernel keeps the invariant. */
module KernelSteps {
  import opened Options
  import opened Seqs
  import opened Kernel
  import opened KernelInvariant

  /** Thread t left whatever list it was on; the current thread goes on running, any other is ready and last on the list
      of its priority. Nothing else changed. */
  ghost predicate Woke(k: Kernel, t: Tid, k': Kernel)
    requires t in k.threads
  {
    && k'.current == k.current
    && k'.threads == k.threads[t := k.threads[t].(stat := if t == k.current then RUNNING else READY)]
    && forall r :: On(k', r) == Without(On(k, r), t) +
                     if t != k.current && r == ReadyRing(k.threads[t].pri) then [t] else []
  }

  lemma WakeExact(k: Kernel, t: Tid)
    requires t in k.threads
    ensures Woke(k, t, WakeThread(k, t))
  {
    forall r ensures On(WakeThread(k, t), r) == Without(On(k, r), t) +
                       if t != k.current && r == ReadyRing(k.threads[t].pri) then [t] else []
    {
      DetachOn(k, t, r);
    }
  }

  /** sk_thread_resume and sk_thread_timeout put a thread back, from whatever list it is on. */
  lemma WakeKeeps(k: Kernel, idle: Tid, t: Tid)
    requires KInv(k, idle) && t in k.threads && k.threads[t].stat.base != Close
    ensures KInv(WakeThread(k, t), idle)
    ensures forall r, x :: x in On(WakeThread(k, t), r) <==>
              (x in On(k, r) && x != t) || (x == t && t != k.current && r == ReadyRing(k.threads[t].pri))
  {
    var k1 := Detach(k, t);
    var k2 := Insert(k1, t);
    DetachKeeps(k, t);
    InsertKeeps(k1, t);
    forall x | x in k2.threads && x != k2.current ensures ResidentOk(k2, x) {
      if x != t { assert ResidentOk(k, x); }
    }
  }

  /** sk_thread_resume wakes a suspended thread and changes nothing for any other. */
  lemma ResumeKeeps(k: Kernel, idle: Tid, t: Tid)
    requires KInv(k, idle) && t in k.threads
    ensures KInv(ResumeThread(k, t), idle)
    ensures if k.threads[t].stat == SUSPEND then Woke(k, t, ResumeThread(k, t)) else ResumeThread(k, t) == k
  {
    if k.threads[t].stat == SUSPEND {
      WakeKeeps(k, idle, t);
      WakeExact(k, t);
    }
  }

  /** Thread t left whatever list it was on and has the new state; nothing else changed. */
  ghost predicate TakenOff(k: Kernel, t: Tid, s: Stat, k': Kernel)
    requires t in k.threads
  {
    && k'.current == k.current && k'.threads == k.threads[t := k.threads[t].(stat := s)]
    && forall r :: On(k', r) == Without(On(k, r), t)
  }

  /** sk_thread_suspend takes a ready or running thread off its list and changes nothing for any other. */
  lemma SuspendExact(k: Kernel, t: Tid)
    requires t in k.threads
    ensures if k.threads[t].stat.base in {Ready, Running} then TakenOff(k, t, SUSPEND, SuspendThread(k, t))
            else SuspendThread(k, t) == k
  {
    if k.threads[t].stat.base in {Ready, Running} {
      forall r ensures On(SuspendThread(k, t), r) == Without(On(k, r), t) { DetachOn(k, t, r); }
    }
  }

  lemma SuspendKeeps(k: Kernel, idle: Tid, t: Tid)
    requires KInv(k, idle) && t in k.threads && t != idle
    ensures KInv(SuspendThread(k, t), idle)
    ensures SuspendThread(k, t).current == k.current
    ensures k.threads[t].stat.base in {Ready, Running} ==>
              SuspendThread(k, t).threads == k.threads[t := k.threads[t].(stat := SUSPEND)]
              && forall r, x :: x in On(SuspendThread(k, t), r) <==> x in On(k, r) && x != t
  {
    if k.threads[t].stat.base in {Ready, Running} {
      var k1 := Detach(k, t);
      var k2 := SetStat(k1, t, SUSPEND);
      DetachKeeps(k, t);
      RingsSame(k1, k2);
      forall x | x in k2.threads && x != k2.current ensures ResidentOk(k2, x) {
        if x != t { assert ResidentOk(k, x); }
      }
    }
  }

  /** A new thread joins the end of its ready list, and nothing else moves. */
  lemma CreateLists(k: Kernel, t: Tid, pri: nat, tick: nat)
    requires RingsOk(k) && t !in k.threads && t != k.current && pri < PRIORITY_MAX
    ensures var k' := CreateThread(k, t, pri, tick);
            && RingsOk(k') && k'.current == k.current
            && k'.threads == k.threads[t := Thread(READY, pri, tick, tick)]
            && On(k', ReadyRing(pri)) == On(k, ReadyRing(pri)) + [t]
            && forall r :: r != ReadyRing(pri) ==> On(k', r) == On(k, r)
  {
    var k1 := k.(threads := k.threads[t := Thread(Stat(Init, false), pri, tick, tick)]);
    assert forall r :: On(k1, r) == On(k, r);
    forall r ensures t !in On(k, r) { assert t in On(k, r) ==> Belongs(k, r, t); }
    forall r, x | x in On(k1, r) ensures Belongs(k1, r, x) { assert Belongs(k, r, x); }
    InsertKeeps(k1, t);
  }

  lemma CreateKeeps(k: Kernel, idle: Tid, t: Tid, pri: nat, tick: nat)
    requires KInv(k, idle) && t !in k.threads && pri < PRIORITY_MAX
    ensures KInv(CreateThread(k, t, pri, tick), idle)
    ensures On(CreateThread(k, t, pri, tick), ReadyRing(pri)) == On(k, ReadyRing(pri)) + [t]
    ensures forall r :: r != ReadyRing(pri) ==> On(CreateThread(k, t, pri, tick), r) == On(k, r)
  {
    var k2 := CreateThread(k, t, pri, tick);
    CreateLists(k, t, pri, tick);
    forall x | x in k2.threads && x != k2.current ensures ResidentOk(k2, x) {
      if x != t { assert ResidentOk(k, x); }
    }
  }

  /** sk_thread_startup marks a thread SUSPEND wherever it is. */
  lemma StartupMarkKeeps(k: Kernel, idle: Tid, t: Tid)
    requires KInv(k, idle) && t in k.threads && k.threads[t].stat.base != Close && !(t == idle == k.current)
    ensures KInv(SetStat(k, t, SUSPEND), idle)
  {
    var k1 := SetStat(k, t, SUSPEND);
    RingsSame(k, k1);
    forall x | x in k1.threads && x != k1.current ensures ResidentOk(k1, x) {
      if x != t { assert ResidentOk(k, x); }
    }
  }

  /** __thread_exit up to its sk_schedule. */
  function CloseCurrent(k: Kernel): (k': Kernel)
    requires k.current in k.threads
  {
    SetStat(Detach(k, k.current), k.current, CLOSE)
  }

  lemma CloseKeeps(k: Kernel, idle: Tid)
    requires KInv(k, idle) && k.current != idle
    ensures Core(CloseCurrent(k), idle) && TakenOff(k, k.current, CLOSE, CloseCurrent(k))
  {
    forall r ensures On(CloseCurrent(k), r) == Without(On(k, r), k.current) { DetachOn(k, k.current, r); }
    var k1 := Detach(k, k.current);
    var k2 := CloseCurrent(k);
    DetachKeeps(k, k.current);
    RingsSame(k1, k2);
    forall x | x in k2.threads && x != k2.current ensures ResidentOk(k2, x) { assert ResidentOk(k, x); }
  }

  // ---- sk_schedule ----

  /** The chosen thread is the current one or the first on the list of the best ready priority. */
  lemma NextKnown(k: Kernel, idle: Tid)
    requires Core(k, idle)
    ensures Next(k) in k.threads
    ensures Next(k) != k.current ==>
              && OnReady(k, Next(k)) && Highest(k) == Some(k.threads[Next(k)].pri)
              && On(k, ReadyRing(k.threads[Next(k)].pri))[0] == Next(k)
    ensures Next(k) == k.current && Highest(k).Some? ==>
              k.threads[k.current].stat == RUNNING && k.threads[k.current].pri <= Highest(k).value
    ensures k.threads[k.current].stat.base != Running ==> Next(k) != k.current
  {
    if Highest(k).Some? {
      var r := ReadyRing(Highest(k).value);
      assert On(k, r)[0] in On(k, r);
      assert Belongs(k, r, On(k, r)[0]);
    } else {
      assert k.current == idle;
    }
  }

  /** sk_schedule leaves the current thread exactly when another one is ready and it does not plainly run, suspended,
      closed or at the end of its slice, or some ready thread has a strictly better priority. */
  lemma LeavesIff(k: Kernel, idle: Tid)
    requires Core(k, idle)
    ensures Next(k) != k.current <==>
              exists t :: && t in k.threads && OnReady(k, t)
                          && (k.threads[k.current].stat == RUNNING ==> k.threads[t].pri < k.threads[k.current].pri)
  {
    NextKnown(k, idle);
    if t :| && t in k.threads && OnReady(k, t)
            && (k.threads[k.current].stat == RUNNING ==> k.threads[t].pri < k.threads[k.current].pri)
    {
      assert t in On(k, ReadyRing(k.threads[t].pri));
    }
  }

  /** A running thread keeps the processor, and everything stays as it is, as long as no ready thread is strictly
      better. */
  lemma ScheduleStays(k: Kernel, idle: Tid)
    requires Core(k, idle) && k.threads[k.current].stat == RUNNING
    requires forall t :: t in k.threads && OnReady(k, t) ==> k.threads[k.current].pri <= k.threads[t].pri
    ensures Next(k) in k.threads && Schedule(k) == k
  {
    LeavesIff(k, idle);
    NextKnown(k, idle);
  }

  /** A current thread that is on no wait list is on no list at all. */
  lemma CurrentOff(k: Kernel, idle: Tid)
    requires Core(k, idle) && !OnWait(k, k.current)
    ensures Off(k, k.current)
  {
    forall r ensures k.current !in On(k, r) {
      assert k.current in On(k, r) ==> Belongs(k, r, k.current);
    }
  }

  /** sk_schedule queues the thread it leaves. */
  ghost predicate StaysRunnable(k: Kernel)
    requires k.current in k.threads
  {
    k.threads[k.current].stat != SUSPEND && k.threads[k.current].stat != CLOSE
  }

  /** The state after the leaving thread was queued, if it stays runnable. */
  lemma LeaveKeeps(k: Kernel, idle: Tid, to: Tid) returns (k2: Kernel)
    requires Core(k, idle) && to in k.threads && to != k.current && OnReady(k, to)
    requires StaysRunnable(k) ==> k.threads[k.current].stat.base != Close && !OnWait(k, k.current)
    ensures var s, k1 := k.threads[k.current].stat, k.(current := to);
            k2 == if s != SUSPEND && s != CLOSE then Insert(k1, k.current) else k1
    ensures k2.current == to && k2.threads.Keys == k.threads.Keys && RingsOk(k2)
    ensures forall x :: x in k.threads && x != k.current ==> k2.threads[x] == k.threads[x]
    ensures forall r, x :: x in On(k, r) ==> x in On(k2, r)
    ensures forall r, x :: x in On(k2, r) ==> x in On(k, r) || (x == k.current && r == ReadyRing(k.threads[x].pri))
    ensures var s := k.threads[k.current].stat;
            if s != SUSPEND && s != CLOSE then OnReady(k2, k.current) else forall r :: On(k2, r) == On(k, r)
    ensures ResidentOk(k2, k.current)
  {
    var k1 := k.(current := to);
    assert forall r :: On(k1, r) == On(k, r);
    RingsSame(k, k1);
    var s := k.threads[k.current].stat;
    if s != SUSPEND && s != CLOSE {
      CurrentOff(k, idle);
      InsertKeeps(k1, k.current);
      k2 := Insert(k1, k.current);
    } else {
      k2 := k1;
    }
  }

  /** Taking the chosen thread off its ready list. */
  lemma ArriveKeeps(k: Kernel, idle: Tid)
    requires RingsOk(k) && WaitersOk(k) && k.current in k.threads && OnReady(k, k.current)
    requires idle in k.threads && k.threads[idle].pri == PRIORITY_MAX - 1 && OnReady(k, idle)
    requires forall t :: t in k.threads && t != k.current ==> ResidentOk(k, t)
    ensures KInv(SetStat(Detach(k, k.current), k.current, RUNNING), idle)
  {
    var k3 := Detach(k, k.current);
    var k4 := SetStat(k3, k.current, RUNNING);
    DetachKeeps(k, k.current);
    RingsSame(k3, k4);
    forall x | x in k4.threads && x != k4.current ensures ResidentOk(k4, x) { assert ResidentOk(k, x); }
  }

  /** Thread `to` left its list and runs. The thread that ran before is ready and last on the list of its priority,
      unless it is suspended or closed. Nothing else changed. */
  ghost predicate Switched(k: Kernel, to: Tid, k': Kernel)
    requires k.current in k.threads && to in k.threads
  {
    var from, queued := k.current, k.threads[k.current].stat !in {SUSPEND, CLOSE};
    && k'.current == to && k'.threads.Keys == k.threads.Keys
    && k'.threads[to] == k.threads[to].(stat := RUNNING)
    && k'.threads[from] == (if queued then k.threads[from].(stat := READY) else k.threads[from])
    && (forall x :: x in k.threads && x != from && x != to ==> k'.threads[x] == k.threads[x])
    && forall r :: On(k', r) == Without(On(k, r), to) +
                     if queued && r == ReadyRing(k.threads[from].pri) then [from] else []
  }

  lemma SwitchExact(k: Kernel, to: Tid)
    requires k.current in k.threads && to in k.threads && to != k.current
    ensures Switched(k, to, SwitchTo(k, to))
  {
    var from, k1 := k.current, k.(current := to);
    var queued := k.threads[from].stat != SUSPEND && k.threads[from].stat != CLOSE;
    var k2 := if queued then Insert(k1, from) else k1;
    forall r ensures On(SwitchTo(k, to), r) == Without(On(k, r), to) +
                       if queued && r == ReadyRing(k.threads[from].pri) then [from] else []
    {
      DetachOn(k2, to, r);
      if queued && r == ReadyRing(k.threads[from].pri) { WithoutAppend(On(k, r), from, to); }
    }
  }

  lemma SwitchLists(k: Kernel, idle: Tid, to: Tid)
    requires Core(k, idle) && to in k.threads && to != k.current && OnReady(k, to)
    requires StaysRunnable(k) ==> k.threads[k.current].stat.base != Close && !OnWait(k, k.current)
    ensures forall r, x :: x in On(SwitchTo(k, to), r) <==>
              x != to && (x in On(k, r) || (x == k.current && r == ReadyRing(k.threads[x].pri) && StaysRunnable(k)))
  {
    SwitchExact(k, to);
    forall r ensures forall x :: x in Without(On(k, r), to) <==> x in On(k, r) && x != to {
      WithoutMembers(On(k, r), to);
    }
  }

  lemma SwitchInv(k: Kernel, idle: Tid, to: Tid)
    requires Core(k, idle) && to in k.threads && to != k.current && OnReady(k, to)
    requires StaysRunnable(k) ==> k.threads[k.current].stat.base != Close && !OnWait(k, k.current)
    ensures KInv(SwitchTo(k, to), idle) && SwitchTo(k, to).threads[to].stat == RUNNING
  {
    var k2 := LeaveKeeps(k, idle, to);
    forall x | x in k2.threads && x != k2.current ensures ResidentOk(k2, x) {
      if x != k.current { assert ResidentOk(k, x); }
    }
    ArriveKeeps(k2, idle);
  }

  /** The switch takes the chosen thread off its list and queues the leaving one unless it is suspended or closed. */
  lemma SwitchKeeps(k: Kernel, idle: Tid, to: Tid)
    requires Core(k, idle) && to in k.threads && to != k.current && OnReady(k, to)
    requires StaysRunnable(k) ==> k.threads[k.current].stat.base != Close && !OnWait(k, k.current)
    ensures KInv(SwitchTo(k, to), idle) && SwitchTo(k, to).current == to
    ensures SwitchTo(k, to).threads[to].stat == RUNNING
    ensures forall r, x :: x in On(SwitchTo(k, to), r) <==>
              x != to && (x in On(k, r) || (x == k.current && r == ReadyRing(k.threads[x].pri) && StaysRunnable(k)))
  {
    SwitchLists(k, idle, to);
    SwitchInv(k, idle, to);
  }

  /** sk_schedule keeps the invariant and always leaves a running thread as current. */
  lemma ScheduleKeeps(k: Kernel, idle: Tid)
    requires Core(k, idle)
    requires StaysRunnable(k) ==> k.threads[k.current].stat.base != Close && !OnWait(k, k.current)
    ensures Next(k) in k.threads && KInv(Schedule(k), idle)
    ensures Schedule(k).threads[Schedule(k).current].stat.base == Running
    ensures Schedule(k).threads.Keys == k.threads.Keys
  {
    NextKnown(k, idle);
    if Next(k) != k.current { SwitchKeeps(k, idle, Next(k)); }
  }

  lemma KInvSchedulable(k: Kernel, idle: Tid)
    requires KInv(k, idle)
    ensures var s := k.threads[k.current].stat; s != SUSPEND ==> !OnWait(k, k.current)
  {
  }

  // ---- priorities ----

  /** No ready thread has a strictly higher priority (a lower number) than the current one. */
  ghost predicate Optimal(k: Kernel)
    requires k.current in k.threads
  {
    forall t :: t in k.threads && OnReady(k, t) ==> k.threads[k.current].pri <= k.threads[t].pri
  }

  lemma HighestIsLeast(k: Kernel, t: Tid)
    requires RingsOk(k) && t in k.threads && OnReady(k, t)
    ensures Highest(k).Some? && Highest(k).value <= k.threads[t].pri
  {
  }

  /** Who is ready after a switch: the chosen thread left its list, the leaving one queued up unless suspended or
      closed. */
  lemma SwitchReady(k: Kernel, idle: Tid, to: Tid, x: Tid)
    requires KInv(k, idle) && to in k.threads && to != k.current && OnReady(k, to) && x in k.threads
    ensures x in SwitchTo(k, to).threads && SwitchTo(k, to).threads[x].pri == k.threads[x].pri
    ensures OnReady(SwitchTo(k, to), x) <==>
            x != to && (OnReady(k, x) || (x == k.current && k.threads[x].stat != SUSPEND))
  {
    KInvSchedulable(k, idle);
    SwitchExact(k, to);
    SwitchLists(k, idle, to);
  }

  /** sk_schedule leaves a current thread of the best priority, except when a thread whose slice expired
      yields to a strictly lower priority. */
  lemma ScheduleOptimalIff(k: Kernel, idle: Tid)
    requires KInv(k, idle)
    ensures Next(k) in k.threads && Schedule(k).current in Schedule(k).threads
    ensures Optimal(Schedule(k)) <==>
              !(k.threads[k.current].stat.yielded && Highest(k).Some? && k.threads[k.current].pri < Highest(k).value)
  {
    NextKnown(k, idle);
    var to, k', th := Next(k), Schedule(k), k.threads[k.current];
    forall x | x in k.threads && OnReady(k, x) ensures Highest(k).Some? && Highest(k).value <= k.threads[x].pri {
      HighestIsLeast(k, x);
    }
    if to != k.current {
      KInvSchedulable(k, idle);
      SwitchKeeps(k, idle, to);
      SwitchReady(k, idle, to, k.current);
      if th.stat.yielded && th.pri < Highest(k).value {
        assert OnReady(k', k.current);
      } else {
        forall x | x in k'.threads && OnReady(k', x) ensures k'.threads[to].pri <= k'.threads[x].pri {
          SwitchReady(k, idle, to, x);
        }
      }
    }
  }

  // ---- waiting ----

  ghost predicate SortedByPri(threads: map<Tid, Thread>, w: seq<Tid>)
  {
    && (forall x :: x in w ==> x in threads)
    && forall i, j :: 0 <= i < j < |w| ==> threads[w[i]].pri <= threads[w[j]].pri
  }

  lemma ConsSplit(w: seq<Tid>, n: nat, t: Tid)
    requires n + 1 <= |w|
    ensures [w[0]] + (w[1..][..n] + [t] + w[1..][n..]) == w[..n + 1] + [t] + w[n + 1..]
  {
  }

  /** The prio search splits the list: behind everybody of the same or a better priority, before the first worse one. */
  lemma {:induction false} PrioInsertSplits(threads: map<Tid, Thread>, w: seq<Tid>, t: Tid) returns (n: nat)
    requires t in threads && forall x :: x in w ==> x in threads
    ensures n <= |w| && PrioInsert(threads, w, t) == w[..n] + [t] + w[n..]
    ensures forall i :: 0 <= i < n ==> threads[w[i]].pri <= threads[t].pri
    ensures n < |w| ==> threads[t].pri < threads[w[n]].pri
    decreases |w|
  {
    if w == [] {
      n := 0;
    } else if threads[t].pri < threads[w[0]].pri {
      n := 0;
    } else {
      var w' := w[1..];
      assert w == [w[0]] + w';
      n := PrioInsertSplits(threads, w', t);
      ConsSplit(w, n, t);
      n := n + 1;
    }
  }

  lemma InsertedMembers(w: seq<Tid>, n: nat, t: Tid)
    requires n <= |w| && NoDup(w) && t !in w
    ensures var r := w[..n] + [t] + w[n..]; NoDup(r) && forall x :: x in r <==> x in w || x == t
  {
    var r := w[..n] + [t] + w[n..];
    assert w == w[..n] + w[n..];
    assert forall i :: 0 <= i < |r| ==> r[i] == (if i < n then w[i] else if i == n then t else w[i - 1]);
  }

  lemma PrioInsertKeepsSorted(threads: map<Tid, Thread>, w: seq<Tid>, t: Tid)
    requires t in threads && SortedByPri(threads, w)
    ensures SortedByPri(threads, PrioInsert(threads, w, t))
  {
    var n := PrioInsertSplits(threads, w, t);
    var r := w[..n] + [t] + w[n..];
    assert forall i :: 0 <= i < |r| ==> r[i] == (if i < n then w[i] else if i == n then t else w[i - 1]);
  }

  /** Suspending the running thread touches no list. */
  lemma SuspendCurrent(k: Kernel, idle: Tid)
    requires KInv(k, idle) && k.current != idle && k.threads[k.current].stat.base == Running
    ensures var k1 := SuspendThread(k, k.current);
            && KInv(k1, idle) && k1.current == k.current && Off(k1, k.current)
            && k1.threads == k.threads[k.current := k.threads[k.current].(stat := SUSPEND)]
            && forall r :: On(k1, r) == On(k, r)
  {
    var k1 := SuspendThread(k, k.current);
    CurrentOff(k, idle);
    SuspendKeeps(k, idle, k.current);
    forall q ensures On(k1, q) == On(k, q) { DetachOn(k, k.current, q); WithoutAbsent(On(k, q), k.current); }
  }

  /** The list after the current thread joined it. */
  ghost function Joined(k: Kernel, o: nat, prio: bool): (s: seq<Tid>)
    requires k.current in k.threads && forall x :: x in On(k, WaitRing(o)) ==> x in k.threads
  {
    var w := On(k, WaitRing(o));
    if prio then PrioInsert(k.threads, w, k.current) else w + [k.current]
  }

  lemma WaitersKnown(k: Kernel, o: nat)
    requires RingsOk(k)
    ensures forall x :: x in On(k, WaitRing(o)) ==> x in k.threads
  {
    forall x | x in On(k, WaitRing(o)) ensures x in k.threads { assert Belongs(k, WaitRing(o), x); }
  }

  lemma {:induction false} PrioInsertStat(a: map<Tid, Thread>, b: map<Tid, Thread>, w: seq<Tid>, t: Tid)
    requires t in a && t in b && forall x :: x in w ==> x in a && x in b && a[x].pri == b[x].pri
    requires a[t].pri == b[t].pri
    ensures PrioInsert(a, w, t) == PrioInsert(b, w, t)
    decreases |w|
  {
    if w != [] {
      assert w == [w[0]] + w[1..];
      PrioInsertStat(a, b, w[1..], t);
    }
  }

  lemma WaitOnIs(k: Kernel, idle: Tid, o: nat, prio: bool)
    requires KInv(k, idle) && k.current != idle && k.threads[k.current].stat.base == Running
    ensures forall x :: x in On(k, WaitRing(o)) ==> x in k.threads
    ensures WaitOn(k, o, prio) == SetRing(SuspendThread(k, k.current), WaitRing(o), Joined(k, o, prio))
  {
    WaitersKnown(k, o);
    SuspendCurrent(k, idle);
    PrioInsertStat(k.threads, SuspendThread(k, k.current).threads, On(k, WaitRing(o)), k.current);
  }

  lemma JoinedSplits(k: Kernel, o: nat, prio: bool) returns (n: nat)
    requires k.current in k.threads && forall x :: x in On(k, WaitRing(o)) ==> x in k.threads
    ensures var w := On(k, WaitRing(o)); n <= |w| && Joined(k, o, prio) == w[..n] + [k.current] + w[n..]
  {
    var w := On(k, WaitRing(o));
    n := |w|;
    if prio {
      n := PrioInsertSplits(k.threads, w, k.current);
    } else {
      assert w[..n] + [k.current] + w[n..] == w + [k.current];
    }
  }

  /** Linking the suspended current thread into a wait list keeps the invariant. */
  lemma WaitLink(k: Kernel, idle: Tid, r: Ring, n: nat)
    requires KInv(k, idle) && r.WaitRing? && n <= |On(k, r)| && Off(k, k.current)
    requires k.threads[k.current].stat == SUSPEND
    ensures KInv(SetRing(k, r, On(k, r)[..n] + [k.current] + On(k, r)[n..]), idle)
  {
    var s := On(k, r)[..n] + [k.current] + On(k, r)[n..];
    InsertedMembers(On(k, r), n, k.current);
    LinkKeeps(k, r, s, k.current);
    var k' := SetRing(k, r, s);
    forall x | x in k'.threads && x != k'.current ensures ResidentOk(k', x) { assert ResidentOk(k, x); }
  }

  /** __ipc_list_suspend: the list a thread joins, and that nothing else moves. */
  lemma WaitOnKeeps(k: Kernel, idle: Tid, o: nat, prio: bool)
    requires KInv(k, idle) && k.current != idle && k.threads[k.current].stat.base == Running
    ensures forall x :: x in On(k, WaitRing(o)) ==> x in k.threads
    ensures var k' := WaitOn(k, o, prio);
            && KInv(k', idle) && k'.current == k.current
            && k'.threads == k.threads[k.current := k.threads[k.current].(stat := SUSPEND)]
            && On(k', WaitRing(o)) == Joined(k, o, prio)
            && forall r :: r != WaitRing(o) ==> On(k', r) == On(k, r)
  {
    WaitOnIs(k, idle, o, prio);
    SuspendCurrent(k, idle);
    var n := JoinedSplits(k, o, prio);
    WaitLink(SuspendThread(k, k.current), idle, WaitRing(o), n);
  }
}
