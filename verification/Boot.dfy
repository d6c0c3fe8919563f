/** From sk_system_scheduler_init to sk_system_scheduler_start: threads are created before the first one runs. */
module Boot {
  import opened Options
  import opened Seqs
  import opened Kernel
  import opened KernelInvariant
  import opened KernelSteps

  /** sk_system_scheduler_init: empty lists, no thread; the current thread is SK_NULL, a number no thread has. */
  function Empty(nobody: Tid): (k: Kernel)
  {
    Kernel(map[], map[], nobody)
  }

  /** sk_system_scheduler_start */
  function StartFirst(k: Kernel): (k': Kernel)
    requires Highest(k).Some? && On(k, ReadyRing(Highest(k).value))[0] in k.threads
  {
    var t := On(k, ReadyRing(Highest(k).value))[0];
    SetStat(Detach(k.(current := t), t), t, RUNNING)
  }

  /** Before the start nobody waits and every thread is queued. */
  ghost predicate BootInv(k: Kernel)
  {
    && RingsOk(k) && k.current !in k.threads
    && (forall o :: On(k, WaitRing(o)) == [])
    && forall t :: t in k.threads ==> ResidentOk(k, t) && OnReady(k, t)
  }

  /** sk_thread_create and sk_thread_startup, which does not schedule before the start. */
  datatype BootStep = BootCreate(t: Tid, pri: nat, tick: nat) | BootMark(t: Tid)

  ghost predicate BootTakes(k: Kernel, s: BootStep, k': Kernel)
  {
    match s
    case BootCreate(t, pri, tick) =>
      t !in k.threads && t != k.current && pri < PRIORITY_MAX && k' == CreateThread(k, t, pri, tick)
    case BootMark(t) => t in k.threads && k' == SetStat(k, t, SUSPEND)
  }

  lemma EmptyBoots(nobody: Tid)
    ensures BootInv(Empty(nobody))
  {
  }

  lemma BootCreateKeeps(k: Kernel, t: Tid, pri: nat, tick: nat)
    requires BootInv(k) && t !in k.threads && t != k.current && pri < PRIORITY_MAX
    ensures BootInv(CreateThread(k, t, pri, tick))
  {
    var k' := CreateThread(k, t, pri, tick);
    CreateLists(k, t, pri, tick);
    forall x | x in k'.threads ensures ResidentOk(k', x) && OnReady(k', x) {
      if x != t { assert ResidentOk(k, x) && OnReady(k, x); }
    }
  }

  lemma BootMarkKeeps(k: Kernel, t: Tid)
    requires BootInv(k) && t in k.threads
    ensures BootInv(SetStat(k, t, SUSPEND))
  {
    var k' := SetStat(k, t, SUSPEND);
    RingsSame(k, k');
    forall x | x in k'.threads ensures ResidentOk(k', x) && OnReady(k', x) {
      assert ResidentOk(k, x) && OnReady(k, x);
    }
  }

  ghost predicate IsBoot(bs: seq<Kernel>, steps: seq<BootStep>, nobody: Tid)
  {
    && |bs| == |steps| + 1 && bs[0] == Empty(nobody)
    && forall i :: 0 <= i < |steps| ==> BootTakes(bs[i], steps[i], bs[i + 1])
  }

  /** Whatever is created before the start: every thread ends up queued by its priority. */
  lemma {:induction false} BootKeeps(bs: seq<Kernel>, steps: seq<BootStep>, nobody: Tid, n: nat)
    requires IsBoot(bs, steps, nobody) && n <= |steps|
    ensures BootInv(bs[n]) && bs[n].current == nobody
    decreases n
  {
    if n == 0 {
      EmptyBoots(nobody);
    } else {
      var i := n - 1;
      BootKeeps(bs, steps, nobody, i);
      assert BootTakes(bs[i], steps[i], bs[i + 1]);
      match steps[i]
      case BootCreate(t, pri, tick) => BootCreateKeeps(bs[i], t, pri, tick);
      case BootMark(t) => BootMarkKeeps(bs[i], t);
    }
  }

  /** sk_thread_idle_init has been called. */
  ghost predicate HasIdle(k: Kernel, idle: Tid)
  {
    idle in k.threads && k.threads[idle].pri == PRIORITY_MAX - 1
  }

  lemma FirstQueued(k: Kernel, idle: Tid)
    requires BootInv(k) && HasIdle(k, idle)
    ensures Highest(k).Some? && On(k, ReadyRing(Highest(k).value))[0] in k.threads
  {
    assert OnReady(k, idle);
    HighestIsLeast(k, idle);
    var r := ReadyRing(Highest(k).value);
    assert On(k, r)[0] in On(k, r) && Belongs(k, r, On(k, r)[0]);
  }

  lemma StartLists(k: Kernel, t: Tid)
    requires BootInv(k) && t in k.threads
    ensures var k' := SetStat(Detach(k.(current := t), t), t, RUNNING);
            && (forall x :: x in k.threads && x != t ==> OnReady(k', x)) && forall o :: On(k', WaitRing(o)) == []
  {
    var k1 := k.(current := t);
    var k' := SetStat(Detach(k1, t), t, RUNNING);
    forall x | x in k.threads && x != t ensures OnReady(k', x) {
      assert OnReady(k, x);
      DetachOn(k1, t, ReadyRing(k.threads[x].pri));
      WithoutSubset(On(k, ReadyRing(k.threads[x].pri)), t);
    }
    forall o ensures On(k', WaitRing(o)) == [] { DetachOn(k1, t, WaitRing(o)); }
  }

  /** With the idle thread created, the start runs the best queued thread and establishes the invariant. */
  lemma StartKeeps(k: Kernel, idle: Tid)
    requires BootInv(k) && HasIdle(k, idle)
    ensures Highest(k).Some? && On(k, ReadyRing(Highest(k).value))[0] in k.threads
    ensures KInv(StartFirst(k), idle) && StartFirst(k).threads[StartFirst(k).current].stat == RUNNING
    ensures StartFirst(k).threads.Keys == k.threads.Keys
    ensures forall t :: t in k.threads && t != StartFirst(k).current ==> OnReady(StartFirst(k), t)
    ensures forall o :: On(StartFirst(k), WaitRing(o)) == []
  {
    FirstQueued(k, idle);
    var t := On(k, ReadyRing(Highest(k).value))[0];
    var k1 := k.(current := t);
    assert forall q :: On(k1, q) == On(k, q);
    RingsSame(k, k1);
    forall x | x in k1.threads ensures ResidentOk(k1, x) && OnReady(k1, x) { assert ResidentOk(k, x) && OnReady(k, x); }
    ArriveKeeps(k1, idle);
    StartLists(k, t);
  }

  /** Exactly which thread starts: the first of the best priority. It leaves its list and runs; no other thread and no
      other list changes. */
  lemma StartExact(k: Kernel, idle: Tid)
    requires BootInv(k) && HasIdle(k, idle)
    ensures Highest(k).Some? && On(k, ReadyRing(Highest(k).value))[0] in k.threads
    ensures var k' := StartFirst(k); var t := k'.current;
            && t in k.threads && (forall x :: x in k.threads ==> k.threads[t].pri <= k.threads[x].pri)
            && On(k, ReadyRing(k.threads[t].pri)) != [] && On(k, ReadyRing(k.threads[t].pri))[0] == t
            && k'.threads == k.threads[t := k.threads[t].(stat := RUNNING)]
            && forall r :: On(k', r) == Without(On(k, r), t)
  {
    FirstQueued(k, idle);
    var t := On(k, ReadyRing(Highest(k).value))[0];
    assert t in On(k, ReadyRing(Highest(k).value)) && Belongs(k, ReadyRing(Highest(k).value), t);
    forall x | x in k.threads ensures k.threads[t].pri <= k.threads[x].pri {
      assert OnReady(k, x);
      HighestIsLeast(k, x);
    }
    forall r ensures On(StartFirst(k), r) == Without(On(k, r), t) { DetachOn(k.(current := t), t, r); }
  }

  lemma LoneThread(k: Kernel, idle: Tid)
    requires KInv(k, idle) && k.current == idle && k.threads.Keys == {idle} && forall o :: On(k, WaitRing(o)) == []
    ensures forall r :: On(k, r) == []
  {
    forall r ensures On(k, r) == [] {
      assert forall x :: x in On(k, r) ==> Belongs(k, r, x);
      NoMembers(On(k, r));
    }
  }

  /** The smallest system: the idle thread alone. */
  lemma IdleAlone(nobody: Tid, idle: Tid, tick: nat) returns (bs: seq<Kernel>, steps: seq<BootStep>)
    requires nobody != idle
    ensures IsBoot(bs, steps, nobody) && HasIdle(bs[|steps|], idle) && BootInv(bs[|steps|])
    ensures Highest(bs[|steps|]).Some?
    ensures On(bs[|steps|], ReadyRing(Highest(bs[|steps|]).value))[0] in bs[|steps|].threads
    ensures var k := StartFirst(bs[|steps|]);
            KInv(k, idle) && k.current == idle && k.threads.Keys == {idle} && forall r :: On(k, r) == []
  {
    var k0 := Empty(nobody);
    var k1 := CreateThread(k0, idle, PRIORITY_MAX - 1, tick);
    steps := [BootCreate(idle, PRIORITY_MAX - 1, tick), BootMark(idle)];
    bs := [k0, k1, SetStat(k1, idle, SUSPEND)];
    BootKeeps(bs, steps, nobody, 2);
    StartKeeps(bs[2], idle);
    LoneThread(StartFirst(bs[2]), idle);
  }

  lemma TwoCreated(nobody: Tid, idle: Tid, t: Tid, tick: nat) returns (bs: seq<Kernel>, steps: seq<BootStep>)
    requires nobody != idle && nobody != t && idle != t
    ensures IsBoot(bs, steps, nobody) && HasIdle(bs[|steps|], idle) && On(bs[|steps|], ReadyRing(0)) == [t]
    ensures bs[|steps|].threads.Keys == {t, idle} && bs[|steps|].threads[t] == Thread(READY, 0, tick, tick)
  {
    var k0 := Empty(nobody);
    var k1 := CreateThread(k0, t, 0, tick);
    var k2 := CreateThread(k1, idle, PRIORITY_MAX - 1, tick);
    steps := [BootCreate(t, 0, tick), BootCreate(idle, PRIORITY_MAX - 1, tick)];
    bs := [k0, k1, k2];
  }

  /** A thread of the best priority beside the idle thread: it runs first, with its whole slice. */
  lemma StartsWith(nobody: Tid, idle: Tid, t: Tid, tick: nat) returns (bs: seq<Kernel>, steps: seq<BootStep>)
    requires nobody != idle && nobody != t && idle != t
    ensures IsBoot(bs, steps, nobody) && HasIdle(bs[|steps|], idle) && BootInv(bs[|steps|])
    ensures Highest(bs[|steps|]).Some?
    ensures On(bs[|steps|], ReadyRing(Highest(bs[|steps|]).value))[0] in bs[|steps|].threads
    ensures var k := StartFirst(bs[|steps|]);
            && KInv(k, idle) && k.current == t && k.threads[t] == Thread(RUNNING, 0, tick, tick)
            && k.threads.Keys == {t, idle} && forall o :: On(k, WaitRing(o)) == []
  {
    bs, steps := TwoCreated(nobody, idle, t, tick);
    BootKeeps(bs, steps, nobody, |steps|);
    TopIs(bs[|steps|], 0, 0);
    StartKeeps(bs[|steps|], idle);
  }

  /** sk_thread_create and sk_thread_startup before the start. */
  function BootThread(k: Kernel, t: Tid, pri: nat, tick: nat): (k': Kernel)
  {
    SetStat(CreateThread(k, t, pri, tick), t, SUSPEND)
  }

  lemma BootThreadKeeps(k: Kernel, t: Tid, pri: nat, tick: nat)
    requires BootInv(k) && t !in k.threads && t != k.current && pri < PRIORITY_MAX
    ensures BootInv(BootThread(k, t, pri, tick))
  {
    BootCreateKeeps(k, t, pri, tick);
    CreateLists(k, t, pri, tick);
    BootMarkKeeps(CreateThread(k, t, pri, tick), t);
  }

  lemma MarkLists(k: Kernel, t: Tid)
    requires t in k.threads
    ensures var k' := SetStat(k, t, SUSPEND);
            && k'.threads.Keys == k.threads.Keys && k'.threads[t] == k.threads[t].(stat := SUSPEND)
            && (forall x :: x in k.threads && x != t ==> k'.threads[x] == k.threads[x]) && k'.current == k.current
            && forall r :: On(k', r) == On(k, r)
  {
  }

  /** It is queued last of its priority. */
  lemma BootThreadLists(k: Kernel, t: Tid, pri: nat, tick: nat)
    requires BootInv(k) && t !in k.threads && t != k.current && pri < PRIORITY_MAX
    ensures var k' := BootThread(k, t, pri, tick);
            && k'.threads.Keys == k.threads.Keys + {t} && k'.threads[t] == Thread(SUSPEND, pri, tick, tick)
            && (forall x :: x in k.threads ==> k'.threads[x] == k.threads[x]) && k'.current == k.current
            && On(k', ReadyRing(pri)) == On(k, ReadyRing(pri)) + [t]
            && (forall r :: r != ReadyRing(pri) ==> On(k', r) == On(k, r))
  {
    CreateLists(k, t, pri, tick);
    MarkLists(CreateThread(k, t, pri, tick), t);
  }

  /** Thread t is alone in the system. */
  ghost predicate Sole(k: Kernel, t: Tid, pri: nat, tick: nat)
  {
    && BootInv(k) && k.threads.Keys == {t} && k.threads[t] == Thread(SUSPEND, pri, tick, tick)
    && On(k, ReadyRing(pri)) == [t] && forall r :: r != ReadyRing(pri) ==> On(k, r) == []
  }

  /** Thread t is the only one of the best ready priority, and the idle thread is there. */
  ghost predicate Foremost(k: Kernel, t: Tid, pri: nat, tick: nat, idle: Tid)
  {
    && BootInv(k) && HasIdle(k, idle) && Highest(k) == Some(pri) && On(k, ReadyRing(pri)) == [t]
    && t in k.threads && k.threads[t] == Thread(SUSPEND, pri, tick, tick)
  }

  /** The first thread of an empty system. */
  lemma BootFirst(k: Kernel, t: Tid, pri: nat, tick: nat)
    requires BootInv(k) && k.threads == map[] && k.current != t && pri < PRIORITY_MAX
    ensures Sole(BootThread(k, t, pri, tick), t, pri, tick)
  {
    forall r ensures On(k, r) == [] {
      assert forall x :: x in On(k, r) ==> Belongs(k, r, x);
      NoMembers(On(k, r));
    }
    BootThreadKeeps(k, t, pri, tick);
    BootThreadLists(k, t, pri, tick);
  }

  /** The idle thread beside another one. */
  lemma BootIdle(k: Kernel, t: Tid, pri: nat, tick: nat, idle: Tid, idleTick: nat)
    requires Sole(k, t, pri, tick) && idle != t && k.current != idle && pri < PRIORITY_MAX - 1
    ensures Foremost(BootThread(k, idle, PRIORITY_MAX - 1, idleTick), t, pri, tick, idle)
  {
    BootThreadKeeps(k, idle, PRIORITY_MAX - 1, idleTick);
    BootThreadLists(k, idle, PRIORITY_MAX - 1, idleTick);
    TopIs(BootThread(k, idle, PRIORITY_MAX - 1, idleTick), pri, 0);
  }

  /** The application starts. */
  lemma AppStarts(k: Kernel, app: Tid, pri: nat, tick: nat, idle: Tid)
    requires Foremost(k, app, pri, tick, idle) && app != idle
    ensures var k' := StartFirst(k);
            && k'.current == app && k'.threads[app] == Thread(RUNNING, pri, tick, tick)
            && idle in k'.threads && OnReady(k', idle)
  {
    StartKeeps(k, idle);
  }
}
