/** What every kernel step keeps: each thread is on at most one list, none is lost, and the running one is runnable. */
module KernelInvariant {
  import opened Seqs
  import opened Kernel

  ghost predicate Belongs(k: Kernel, r: Ring, t: Tid)
  {
    t in k.threads && (r.ReadyRing? ==> r.pri == k.threads[t].pri)
  }

  /** Lists hold known threads once, no thread is on two lists, and a ready list holds only its own priority. */
  ghost predicate RingsOk(k: Kernel)
  {
    && (forall t :: t in k.threads ==> k.threads[t].pri < PRIORITY_MAX)
    && (forall r :: NoDup(On(k, r)))
    && (forall r, t :: t in On(k, r) ==> Belongs(k, r, t))
    && (forall r, q, t :: t in On(k, r) && t in On(k, q) ==> r == q)
  }

  ghost predicate Off(k: Kernel, t: Tid)
  {
    forall r :: t !in On(k, r)
  }

  ghost predicate OnReady(k: Kernel, t: Tid)
    requires t in k.threads
  {
    t in On(k, ReadyRing(k.threads[t].pri))
  }

  ghost predicate OnWait(k: Kernel, t: Tid)
  {
    exists o :: t in On(k, WaitRing(o))
  }

  /** A thread that is not running is ready and queued, suspended, or closed and on no list. */
  ghost predicate ResidentOk(k: Kernel, t: Tid)
    requires t in k.threads
  {
    var s := k.threads[t].stat;
    && !s.yielded && s.base in {Ready, Suspend, Close}
    && (s.base == Ready ==> OnReady(k, t))
    && (s.base == Close ==> Off(k, t))
  }

  /** The current thread is on no ready list. */
  ghost predicate CurrentOk(k: Kernel)
  {
    && k.current in k.threads && !OnReady(k, k.current)
    && k.threads[k.current].stat.base in {Running, Suspend, Close}
    && (k.threads[k.current].stat.base == Close ==> Off(k, k.current))
  }

  /** Waiting threads are suspended: the condition sk_thread_resume tests. */
  ghost predicate WaitersOk(k: Kernel)
  {
    forall o, t :: t in On(k, WaitRing(o)) ==> t in k.threads && k.threads[t].stat == SUSPEND
  }

  /** The idle thread has the lowest priority and never blocks. */
  ghost predicate IdleOk(k: Kernel, idle: Tid)
  {
    && idle in k.threads && k.threads[idle].pri == PRIORITY_MAX - 1
    && (if k.current == idle then k.threads[idle].stat.base == Running else OnReady(k, idle))
  }

  /** Holds even between the close and the switch of __thread_exit. */
  ghost predicate Core(k: Kernel, idle: Tid)
  {
    && RingsOk(k) && CurrentOk(k) && WaitersOk(k) && IdleOk(k, idle)
    && forall t :: t in k.threads && t != k.current ==> ResidentOk(k, t)
  }

  ghost predicate KInv(k: Kernel, idle: Tid)
  {
    Core(k, idle) && k.threads[k.current].stat.base != Close
  }

  /** Ready or running. */
  ghost predicate Awake(k: Kernel, t: Tid)
  {
    t in k.threads && k.threads[t].stat.base in {Ready, Running}
  }

  /** Awake threads are found by the scheduler. */
  lemma AwakeMeans(k: Kernel, idle: Tid, t: Tid)
    requires KInv(k, idle)
    ensures Awake(k, t) ==> (t == k.current && k.threads[t].stat.base == Running) || (t != k.current && OnReady(k, t))
  {
    if t in k.threads && t != k.current { assert ResidentOk(k, t); }
  }

  // ---- single list operations ----

  lemma DetachOn(k: Kernel, t: Tid, r: Ring)
    ensures On(Detach(k, t), r) == Without(On(k, r), t)
  {
  }

  lemma DetachRing(k: Kernel, t: Tid, r: Ring)
    requires RingsOk(k)
    ensures NoDup(On(Detach(k, t), r)) && forall x :: x in On(Detach(k, t), r) <==> x in On(k, r) && x != t
  {
    DetachOn(k, t, r);
    WithoutMembers(On(k, r), t);
  }

  lemma DetachKeeps(k: Kernel, t: Tid)
    requires RingsOk(k)
    ensures RingsOk(Detach(k, t)) && Off(Detach(k, t), t)
    ensures forall r, x :: x in On(Detach(k, t), r) <==> x in On(k, r) && x != t
  {
    var k' := Detach(k, t);
    forall r ensures NoDup(On(k', r)) { DetachRing(k, t, r); }
    forall r, x ensures x in On(k', r) <==> x in On(k, r) && x != t { DetachRing(k, t, r); }
    forall r, x | x in On(k', r) ensures Belongs(k', r, x) { assert Belongs(k, r, x); }
  }

  /** Linking a free node to the end, or anywhere inside, of one ring. */
  lemma LinkKeeps(k: Kernel, r: Ring, s: seq<Tid>, t: Tid)
    requires RingsOk(k) && Off(k, t) && Belongs(k, r, t) && NoDup(s)
    requires forall x :: x in s <==> x in On(k, r) || x == t
    ensures RingsOk(SetRing(k, r, s))
    ensures forall q, x :: x in On(SetRing(k, r, s), q) <==> x in On(k, q) || (q == r && x == t)
  {
    var k' := SetRing(k, r, s);
    assert forall q :: q != r ==> On(k', q) == On(k, q);
    forall q, x | x in On(k', q) ensures Belongs(k', q, x) { assert x != t ==> Belongs(k, q, x); }
  }

  /** Changing only states and slices. */
  lemma RingsSame(k: Kernel, k': Kernel)
    requires RingsOk(k) && k'.rings == k.rings && k'.threads.Keys == k.threads.Keys
    requires forall t :: t in k.threads ==> k'.threads[t].pri == k.threads[t].pri
    ensures RingsOk(k') && forall r :: On(k', r) == On(k, r)
  {
    assert forall r :: On(k', r) == On(k, r);
    forall r, x | x in On(k', r) ensures Belongs(k', r, x) { assert Belongs(k, r, x); }
  }

  /** sk_schedule_insert_thread of a thread on no list. */
  lemma InsertKeeps(k: Kernel, t: Tid)
    requires RingsOk(k) && t in k.threads && Off(k, t)
    ensures RingsOk(Insert(k, t)) && Insert(k, t).current == k.current && Insert(k, t).threads.Keys == k.threads.Keys
    ensures forall r, x :: x in On(Insert(k, t), r) <==>
              x in On(k, r) || (x == t && t != k.current && r == ReadyRing(k.threads[t].pri))
    ensures Insert(k, t).threads[t] == k.threads[t].(stat := if t == k.current then RUNNING else READY)
    ensures forall x :: x in k.threads && x != t ==> Insert(k, t).threads[x] == k.threads[x]
  {
    var r := ReadyRing(k.threads[t].pri);
    if t == k.current {
      RingsSame(k, SetStat(k, t, RUNNING));
    } else {
      var k1 := SetStat(k, t, READY);
      RingsSame(k, k1);
      LinkKeeps(k1, r, On(k1, r) + [t], t);
    }
  }
}
