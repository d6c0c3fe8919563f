/** Threads, ready lists and wait lists of thread/schedule.c, thread/thread.c and ipc/ipc_base.c.
    A ring is a list head with the threads linked behind it; every step is one section with interrupts off. */
module Kernel {
  import opened Options
  import opened Seqs

  const PRIORITY_MAX := 32

  /** SK_THREAD_INIT, READY, SUSPEND, RUNNING, CLOSE; SK_THREAD_YIELD is the flag beside it. */
  datatype Base = Init | Ready | Suspend | Running | Close

  datatype Stat = Stat(base: Base, yielded: bool)

  const READY := Stat(Ready, false)
  const SUSPEND := Stat(Suspend, false)
  const RUNNING := Stat(Running, false)
  const CLOSE := Stat(Close, false)

  datatype Thread = Thread(stat: Stat, pri: nat, initTick: nat, remainTick: nat)

  type Tid = nat

  /** List heads: one ready list per priority, and the suspend_thread lists of IPC objects. */
  datatype Ring = ReadyRing(pri: nat) | WaitRing(obj: nat)

  datatype Kernel = Kernel(threads: map<Tid, Thread>, rings: map<Ring, seq<Tid>>, current: Tid)

  function On(k: Kernel, r: Ring): (s: seq<Tid>)
  {
    if r in k.rings then k.rings[r] else []
  }

  function SetStat(k: Kernel, t: Tid, s: Stat): Kernel
    requires t in k.threads
  {
    k.(threads := k.threads[t := k.threads[t].(stat := s)])
  }

  function SetRing(k: Kernel, r: Ring, s: seq<Tid>): Kernel
  {
    k.(rings := k.rings[r := s])
  }

  /** sk_list_del on the thread's node: it leaves whatever ring it is on. */
  function Detach(k: Kernel, t: Tid): Kernel
  {
    k.(rings := map r | r in k.rings :: Without(k.rings[r], t))
  }

  /** sk_schedule_insert_thread */
  function Insert(k: Kernel, t: Tid): (k': Kernel)
    requires t in k.threads
  {
    if t == k.current then SetStat(k, t, RUNNING)
    else
      var r := ReadyRing(k.threads[t].pri);
      SetRing(SetStat(k, t, READY), r, On(k, r) + [t])
  }

  /** The lowest number of a non-empty ready list, from p on. */
  function HighestFrom(k: Kernel, p: nat): (r: Option<nat>)
    requires p <= PRIORITY_MAX
    ensures r.Some? ==> p <= r.value < PRIORITY_MAX && On(k, ReadyRing(r.value)) != []
    ensures r.Some? ==> forall q :: p <= q < r.value ==> On(k, ReadyRing(q)) == []
    ensures r.None? ==> forall q :: p <= q < PRIORITY_MAX ==> On(k, ReadyRing(q)) == []
    decreases PRIORITY_MAX - p
  {
    if p == PRIORITY_MAX then None
    else if On(k, ReadyRing(p)) != [] then Some(p)
    else HighestFrom(k, p + 1)
  }

  /** The first non-empty ready list is found. */
  lemma {:induction false} TopIs(k: Kernel, p: nat, from: nat)
    requires from <= p < PRIORITY_MAX && On(k, ReadyRing(p)) != []
    requires forall q: nat :: q < p ==> On(k, ReadyRing(q)) == []
    ensures HighestFrom(k, from) == Some(p)
    decreases p - from
  {
    if from < p { TopIs(k, p, from + 1); }
  }

  function Highest(k: Kernel): Option<nat>
  {
    HighestFrom(k, 0)
  }

  /** The thread sk_schedule decides to run. */
  function Next(k: Kernel): (t: Tid)
    requires k.current in k.threads
  {
    match Highest(k)
    case None => k.current
    case Some(p) =>
      if k.threads[k.current].stat == RUNNING && k.threads[k.current].pri <= p then k.current
      else On(k, ReadyRing(p))[0]
  }

  /** Leaving thread `from` for the ready thread `to`. */
  function SwitchTo(k: Kernel, to: Tid): (k': Kernel)
    requires k.current in k.threads && to in k.threads && to != k.current
  {
    var from := k.current;
    var k1 := k.(current := to);
    var k2 := if k.threads[from].stat != SUSPEND && k.threads[from].stat != CLOSE then Insert(k1, from) else k1;
    SetStat(Detach(k2, to), to, RUNNING)
  }

  /** sk_schedule */
  function Schedule(k: Kernel): (k': Kernel)
    requires k.current in k.threads && Next(k) in k.threads
  {
    if Next(k) == k.current then k else SwitchTo(k, Next(k))
  }

  /** sk_thread_suspend; an error leaves everything as it is. */
  function SuspendThread(k: Kernel, t: Tid): (k': Kernel)
    requires t in k.threads
  {
    if k.threads[t].stat.base in {Ready, Running} then SetStat(Detach(k, t), t, SUSPEND) else k
  }

  /** sk_thread_resume; an error leaves everything as it is. */
  function ResumeThread(k: Kernel, t: Tid): (k': Kernel)
    requires t in k.threads
  {
    if k.threads[t].stat == SUSPEND then Insert(Detach(k, t), t) else k
  }

  /** The list and state part of __thread_init. */
  function CreateThread(k: Kernel, t: Tid, pri: nat, tick: nat): (k': Kernel)
  {
    Insert(k.(threads := k.threads[t := Thread(Stat(Init, false), pri, tick, tick)]), t)
  }

  /** The list part of sk_thread_timeout, before its sk_schedule. */
  function WakeThread(k: Kernel, t: Tid): (k': Kernel)
    requires t in k.threads
  {
    Insert(Detach(k, t), t)
  }

  /** The list position __ipc_list_suspend finds with SK_IPC_FLAG_PRIO: before the first thread of lower priority. */
  function PrioInsert(threads: map<Tid, Thread>, w: seq<Tid>, t: Tid): (r: seq<Tid>)
    requires t in threads && forall x :: x in w ==> x in threads
  {
    if w == [] then [t]
    else if threads[t].pri < threads[w[0]].pri then [t] + w
    else [w[0]] + PrioInsert(threads, w[1..], t)
  }

  /** __ipc_list_suspend of the current thread. */
  function WaitOn(k: Kernel, obj: nat, prio: bool): (k': Kernel)
    requires k.current in k.threads && forall x :: x in On(k, WaitRing(obj)) ==> x in k.threads
  {
    var t, r := k.current, WaitRing(obj);
    var k1 := SuspendThread(k, t);
    assert forall x :: x in On(k1, r) ==> x in On(k, r) by { WithoutSubset(On(k, r), t); }
    SetRing(k1, r, if prio then PrioInsert(k1.threads, On(k1, r), t) else On(k1, r) + [t])
  }

  /** The slice part of sk_tick_increase, before its sk_schedule; the counter is a 64-bit word. */
  function CountTick(k: Kernel): (k': Kernel)
    requires k.current in k.threads
  {
    var th := k.threads[k.current];
    var n := if th.remainTick == 0 then 0xFFFF_FFFF_FFFF_FFFF else th.remainTick - 1;
    var th' := if n == 0 then th.(remainTick := th.initTick, stat := th.stat.(yielded := true))
               else th.(remainTick := n);
    k.(threads := k.threads[k.current := th'])
  }

  /** The running slice ends with the next tick. */
  predicate Expires(k: Kernel)
    requires k.current in k.threads
  {
    k.threads[k.current].remainTick == 1
  }
}
