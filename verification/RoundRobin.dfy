/** Time slices (init/sys_tick.c, sk_tick_increase): weighted round robin among the threads of the top priority. */
module RoundRobin {
  import opened Seqs
  import opened Kernel
  import opened KernelInvariant

  /** sk_tick_increase without the timers: count, and reschedule when the slice is used up. */
  function TickStep(k: Kernel): (k': Kernel)
  {
    if k.current !in k.threads then k
    else
      var k1 := CountTick(k);
      if Expires(k) && Next(k1) in k1.threads then Schedule(k1) else k1
  }

  function Ticks(k: Kernel, n: nat): (k': Kernel)
    decreases n
  {
    if n == 0 then k else Ticks(TickStep(k), n - 1)
  }

  /** The number of the next n ticks that find thread t running. */
  function Charged(k: Kernel, n: nat, t: Tid): (c: nat)
    decreases n
  {
    if n == 0 then 0 else (if k.current == t then 1 else 0) + Charged(TickStep(k), n - 1, t)
  }

  lemma {:induction false} TicksAdd(k: Kernel, a: nat, b: nat, t: Tid)
    ensures Ticks(k, a + b) == Ticks(Ticks(k, a), b)
    ensures Charged(k, a + b, t) == Charged(k, a, t) + Charged(Ticks(k, a), b, t)
    decreases a
  {
    if a > 0 { TicksAdd(TickStep(k), a - 1, b, t); }
  }

  ghost predicate FullSlice(k: Kernel, p: nat, x: Tid)
  {
    x in k.threads && k.threads[x].pri == p && k.threads[x].remainTick == k.threads[x].initTick > 0
  }

  /** `order` lists the threads of the top priority p: the running one, then the ready list; all slices are full. */
  ghost predicate Turn(k: Kernel, p: nat, order: seq<Tid>)
  {
    && p < PRIORITY_MAX && |order| >= 2 && NoDup(order)
    && k.current == order[0] && On(k, ReadyRing(p)) == order[1..]
    && (forall q: nat :: q < p ==> On(k, ReadyRing(q)) == [])
    && (forall x :: x in order ==> FullSlice(k, p, x))
    && k.current in k.threads && k.threads[k.current].stat == RUNNING
  }

  ghost function WithRemain(k: Kernel, m: nat): Kernel
    requires k.current in k.threads
  {
    k.(threads := k.threads[k.current := k.threads[k.current].(remainTick := m)])
  }

  /** While its slice lasts the thread keeps running and nothing else changes. */
  lemma {:induction false} WithinSlice(k: Kernel, n: nat, t: Tid)
    requires k.current in k.threads && n < k.threads[k.current].remainTick
    ensures Ticks(k, n) == WithRemain(k, k.threads[k.current].remainTick - n)
    ensures Charged(k, n, t) == if t == k.current then n else 0
    decreases n
  {
    if n > 0 {
      var k1 := TickStep(k);
      assert k1 == WithRemain(k, k.threads[k.current].remainTick - 1);
      WithinSlice(k1, n - 1, t);
    } else {
      assert k.threads[k.current := k.threads[k.current]] == k.threads;
    }
  }

  /** A slice of 0 lasts as long as the 64-bit counter takes to come around. */
  lemma ZeroSlice(k: Kernel, n: nat, t: Tid)
    requires k.current in k.threads && k.threads[k.current].remainTick == 0 && 1 <= n < 0x1_0000_0000_0000_0000
    ensures Ticks(k, n) == WithRemain(k, 0x1_0000_0000_0000_0000 - n)
    ensures Charged(k, n, t) == if t == k.current then n else 0
  {
    var k1 := TickStep(k);
    assert k1 == WithRemain(k, 0xFFFF_FFFF_FFFF_FFFF);
    WithinSlice(k1, n - 1, t);
  }

  /** The state in which the slice of the running thread has just expired. */
  ghost function Expired(k: Kernel): Kernel
    requires k.current in k.threads
  {
    var th := k.threads[k.current];
    k.(threads := k.threads[k.current := th.(remainTick := th.initTick, stat := th.stat.(yielded := true))])
  }

  /** The lists after a thread that yields at priority p was queued and the first of that list was taken off. */
  lemma YieldLists(k: Kernel, p: nat, order: seq<Tid>)
    requires Turn(k, p, order)
    ensures order[1] in k.threads && order[0] in k.threads
    ensures var k3 := Detach(Insert(Expired(k).(current := order[1]), order[0]), order[1]);
            && On(k3, ReadyRing(p)) == order[2..] + [order[0]]
            && (forall q: nat :: q < p ==> On(k3, ReadyRing(q)) == [])
  {
    var k1 := Expired(k);
    var to, r := order[1], ReadyRing(p);
    assert FullSlice(k, p, to) && FullSlice(k, p, order[0]);
    assert order[1..][0] == to;
    var k2 := Insert(k1.(current := to), order[0]);
    assert forall q :: q != r ==> On(k2, q) == On(k, q);
    assert On(k2, r) == [to] + (order[2..] + [order[0]]);
    DetachOn(k2, to, r);
    forall q: nat | q < p ensures On(Detach(k2, to), ReadyRing(q)) == [] { DetachOn(k2, to, ReadyRing(q)); }
  }

  lemma YieldChoice(k: Kernel, p: nat, order: seq<Tid>)
    requires Turn(k, p, order)
    ensures Next(Expired(k)) == order[1] && order[1] in k.threads
  {
    var k1 := Expired(k);
    assert FullSlice(k, p, order[1]);
    assert order[1..][0] == order[1];
    assert forall q :: On(k1, q) == On(k, q);
    TopIs(k1, p, 0);
  }

  /** A thread that yields at the top priority p gives way to the first of the list and queues up behind it. */
  lemma YieldSwitches(k: Kernel, p: nat, order: seq<Tid>)
    requires Turn(k, p, order)
    ensures Next(Expired(k)) == order[1] && order[1] in k.threads
    ensures var k' := SwitchTo(Expired(k), order[1]);
            && On(k', ReadyRing(p)) == order[2..] + [order[0]]
            && (forall q: nat :: q < p ==> On(k', ReadyRing(q)) == [])
            && k'.current == order[1] && k'.threads[order[1]] == k.threads[order[1]].(stat := RUNNING)
            && k'.threads[order[0]] == k.threads[order[0]].(stat := READY)
            && k'.threads.Keys == k.threads.Keys
            && forall x :: x in k.threads && x != order[0] && x != order[1] ==> k'.threads[x] == k.threads[x]
  {
    YieldChoice(k, p, order);
    YieldLists(k, p, order);
    assert FullSlice(k, p, order[1]) && FullSlice(k, p, order[0]);
  }

  ghost predicate SameSlices(k: Kernel, k': Kernel)
  {
    k'.threads.Keys == k.threads.Keys && forall x :: x in k.threads ==> k'.threads[x].initTick == k.threads[x].initTick
  }

  lemma RotateNoDup(s: seq<Tid>)
    requires NoDup(s) && s != []
    ensures NoDup(s[1..] + [s[0]]) && forall x :: x in s[1..] + [s[0]] <==> x in s
  {
    assert s == [s[0]] + s[1..];
  }

  /** The tick that uses up the slice: the next thread of the list runs, the old one queues up behind. */
  lemma LastTick(k: Kernel, p: nat, order: seq<Tid>)
    requires Turn(k, p, order)
    ensures var k' := TickStep(WithRemain(k, 1)); Turn(k', p, order[1..] + [order[0]]) && SameSlices(k, k')
  {
    var k1 := WithRemain(k, 1);
    assert FullSlice(k, p, order[0]) && FullSlice(k, p, order[1]);
    assert CountTick(k1) == Expired(k);
    YieldSwitches(k, p, order);
    var k', next := TickStep(k1), order[1..] + [order[0]];
    assert next[1..] == order[2..] + [order[0]];
    RotateNoDup(order);
    forall x | x in next ensures FullSlice(k', p, x) { assert FullSlice(k, p, x); }
  }

  lemma OneTick(k: Kernel, t: Tid)
    ensures Ticks(k, 1) == TickStep(k) && Charged(k, 1, t) == if k.current == t then 1 else 0
  {
    assert Ticks(TickStep(k), 0) == TickStep(k) && Charged(TickStep(k), 0, t) == 0;
  }

  lemma SliceTicks(k: Kernel, n: nat, t: Tid)
    requires k.current in k.threads && k.threads[k.current].remainTick == n > 0
    ensures Ticks(k, n) == TickStep(WithRemain(k, 1)) && Charged(k, n, t) == if t == k.current then n else 0
  {
    WithinSlice(k, n - 1, t);
    TicksAdd(k, n - 1, 1, t);
    OneTick(WithRemain(k, 1), t);
  }

  /** One turn lasts exactly the slice of the running thread, charges only it, and rotates the list by one. */
  lemma OneTurn(k: Kernel, p: nat, order: seq<Tid>, t: Tid)
    requires Turn(k, p, order)
    ensures var n := k.threads[order[0]].initTick; var k' := Ticks(k, n);
            && Turn(k', p, order[1..] + [order[0]]) && SameSlices(k, k')
            && Charged(k, n, t) == if t == order[0] then n else 0
  {
    assert FullSlice(k, p, order[0]);
    var n := k.threads[order[0]].initTick;
    SliceTicks(k, n, t);
    LastTick(k, p, order);
  }

  /** The ticks the first n threads of the order have together. */
  function Sum(threads: map<Tid, Thread>, order: seq<Tid>): (s: nat)
    requires forall x :: x in order ==> x in threads
  {
    if order == [] then 0 else threads[order[0]].initTick + Sum(threads, order[1..])
  }

  lemma {:induction false} SumSame(a: map<Tid, Thread>, b: map<Tid, Thread>, order: seq<Tid>)
    requires forall x :: x in order ==> x in a && x in b && a[x].initTick == b[x].initTick
    ensures Sum(a, order) == Sum(b, order)
  {
    if order != [] {
      assert order == [order[0]] + order[1..];
      SumSame(a, b, order[1..]);
    }
  }

  lemma DistinctHead(done: seq<Tid>, rest: seq<Tid>)
    requires done != [] && NoDup(done + rest)
    ensures done[0] !in done[1..]
  {
    assert forall i :: 0 <= i < |done| ==> (done + rest)[i] == done[i];
  }

  lemma NextTurn(done: seq<Tid>, rest: seq<Tid>)
    requires done != [] && NoDup(done + rest)
    ensures var d, done' := done[0], done[1..];
            && (done + rest)[0] == d && (done + rest)[1..] + [d] == done' + (rest + [d])
            && (rest + [d]) + done' == rest + done && d !in done' && forall x :: x in done <==> x == d || x in done'
  {
    DistinctHead(done, rest);
    assert done == [done[0]] + done[1..];
  }

  /** After the turns of the threads `done`, they stand behind the others, each charged its own slice. */
  lemma {:induction false} Turns(k: Kernel, p: nat, done: seq<Tid>, rest: seq<Tid>, t: Tid)
    requires Turn(k, p, done + rest)
    ensures forall x :: x in done ==> x in k.threads
    ensures var n := Sum(k.threads, done); var k' := Ticks(k, n);
            && Turn(k', p, rest + done) && SameSlices(k, k')
            && Charged(k, n, t) == if t in done then k.threads[t].initTick else 0
    decreases |done|
  {
    forall x | x in done ensures x in k.threads { assert x in done + rest; assert FullSlice(k, p, x); }
    if done == [] {
      assert done + rest == rest + done;
    } else {
      var d, done' := done[0], done[1..];
      NextTurn(done, rest);
      assert FullSlice(k, p, d);
      OneTurn(k, p, done + rest, t);
      var n := k.threads[d].initTick;
      var k1 := Ticks(k, n);
      Turns(k1, p, done', rest + [d], t);
      SumSame(k.threads, k1.threads, done');
      TicksAdd(k, n, Sum(k.threads, done'), t);
    }
  }

  /** Exact weighted round robin: over the sum of the slices each thread of the top priority runs for exactly its own
      slice, and the running thread and the ready list are back where they started. */
  lemma FullRound(k: Kernel, p: nat, order: seq<Tid>)
    requires Turn(k, p, order)
    ensures forall x :: x in order ==> x in k.threads
    ensures var n := Sum(k.threads, order); var k' := Ticks(k, n);
            && k'.current == k.current && On(k', ReadyRing(p)) == On(k, ReadyRing(p)) && Turn(k', p, order)
            && forall t :: t in order ==> Charged(k, n, t) == k.threads[t].initTick
  {
    assert order + [] == order && [] + order == order;
    Turns(k, p, order, [], order[0]);
    forall t | t in order ensures Charged(k, Sum(k.threads, order), t) == k.threads[t].initTick {
      Turns(k, p, order, [], t);
    }
  }
}
