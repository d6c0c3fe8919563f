/** The deferred context switch: sk_schedule inside an interrupt only notes the switch (arch/aarch64/src/context.S),
    the interrupt exit carries it out (arch/aarch64/src/vector.S). */
module ContextSwitch {
  import opened Kernel
  import opened KernelInvariant
  import opened KernelSteps
  import opened KernelRuns
  import opened Boot

  /** A register frame on the stack of thread `owner`; no two saves make the same frame. */
  datatype Frame = Frame(owner: Tid, serial: nat)

  /** In an interrupt, x0 holds the frame save_context pushed for the interrupted thread. */
  datatype Mode = InThread | InIrq(x0: Frame)

  /** thread_switch_interrupt_flag, interrupt_from_thread and interrupt_to_thread. */
  datatype Pending = Pending(flag: bool, from: Tid, to: Tid)

  /** `sp` are the saved stack pointers in the threads, `running` the frame the processor was last loaded with;
      `saved` remembers, for every thread, the frame of its latest save. */
  datatype Machine = Machine(k: Kernel, sp: map<Tid, Frame>, pending: Pending, running: Frame, mode: Mode,
                             saved: map<Tid, Frame>, serial: nat)

  /** hw_context_switch_interrupt */
  function NoteSwitch(p: Pending, from: Tid, to: Tid): (p': Pending)
  {
    if p.flag then p.(to := to) else Pending(true, from, to)
  }

  /** vector_irq after sk_interrupt_leave: the frame to restore, and what happens to the saved stack pointers. */
  function IrqExit(p: Pending, sp: map<Tid, Frame>, x0: Frame): (r: (Pending, map<Tid, Frame>, Frame))
    requires p.flag ==> p.to in sp[p.from := x0]
  {
    if p.flag then
      var sp' := sp[p.from := x0];
      (p.(flag := false), sp', sp'[p.to])
    else (p, sp, x0)
  }

  datatype Action =
    | KernelStep(s: Step)      // any kernel section that does not reschedule
    | ExitThread               // __thread_exit with its sk_schedule
    | CallSchedule             // sk_schedule, in a thread or in an interrupt handler
    | Interrupt                // vector_irq up to sk_interrupt_enter
    | ReturnFromIrq            // vector_irq after sk_interrupt_leave

  /** Newly created threads come with the frame __thread_stack_init built. */
  ghost predicate NewFrames(m: Machine, k': Kernel, sp': map<Tid, Frame>, saved': map<Tid, Frame>)
  {
    && sp'.Keys == k'.threads.Keys && saved'.Keys == k'.threads.Keys
    && (forall t :: t in m.k.threads && t in k'.threads ==>
          t in m.sp && sp'[t] == m.sp[t] && t in m.saved && saved'[t] == m.saved[t])
    && (forall t :: t in k'.threads && t !in m.k.threads ==> sp'[t] == saved'[t] && sp'[t].owner == t)
  }

  ghost predicate Moves(m: Machine, idle: Tid, a: Action, m': Machine)
    requires KInv(m.k, idle)
  {
    match a
    case KernelStep(s) =>
      && !s.Reschedule? && !s.Exit? && Takes(m.k, idle, s, m'.k) && NewFrames(m, m'.k, m'.sp, m'.saved)
      && m' == m.(k := m'.k, sp := m'.sp, saved := m'.saved)
    case ExitThread =>
      m.mode.InThread? && Takes(m.k, idle, Exit, m'.k) && m'.k.current != m.k.current && m'.k.current in m.sp &&
      var f := Frame(m.k.current, m.serial);
      m' == m.(k := m'.k, sp := m.sp[f.owner := f], running := m.sp[m'.k.current],
               saved := m.saved[f.owner := f], serial := m.serial + 1)
    case CallSchedule =>
      Next(m.k) in m.k.threads &&
      var from, to := m.k.current, Next(m.k);
      if from == to then m' == m
      else if m.mode.InIrq? then m' == m.(k := Schedule(m.k), pending := NoteSwitch(m.pending, from, to))
      else
        var f := Frame(from, m.serial);
        to in m.sp[from := f] &&
        m' == m.(k := Schedule(m.k), sp := m.sp[from := f], running := m.sp[from := f][to],
                 saved := m.saved[from := f], serial := m.serial + 1)
    case Interrupt =>
      m.mode.InThread? &&
      var f := Frame(m.running.owner, m.serial);
      m' == m.(mode := InIrq(f), saved := m.saved[f.owner := f], serial := m.serial + 1)
    case ReturnFromIrq =>
      m.mode.InIrq? && (m.pending.flag ==> m.pending.to in m.sp[m.pending.from := m.mode.x0]) &&
      var (p, sp, f) := IrqExit(m.pending, m.sp, m.mode.x0);
      m' == m.(pending := p, sp := sp, running := f, mode := InThread)
  }

  ghost predicate FramesOk(m: Machine)
  {
    && m.sp.Keys == m.k.threads.Keys == m.saved.Keys && m.k.current in m.k.threads
    && (forall t :: t in m.saved ==> m.saved[t].owner == t)
    && m.running.owner in m.k.threads
    && (forall t :: t in m.sp && t != m.running.owner ==> m.sp[t] == m.saved[t])
    && match m.mode
       case InThread => !m.pending.flag && m.running.owner == m.k.current
       case InIrq(x0) =>
         && x0 == m.saved[m.running.owner]
         && (m.pending.flag ==> m.pending.from == m.running.owner && m.pending.to == m.k.current)
         && (!m.pending.flag ==> m.running.owner == m.k.current)
  }

  /** In a thread the processor runs the current thread. In an interrupt a pending switch starts at the interrupted
      thread and leads to the current one, and without a pending switch they are the same. All other threads' stack
      pointers hold their latest frame. */
  ghost predicate MInv(m: Machine, idle: Tid)
  {
    KInv(m.k, idle) && FramesOk(m)
  }

  lemma ScheduleCurrent(k: Kernel, idle: Tid)
    requires KInv(k, idle)
    ensures Next(k) in k.threads && KInv(Schedule(k), idle)
    ensures Schedule(k).threads.Keys == k.threads.Keys && Schedule(k).current == Next(k)
  {
    KInvSchedulable(k, idle);
    ScheduleKeeps(k, idle);
    NextKnown(k, idle);
    if Next(k) != k.current { SwitchKeeps(k, idle, Next(k)); }
  }

  lemma StepKeepsCurrent(k: Kernel, idle: Tid, s: Step, k': Kernel)
    requires KInv(k, idle) && Takes(k, idle, s, k') && !s.Reschedule? && !s.Exit?
    ensures k'.current == k.current
  {
  }

  lemma ExitKeys(k: Kernel, idle: Tid, k': Kernel)
    requires KInv(k, idle) && Takes(k, idle, Exit, k')
    ensures k'.threads.Keys == k.threads.Keys
  {
    CloseKeeps(k, idle);
    ScheduleKeeps(CloseCurrent(k), idle);
  }

  lemma NewThreadsKeep(m: Machine, k': Kernel, sp': map<Tid, Frame>, saved': map<Tid, Frame>)
    requires FramesOk(m) && NewFrames(m, k', sp', saved') && k'.current == m.k.current
    requires m.k.threads.Keys <= k'.threads.Keys
    ensures FramesOk(m.(k := k', sp := sp', saved := saved'))
  {
  }

  lemma NotedSwitchKeeps(m: Machine, k': Kernel)
    requires FramesOk(m) && m.mode.InIrq? && k'.threads.Keys == m.k.threads.Keys && k'.current in k'.threads
    ensures FramesOk(m.(k := k', pending := NoteSwitch(m.pending, m.k.current, k'.current)))
  {
  }

  lemma DirectSwitchKeeps(m: Machine, k': Kernel)
    requires FramesOk(m) && m.mode.InThread? && k'.threads.Keys == m.k.threads.Keys && k'.current in k'.threads
    requires k'.current != m.k.current
    ensures var f := Frame(m.k.current, m.serial);
            FramesOk(m.(k := k', sp := m.sp[f.owner := f], running := m.sp[f.owner := f][k'.current],
                        saved := m.saved[f.owner := f], serial := m.serial + 1))
  {
  }

  /** Every action keeps the invariant. */
  lemma MoveKeeps(m: Machine, idle: Tid, a: Action, m': Machine)
    requires MInv(m, idle) && Moves(m, idle, a, m')
    ensures MInv(m', idle)
  {
    match a
    case KernelStep(s) =>
      StepKeeps(m.k, idle, s, m'.k);
      StepKeepsCurrent(m.k, idle, s, m'.k);
      NewThreadsKeep(m, m'.k, m'.sp, m'.saved);
    case ExitThread =>
      StepKeeps(m.k, idle, Exit, m'.k);
      ExitKeys(m.k, idle, m'.k);
      DirectSwitchKeeps(m, m'.k);
    case CallSchedule =>
      ScheduleCurrent(m.k, idle);
      if Next(m.k) != m.k.current {
        if m.mode.InIrq? { NotedSwitchKeeps(m, Schedule(m.k)); } else { DirectSwitchKeeps(m, Schedule(m.k)); }
      }
    case Interrupt =>
    case ReturnFromIrq =>
  }

  /** After the interrupt the processor runs exactly the latest saved frame of the current thread, the interrupted
      thread's stack pointer holds its own frame if it was switched out, and no switch is pending. */
  lemma IrqExitResumesCurrent(m: Machine, idle: Tid, m': Machine)
    requires MInv(m, idle) && Moves(m, idle, ReturnFromIrq, m')
    ensures m'.running == m.saved[m.k.current] && m'.running.owner == m'.k.current && !m'.pending.flag
    ensures var i := m.mode.x0.owner; i in m'.sp && (m.pending.flag ==> m'.sp[i] == m.mode.x0)
    ensures forall t :: t in m'.sp && t != m'.k.current ==> m'.sp[t] == m.saved[t]
  {
  }

  /** Leaving an interrupt is always possible. */
  lemma IrqExitEnabled(m: Machine, idle: Tid)
    requires MInv(m, idle) && m.mode.InIrq?
    ensures m.pending.flag ==> m.pending.to in m.sp[m.pending.from := m.mode.x0]
  {
  }

  /** hw_context_switch_to of the first thread; every thread has the frame __thread_stack_init built. */
  ghost predicate Starts(m: Machine, k: Kernel, idle: Tid)
  {
    && BootInv(k) && HasIdle(k, idle) && Highest(k).Some? && On(k, ReadyRing(Highest(k).value))[0] in k.threads
    && m.k == StartFirst(k) && m.sp == m.saved && m.sp.Keys == k.threads.Keys && m.k.current in m.sp
    && (forall t :: t in m.sp ==> m.sp[t].owner == t)
    && m.running == m.sp[m.k.current] && m.mode == InThread && !m.pending.flag
  }

  /** The machine is in order when the first thread starts. */
  lemma StartInv(m: Machine, k: Kernel, idle: Tid)
    requires Starts(m, k, idle)
    ensures MInv(m, idle)
  {
    StartKeeps(k, idle);
  }

  ghost predicate MovesAt(ms: seq<Machine>, idle: Tid, actions: seq<Action>, i: nat)
    requires i < |actions| < |ms|
  {
    KInv(ms[i].k, idle) ==> Moves(ms[i], idle, actions[i], ms[i + 1])
  }

  ghost predicate IsRun(ms: seq<Machine>, idle: Tid, actions: seq<Action>)
  {
    && |ms| == |actions| + 1 && MInv(ms[0], idle)
    && forall i: nat :: i < |actions| ==> MovesAt(ms, idle, actions, i)
  }

  /** Over every run, with any number of sk_schedule calls inside any number of interrupts. */
  lemma {:induction false} RunKeeps(ms: seq<Machine>, idle: Tid, actions: seq<Action>, n: nat)
    requires IsRun(ms, idle, actions) && n <= |actions|
    ensures MInv(ms[n], idle)
    decreases n
  {
    if n > 0 {
      RunKeeps(ms, idle, actions, n - 1);
      assert MovesAt(ms, idle, actions, n - 1);
      MoveKeeps(ms[n - 1], idle, actions[n - 1], ms[n]);
    }
  }

  /** The three words and the stack pointers as the assembly stores them. */
  class SwitchWords {
    var flag: bool
    var from: Tid
    var to: Tid
    var sp: map<Tid, Frame>

    ghost function P(): Pending
      reads this
    {
      Pending(flag, from, to)
    }

    /** hw_context_switch_interrupt */
    method ContextSwitchInterrupt(x0: Tid, x1: Tid)
      modifies this
      ensures P() == NoteSwitch(old(P()), x0, x1) && sp == old(sp)
    {
      if !flag {
        from := x0;
        flag := true;
      }
      to := x1;
    }

    /** The tail of vector_irq. */
    method LeaveIrq(x0: Frame) returns (frame: Frame)
      requires flag ==> to in sp[from := x0]
      modifies this
      ensures (P(), sp, frame) == IrqExit(old(P()), old(sp), x0)
    {
      frame := x0;
      if flag {
        flag := false;
        sp := sp[from := x0];
        frame := sp[to];
      }
    }
  }
}
