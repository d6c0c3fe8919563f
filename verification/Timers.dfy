/** System timers (init/sys_tick.c): sk_timer_check walks the timer list while restarted timers move to its front. */
module Timers {
  import opened Seqs

  type Id = nat

  const TICK_RANGE := 0x1_0000_0000

  /** struct sk_sys_timer: SK_TIMER_FLAG_ACTIVE, SK_TIMER_FLAG_PERIODIC, init_tick, timeout_tick. */
  datatype Timer = Timer(active: bool, periodic: bool, initTick: nat, timeoutTick: nat)

  predicate Due(now: nat, x: Timer)
  {
    now >= x.timeoutTick
  }

  /** The fields after sk_timer_start; the tick counter is a 32-bit word. */
  function Started(now: nat, x: Timer): (y: Timer)
  {
    x.(active := true, timeoutTick := (now + x.initTick) % TICK_RANGE)
  }

  /** A due periodic timer that its restart leaves due: its period is 0, or the tick counter wraps. */
  predicate Sticky(now: nat, x: Timer)
  {
    x.periodic && Due(now, x) && Due(now, Started(now, x))
  }

  /** The walk of sk_timer_check: the list, the position of the cursor and the timeout functions called so far. */
  datatype Walk = Walk(timers: map<Id, Timer>, list: seq<Id>, i: nat, fired: seq<Id>)

  predicate Over(w: Walk)
  {
    w.i >= |w.list|
  }

  /** One round of the loop. A restarted timer goes to the front with the cursor on it, so the walk resumes behind it.
      The test `list_1->next == list_1->prev` is true when the timer is alone on the list, and ends the walk. */
  function WalkStep(now: nat, w: Walk): (w': Walk)
    requires !Over(w) && w.list[w.i] in w.timers
  {
    var t := w.list[w.i];
    var x := w.timers[t];
    if !Due(now, x) then w.(i := w.i + 1)
    else
      var fired := if x.active then w.fired + [t] else w.fired;
      if |w.list| == 1 then w.(fired := fired, i := 1)
      else if x.periodic then
        w.(timers := w.timers[t := Started(now, x)], list := [t] + Without(w.list, t), i := 1, fired := fired)
      else w.(timers := w.timers[t := x.(active := false)], i := w.i + 1, fired := fired)
  }

  ghost predicate Known(w: Walk)
  {
    NoDup(w.list) && forall t :: t in w.list ==> t in w.timers
  }

  lemma MoveToFront(list: seq<Id>, t: Id)
    requires NoDup(list) && t in list
    ensures var l := [t] + Without(list, t);
            NoDup(l) && |l| == |list| && forall x :: x in l <==> x in list
  {
    WithoutMembers(list, t);
    WithoutLength(list, t);
  }

  /** What one round leaves alone. */
  lemma StepFrame(now: nat, w: Walk)
    requires Known(w) && !Over(w)
    ensures w.list[w.i] in w.timers && Known(WalkStep(now, w)) && |WalkStep(now, w).list| == |w.list|
    ensures WalkStep(now, w).timers.Keys == w.timers.Keys
    ensures forall t :: t in WalkStep(now, w).list <==> t in w.list
    ensures forall t :: t in w.timers && t != w.list[w.i] ==> WalkStep(now, w).timers[t] == w.timers[t]
  {
    assert w.list[w.i] in w.list;
    MoveToFront(w.list, w.list[w.i]);
  }

  // ---- what a whole walk does ----

  /** A timer after its timeout was handled: restarted, or switched off. */
  function Handled(now: nat, x: Timer): (y: Timer)
  {
    if x.periodic then Started(now, x) else x.(active := false)
  }

  /** Nothing more to do for this timer. */
  predicate Settled(now: nat, x: Timer)
  {
    !Due(now, x) || (!x.periodic && !x.active)
  }

  ghost predicate TimerProgress(now: nat, before: Timer, after: Timer, fired: bool)
  {
    && (after == before || (Due(now, before) && after == Handled(now, before)))
    && (fired <==> before.active && Due(now, before) && after == Handled(now, before))
  }

  /** Each timer is as it was at the start s or handled, exactly the active due ones among the handled have fired,
      and those before the cursor are settled. */
  ghost predicate Progress(now: nat, s: Walk, w: Walk)
  {
    && Known(w) && |w.list| == |s.list| >= 2 && w.timers.Keys == s.timers.Keys && w.i <= |w.list|
    && (forall t :: t in w.list <==> t in s.list)
    && (forall t :: t in w.list ==> TimerProgress(now, s.timers[t], w.timers[t], t in w.fired))
    && (forall t :: t in w.timers && t !in w.list ==> w.timers[t] == s.timers[t])
    && NoDup(w.fired) && (forall t :: t in w.fired ==> t in w.list)
    && (forall j :: 0 <= j < w.i ==> w.list[j] in w.timers && Settled(now, w.timers[w.list[j]]))
  }

  lemma HandledSettled(now: nat, x: Timer)
    requires !Sticky(now, x) && Due(now, x)
    ensures Settled(now, Handled(now, x)) && (x.active ==> Handled(now, x) != x)
  {
  }

  /** The timer under the cursor after the round. */
  lemma CursorProgress(now: nat, before: Timer, x: Timer, fired: bool)
    requires TimerProgress(now, before, x, fired) && !Sticky(now, before)
    ensures Due(now, x) ==> && Settled(now, Handled(now, x))
                            && TimerProgress(now, before, Handled(now, x), fired || x.active)
    ensures Due(now, x) && x.active ==> !fired
    ensures !Due(now, x) ==> Settled(now, x)
  {
    if Due(now, before) { HandledSettled(now, before); }
  }

  lemma StepSettled(now: nat, w: Walk)
    requires Known(w) && !Over(w) && |w.list| >= 2
    requires forall j :: 0 <= j < w.i ==> w.list[j] in w.timers && Settled(now, w.timers[w.list[j]])
    requires w.list[w.i] in w.timers
    requires var x := w.timers[w.list[w.i]]; (if Due(now, x) then Settled(now, Handled(now, x)) else true)
    ensures var w' := WalkStep(now, w);
            forall j :: 0 <= j < w'.i ==> w'.list[j] in w'.timers && Settled(now, w'.timers[w'.list[j]])
  {
    StepFrame(now, w);
    var w' := WalkStep(now, w);
    forall j | 0 <= j < w'.i ensures w'.list[j] in w'.timers && Settled(now, w'.timers[w'.list[j]]) {
      assert w'.list[j] in w'.list;
    }
  }

  lemma StepProgress(now: nat, s: Walk, w: Walk)
    requires Progress(now, s, w) && !Over(w) && forall t :: t in s.list ==> t in s.timers && !Sticky(now, s.timers[t])
    ensures w.list[w.i] in w.timers && Progress(now, s, WalkStep(now, w))
  {
    var t := w.list[w.i];
    assert t in w.list;
    StepFrame(now, w);
    CursorProgress(now, s.timers[t], w.timers[t], t in w.fired);
    StepSettled(now, w);
    var w' := WalkStep(now, w);
    forall x | x in w'.list ensures TimerProgress(now, s.timers[x], w'.timers[x], x in w'.fired) {
      assert TimerProgress(now, s.timers[x], w.timers[x], x in w.fired);
    }
  }

  /** What sk_timer_check promises: every active due timer fires exactly once and no other does, periodic ones are
      restarted and one-shot ones switched off, and nothing else changes. */
  ghost predicate CheckedAll(now: nat, s: Walk, w: Walk)
  {
    && (forall t :: t in w.list <==> t in s.list) && NoDup(w.list) && NoDup(w.fired)
    && (forall t :: t in w.fired <==> t in s.list && t in s.timers && s.timers[t].active && Due(now, s.timers[t]))
    && w.timers.Keys == s.timers.Keys
    && (forall t :: t in s.timers ==>
          w.timers[t] == if t in s.list && Due(now, s.timers[t]) then Handled(now, s.timers[t]) else s.timers[t])
  }

  lemma WalkDone(now: nat, s: Walk, w: Walk)
    requires Progress(now, s, w) && Over(w)
    requires forall t :: t in s.list ==> t in s.timers && !Sticky(now, s.timers[t])
    ensures CheckedAll(now, s, w)
  {
    forall t | t in s.timers
      ensures w.timers[t] == (if t in s.list && Due(now, s.timers[t]) then Handled(now, s.timers[t]) else s.timers[t])
      ensures t in w.fired <==> t in s.list && s.timers[t].active && Due(now, s.timers[t])
    {
      if t in s.list {
        assert t in w.list;
        assert TimerProgress(now, s.timers[t], w.timers[t], t in w.fired);
        var j: nat :| j < |w.list| && w.list[j] == t;
        assert Settled(now, w.timers[w.list[j]]);
      }
    }
  }

  // ---- does the walk end ----

  /** The due periodic timers that a restart settles. */
  ghost function Restarts(now: nat, w: Walk): (r: set<Id>)
    requires Known(w)
  {
    set t | t in w.list && w.timers[t].periodic && Due(now, w.timers[t]) && !Sticky(now, w.timers[t])
  }

  ghost predicate StickyAhead(now: nat, w: Walk)
    requires Known(w)
  {
    exists j: nat :: w.i <= j < |w.list| && Sticky(now, w.timers[w.list[j]])
  }

  ghost predicate AtMostOneSticky(now: nat, w: Walk)
    requires Known(w)
  {
    forall t, u :: t in w.list && u in w.list && Sticky(now, w.timers[t]) && Sticky(now, w.timers[u]) ==> t == u
  }

  /** A restart neither makes a timer sticky nor cures a sticky one. */
  lemma StickyStays(now: nat, x: Timer)
    requires x.periodic && Due(now, x)
    ensures Sticky(now, Started(now, x)) <==> Sticky(now, x)
  {
  }

  /** The kinds of all timers but the one under the cursor, and its stickiness, stay as they are. */
  lemma SameKinds(now: nat, w: Walk, t: Id)
    requires Known(w) && !Over(w) && t in w.list && |w.list| >= 2
    ensures w.list[w.i] in w.timers && t in WalkStep(now, w).timers
    ensures var x, y := w.timers[t], WalkStep(now, w).timers[t];
            && (Sticky(now, y) <==> Sticky(now, x)) && y.periodic == x.periodic
            && (t != w.list[w.i] || !x.periodic || !Due(now, x) ==> Due(now, y) == Due(now, x))
            && (t == w.list[w.i] && x.periodic && Due(now, x) ==> (Due(now, y) <==> Sticky(now, x)))
  {
    StepFrame(now, w);
    if t == w.list[w.i] && w.timers[t].periodic && Due(now, w.timers[t]) { StickyStays(now, w.timers[t]); }
  }

  /** The timer under the cursor is restarted. */
  predicate RestartsHere(now: nat, w: Walk)
    requires !Over(w) && w.list[w.i] in w.timers
  {
    w.timers[w.list[w.i]].periodic && Due(now, w.timers[w.list[w.i]]) && |w.list| >= 2
  }

  lemma RestartsAfter(now: nat, w: Walk)
    requires Known(w) && !Over(w) && |w.list| >= 2
    ensures w.list[w.i] in w.timers && Known(WalkStep(now, w))
    ensures Restarts(now, WalkStep(now, w)) ==
            if RestartsHere(now, w) then Restarts(now, w) - {w.list[w.i]} else Restarts(now, w)
  {
    StepFrame(now, w);
    var w' := WalkStep(now, w);
    forall t | t in w.list
      ensures t in Restarts(now, w') <==> t in Restarts(now, w) && !(RestartsHere(now, w) && t == w.list[w.i])
    {
      SameKinds(now, w, t);
    }
  }

  /** The measure of the walk: timers still to restart, whether a sticky one lies ahead, distance to the list head. */
  ghost function Rank(now: nat, w: Walk): (r: (nat, nat, nat))
    requires Known(w) && w.i <= |w.list|
  {
    (|Restarts(now, w)|, if StickyAhead(now, w) then 1 else 0, |w.list| - w.i)
  }

  ghost predicate Below(a: (nat, nat, nat), b: (nat, nat, nat))
  {
    a.0 < b.0 || (a.0 == b.0 && (a.1 < b.1 || (a.1 == b.1 && a.2 < b.2)))
  }

  lemma PlainStepDecreases(now: nat, w: Walk)
    requires Known(w) && !Over(w) && |w.list| >= 2
    requires w.list[w.i] in w.timers && !RestartsHere(now, w)
    ensures Known(WalkStep(now, w)) && Below(Rank(now, WalkStep(now, w)), Rank(now, w))
  {
    StepFrame(now, w);
    RestartsAfter(now, w);
    var w' := WalkStep(now, w);
    if StickyAhead(now, w') {
      var j: nat :| w'.i <= j < |w'.list| && Sticky(now, w'.timers[w'.list[j]]);
      SameKinds(now, w, w.list[j]);
      assert Sticky(now, w.timers[w.list[j]]);
    }
  }

  lemma RestartStepDecreases(now: nat, w: Walk)
    requires Known(w) && !Over(w) && AtMostOneSticky(now, w)
    requires w.list[w.i] in w.timers && RestartsHere(now, w)
    ensures Known(WalkStep(now, w)) && Below(Rank(now, WalkStep(now, w)), Rank(now, w))
  {
    StepFrame(now, w);
    RestartsAfter(now, w);
    var w', t := WalkStep(now, w), w.list[w.i];
    assert t in w.list;
    if Sticky(now, w.timers[t]) {
      assert StickyAhead(now, w);
      forall j: nat | 1 <= j < |w'.list| ensures !Sticky(now, w'.timers[w'.list[j]]) {
        assert w'.list[j] in w'.list && w'.list[0] == t;
        SameKinds(now, w, w'.list[j]);
      }
    } else {
      assert t in Restarts(now, w);
    }
  }

  lemma AtMostOneStays(now: nat, w: Walk)
    requires Known(w) && !Over(w) && AtMostOneSticky(now, w) && |w.list| >= 2
    ensures w.list[w.i] in w.timers && Known(WalkStep(now, w)) && AtMostOneSticky(now, WalkStep(now, w))
  {
    StepFrame(now, w);
    var w' := WalkStep(now, w);
    forall t, u | t in w'.list && u in w'.list && Sticky(now, w'.timers[t]) && Sticky(now, w'.timers[u])
      ensures t == u
    {
      SameKinds(now, w, t);
      SameKinds(now, w, u);
    }
  }

  /** n rounds of the loop, fewer if it ends before. */
  ghost function Rounds(now: nat, w: Walk, n: nat): (w': Walk)
    requires Known(w)
    ensures Known(w')
    decreases n
  {
    if n == 0 || Over(w) then w
    else
      StepFrame(now, w);
      Rounds(now, WalkStep(now, w), n - 1)
  }

  lemma {:induction false} RoundsNext(now: nat, w: Walk, n: nat)
    requires Known(w)
    ensures Known(Rounds(now, w, n))
    ensures !Over(Rounds(now, w, n)) ==>
              Rounds(now, w, n).list[Rounds(now, w, n).i] in Rounds(now, w, n).timers
              && Rounds(now, w, n + 1) == WalkStep(now, Rounds(now, w, n))
    decreases n
  {
    if !Over(w) {
      StepFrame(now, w);
      if n > 0 {
        RoundsNext(now, WalkStep(now, w), n - 1);
      } else {
        assert Rounds(now, WalkStep(now, w), 0) == WalkStep(now, w);
      }
    }
  }

  ghost predicate Ends(now: nat, w: Walk)
    requires Known(w)
  {
    exists n: nat :: Over(Rounds(now, w, n))
  }

  lemma {:induction false} EndsLater(now: nat, w: Walk)
    requires Known(w) && !Over(w) && w.list[w.i] in w.timers && Known(WalkStep(now, w)) && Ends(now, WalkStep(now, w))
    ensures Ends(now, w)
  {
    var n: nat :| Over(Rounds(now, WalkStep(now, w), n));
    assert Rounds(now, w, n + 1) == Rounds(now, WalkStep(now, w), n);
  }

  lemma {:induction false} WalkEnds(now: nat, w: Walk)
    requires Known(w) && AtMostOneSticky(now, w) && w.i <= |w.list|
    ensures Ends(now, w)
    decreases Rank(now, w).0, Rank(now, w).1, Rank(now, w).2
  {
    if Over(w) {
      assert Over(Rounds(now, w, 0));
    } else {
      StepFrame(now, w);
      var w' := WalkStep(now, w);
      if |w.list| == 1 {
        assert Over(Rounds(now, w', 0));
      } else {
        AtMostOneStays(now, w);
        if RestartsHere(now, w) { RestartStepDecreases(now, w); } else { PlainStepDecreases(now, w); }
        WalkEnds(now, w');
      }
      EndsLater(now, w);
    }
  }

  /** Two sticky timers: one of them is always still ahead of the cursor. */
  ghost predicate Looping(now: nat, w: Walk, t: Id, u: Id)
  {
    && Known(w) && t in w.list && u in w.list && t != u && Sticky(now, w.timers[t]) && Sticky(now, w.timers[u])
    && StickyAhead(now, w)
  }

  lemma TwoMembers(s: seq<Id>, t: Id, u: Id)
    requires t in s && u in s && t != u
    ensures |s| >= 2
  {
  }

  lemma LoopingStays(now: nat, w: Walk, t: Id, u: Id)
    requires Looping(now, w, t, u)
    ensures !Over(w) && w.list[w.i] in w.timers && Looping(now, WalkStep(now, w), t, u)
  {
    TwoMembers(w.list, t, u);
    StepFrame(now, w);
    SameKinds(now, w, t);
    SameKinds(now, w, u);
    var w', c := WalkStep(now, w), w.list[w.i];
    if RestartsHere(now, w) {
      var v := if c == t then u else t;
      var j: nat :| j < |w'.list| && w'.list[j] == v;
      assert j >= 1;
    } else {
      var j: nat :| w.i <= j < |w.list| && Sticky(now, w.timers[w.list[j]]);
      SameKinds(now, w, w.list[j]);
      assert j != w.i;
      assert Sticky(now, w'.timers[w'.list[j]]);
    }
  }

  lemma {:induction false} LoopsForever(now: nat, w: Walk, t: Id, u: Id, n: nat)
    requires Looping(now, w, t, u)
    ensures !Over(Rounds(now, w, n))
    decreases n
  {
    LoopingStays(now, w, t, u);
    if n > 0 { LoopsForever(now, WalkStep(now, w), t, u, n - 1); }
  }

  /** sk_timer_check ends exactly when at most one listed timer is sticky. */
  lemma EndsIff(now: nat, w: Walk)
    requires Known(w) && w.i == 0
    ensures Ends(now, w) <==> AtMostOneSticky(now, w)
  {
    if AtMostOneSticky(now, w) {
      WalkEnds(now, w);
    } else {
      var t, u :| t in w.list && u in w.list && Sticky(now, w.timers[t]) && Sticky(now, w.timers[u]) && t != u;
      var j: nat :| j < |w.list| && w.list[j] == t;
      assert Looping(now, w, t, u);
      forall n: nat ensures !Over(Rounds(now, w, n)) { LoopsForever(now, w, t, u, n); }
    }
  }

  /** Two periodic timers with period 0, just started: the next check never ends. */
  lemma TwoZeroPeriods(now: nat)
    requires now < TICK_RANGE
    ensures var x := Started(now, Timer(false, true, 0, 0)); !Ends(now, Walk(map[0 := x, 1 := x], [1, 0], 0, []))
  {
    var x := Started(now, Timer(false, true, 0, 0));
    var w := Walk(map[0 := x, 1 := x], [1, 0], 0, []);
    assert w.list[0] == 1 && w.list[1] == 0;
    assert Sticky(now, w.timers[0]) && Sticky(now, w.timers[1]) && 0 in w.list && 1 in w.list;
    EndsIff(now, w);
  }

  // ---- the whole check ----

  /** A walk about to begin. */
  ghost predicate Fresh(w: Walk)
  {
    Known(w) && w.i == 0 && w.fired == []
  }

  lemma {:induction false} RoundsProgress(now: nat, s: Walk, w: Walk, n: nat)
    requires Progress(now, s, w) && forall t :: t in s.list ==> t in s.timers && !Sticky(now, s.timers[t])
    ensures Progress(now, s, Rounds(now, w, n))
    decreases n
  {
    if n > 0 && !Over(w) {
      StepFrame(now, w);
      StepProgress(now, s, w);
      RoundsProgress(now, s, WalkStep(now, w), n - 1);
    }
  }

  /** With two or more timers listed and none sticky, a finished check has fired each active due timer exactly once. */
  lemma CheckFiresOnce(now: nat, s: Walk, n: nat)
    requires Fresh(s) && |s.list| >= 2 && (forall t :: t in s.list ==> !Sticky(now, s.timers[t]))
    requires Over(Rounds(now, s, n))
    ensures CheckedAll(now, s, Rounds(now, s, n))
  {
    forall t | t in s.list ensures TimerProgress(now, s.timers[t], s.timers[t], false) {
      if Due(now, s.timers[t]) { HandledSettled(now, s.timers[t]); }
    }
    RoundsProgress(now, s, s, n);
    WalkDone(now, s, Rounds(now, s, n));
  }

  /** No listed timer is active and due. */
  ghost predicate NoneLeft(now: nat, w: Walk)
    requires Known(w)
  {
    forall t :: t in w.list ==> !(w.timers[t].active && Due(now, w.timers[t]))
  }

  predicate VisitedTimer(now: nat, x: Timer)
  {
    Settled(now, x) || (Sticky(now, x) && x.active)
  }

  /** Timers before the cursor are settled, or sticky and active. */
  ghost predicate Visited(now: nat, w: Walk)
    requires Known(w)
  {
    w.i <= |w.list| && forall j :: 0 <= j < w.i ==> VisitedTimer(now, w.timers[w.list[j]])
  }

  lemma StepVisited(now: nat, w: Walk)
    requires Known(w) && !Over(w) && |w.list| >= 2 && Visited(now, w)
    ensures w.list[w.i] in w.timers && Known(WalkStep(now, w)) && Visited(now, WalkStep(now, w))
  {
    StepFrame(now, w);
    var t := w.list[w.i];
    SameKinds(now, w, t);
    var w' := WalkStep(now, w);
    forall j | 0 <= j < w'.i ensures VisitedTimer(now, w'.timers[w'.list[j]]) {
      if !RestartsHere(now, w) && j < w.i { assert VisitedTimer(now, w.timers[w.list[j]]); }
    }
  }

  lemma {:induction false} RoundsVisited(now: nat, w: Walk, n: nat)
    requires Known(w) && |w.list| >= 2 && Visited(now, w)
    ensures var w' := Rounds(now, w, n);
            && Known(w') && Visited(now, w') && (forall t :: t in w'.list <==> t in w.list)
            && (forall t :: t in w.list ==> (Sticky(now, w'.timers[t]) <==> Sticky(now, w.timers[t])))
    decreases n
  {
    if n > 0 && !Over(w) {
      StepVisited(now, w);
      StepFrame(now, w);
      var w1 := WalkStep(now, w);
      RoundsVisited(now, w1, n - 1);
      forall t | t in w.list ensures Sticky(now, w1.timers[t]) <==> Sticky(now, w.timers[t]) { SameKinds(now, w, t); }
    }
  }

  /** A finished check leaves no timer active and due exactly when no listed timer is sticky, and, when only one timer
      is listed, that one was not active and due: alone on the list it fires but is neither restarted nor switched
      off. */
  lemma NoneLeftIff(now: nat, s: Walk, n: nat)
    requires Fresh(s) && s.list != [] && Over(Rounds(now, s, n))
    ensures Known(Rounds(now, s, n))
    ensures NoneLeft(now, Rounds(now, s, n)) <==>
            if |s.list| == 1 then !(s.timers[s.list[0]].active && Due(now, s.timers[s.list[0]]))
            else forall t :: t in s.list ==> !Sticky(now, s.timers[t])
  {
    var w := Rounds(now, s, n);
    if |s.list| == 1 {
      StepFrame(now, s);
      var w1 := WalkStep(now, s);
      assert Over(w1);
      assert n > 0 && w == Rounds(now, w1, n - 1) == w1;
      assert w.list == [s.list[0]];
    } else {
      RoundsVisited(now, s, n);
      forall t | t in s.list ensures (w.timers[t].active && Due(now, w.timers[t])) <==> Sticky(now, s.timers[t]) {
        assert t in w.list;
        var j: nat :| j < |w.list| && w.list[j] == t;
        assert VisitedTimer(now, w.timers[w.list[j]]);
      }
    }
  }

  /** What one round of the loop needs and gives. */
  lemma RoundHelps(now: nat, w: Walk)
    requires Known(w) && !Over(w) && AtMostOneSticky(now, w)
    ensures w.list[w.i] in w.timers && Known(WalkStep(now, w)) && AtMostOneSticky(now, WalkStep(now, w))
    ensures WalkStep(now, w).i <= |WalkStep(now, w).list| && Below(Rank(now, WalkStep(now, w)), Rank(now, w))
  {
    StepFrame(now, w);
    if |w.list| >= 2 {
      AtMostOneStays(now, w);
      if RestartsHere(now, w) { RestartStepDecreases(now, w); } else { PlainStepDecreases(now, w); }
    }
  }

  class TimerQueue {
    var timers: map<Id, Timer>
    var list: seq<Id>     // __timer_list, from its first element on
    var tick: nat         // sk_tick

    ghost function W(): Walk
      reads this
    {
      Walk(timers, list, 0, [])
    }

    ghost predicate Valid()
      reads this
    {
      Known(W())
    }

    /** sk_timer_start: the timer leaves its place, if any, and goes to the front. */
    method TimerStart(t: Id)
      requires Valid() && t in timers
      modifies this`timers, this`list
      ensures Valid() && list == [t] + Without(old(list), t)
      ensures timers == old(timers)[t := Started(tick, old(timers)[t])]
    {
      WithoutMembers(list, t);
      list := Without(list, t);
      assert t !in list;
      timers := timers[t := timers[t].(timeoutTick := (tick + timers[t].initTick) % TICK_RANGE)];
      timers := timers[t := timers[t].(active := true)];
      list := [t] + list;
    }

    /** sk_timer_stop */
    method TimerStop(t: Id) returns (ok: bool)
      requires Valid() && t in timers
      modifies this`timers, this`list
      ensures Valid() && ok == old(timers)[t].active
      ensures !ok ==> timers == old(timers) && list == old(list)
      ensures ok ==> timers == old(timers)[t := old(timers)[t].(active := false)]
      ensures ok ==> t !in list && list == Without(old(list), t)
    {
      if !timers[t].active { return false; }
      WithoutMembers(list, t);
      timers := timers[t := timers[t].(active := false)];
      list := Without(list, t);
      return true;
    }

    /** The body of the loop. */
    method Visit(i: nat, fired: seq<Id>) returns (i': nat, fired': seq<Id>)
      requires Valid() && i < |list|
      modifies this`timers, this`list
      ensures old(list[i]) in old(timers)
      ensures Walk(timers, list, i', fired') == WalkStep(tick, old(Walk(timers, list, i, fired)))
    {
      var t := list[i];
      assert t in list;
      var x := timers[t];
      i', fired' := i + 1, fired;
      if tick >= x.timeoutTick {
        if x.active { fired' := fired + [t]; }
        if |list| == 1 {
          i' := 1;
        } else if x.periodic {
          TimerStart(t);
          i' := 1;
        } else {
          timers := timers[t := x.(active := false)];
        }
      }
    }

    /** sk_timer_check with timeout functions that leave the timers alone; `fired` are the functions called. */
    method TimerCheck() returns (fired: seq<Id>, ghost n: nat)
      requires Valid() && AtMostOneSticky(tick, W())
      modifies this`timers, this`list
      ensures Valid() && tick == old(tick)
      ensures var w := Rounds(tick, old(W()), n); Over(w) && timers == w.timers && list == w.list && fired == w.fired
    {
      fired, n := [], 0;
      var i: nat := 0;
      ghost var s := W();
      while i < |list|
        invariant i <= |list| && Walk(timers, list, i, fired) == Rounds(tick, s, n)
        invariant AtMostOneSticky(tick, Rounds(tick, s, n))
        decreases Rank(tick, Rounds(tick, s, n)).0, Rank(tick, Rounds(tick, s, n)).1, |list| - i
      {
        ghost var w := Rounds(tick, s, n);
        RoundHelps(tick, w);
        RoundsNext(tick, s, n);
        i, fired := Visit(i, fired);
        n := n + 1;
      }
    }
  }
}
