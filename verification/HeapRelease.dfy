/** A run from the fresh heap on which sk_free takes its release branch: three zones of one class are filled and a
    fourth one opened, then the three are emptied again; the last chunk of the third one meets the guard. */
module HeapRelease {
  import opened Options
  import opened PageRuns
  import opened Seqs
  import opened SizeClasses
  import opened Heap
  import opened HeapInvariant
  import opened HeapSteps
  import opened HeapRuns
  import opened HeapSafety

  /** A run and what it is over: requests of `size` bytes on the heap of cfg. */
  datatype Trace = Trace(cfg: Config, table: nat, size: nat, hs: seq<Heap>, lives: seq<map<int, nat>>, ops: seq<Op>)

  ghost predicate Fresh(r: Trace)
  {
    && r.cfg.Valid() && 0 < r.size < r.cfg.ZoneLimit() <= 16384
    && FreshRun(r.cfg, r.table, iset{r.size}, r.hs, r.lives, r.ops)
  }

  ghost function Last(r: Trace): (h: Heap)
    requires Fresh(r)
  {
    r.hs[|r.ops|]
  }

  ghost function Live(r: Trace): (live: map<int, nat>)
    requires Fresh(r)
  {
    r.lives[|r.ops|]
  }

  lemma StepConfig(sizes: iset<nat>, h: Heap, live: map<int, nat>, op: Op, h': Heap, live': map<int, nat>)
    requires Step(sizes, h, live, op, h', live')
    ensures h'.cfg == h.cfg
  {
  }

  lemma {:induction false} SameConfig(r: Trace, n: nat)
    requires Fresh(r) && n <= |r.ops|
    ensures r.hs[n].cfg == r.cfg
    decreases n
  {
    if n > 0 {
      SameConfig(r, n - 1);
      assert StepAt(iset{r.size}, r.hs, r.lives, r.ops, n - 1);
      StepConfig(iset{r.size}, r.hs[n - 1], r.lives[n - 1], r.ops[n - 1], r.hs[n], r.lives[n]);
    }
  }

  lemma LastSafe(r: Trace)
    requires Fresh(r)
    ensures SafeState(iset{r.size}, Last(r), Live(r)) && Last(r).cfg == r.cfg && Ready(Last(r))
  {
    InitKeeps(r.cfg, r.table, iset{r.size});
    assert Consistent(r.cfg, iset{r.size});
    RunKeepsSafe(iset{r.size}, r.hs, r.lives, r.ops, |r.ops|);
    SameConfig(r, |r.ops|);
    InvReady(Last(r));
  }

  /** One call more. */
  lemma Extend(r: Trace, op: Op, h': Heap, live': map<int, nat>) returns (r': Trace)
    requires Fresh(r) && Step(iset{r.size}, Last(r), Live(r), op, h', live')
    ensures r' == r.(hs := r.hs + [h'], lives := r.lives + [live'], ops := r.ops + [op])
    ensures Fresh(r') && Last(r') == h' && Live(r') == live'
  {
    RunExtends(iset{r.size}, r.hs, r.lives, r.ops, op, h', live');
    r' := r.(hs := r.hs + [h'], lives := r.lives + [live'], ops := r.ops + [op]);
  }

  // ---- filling ----

  ghost function Cls(r: Trace): (c: SizeClass)
    requires Fresh(r)
  {
    ClassOf(r.size)
  }

  /** Zone z serves the class, handed out m chunks, and none came back. */
  ghost predicate Handed(r: Trace, z: int, m: int)
    requires Fresh(r)
  {
    var h := Last(r);
    z in h.zones && h.zones[z].Active? && h.zones[z].cls == Cls(r) && |h.zones[z].handed| == m && h.zones[z].freed == []
  }

  ghost predicate Full(r: Trace, z: int)
    requires Fresh(r)
  {
    Handed(r, z, NMax(r.cfg, Cls(r)))
  }

  ghost function List(r: Trace): (l: seq<int>)
    requires Fresh(r)
  {
    if |Last(r).lists| == NUM_ZONES then Last(r).lists[Cls(r).index] else []
  }

  /** The free pages are lo, ..., hi - 1, and no zone is cached. */
  ghost predicate Room(r: Trace, lo: int, hi: int)
    requires Fresh(r)
  {
    FreePages(Last(r)) == Span(lo, hi) && Last(r).cache == []
  }

  lemma FirstInSpan(lo: int, hi: int, n: nat)
    requires n > 0 && lo + n <= hi
    ensures FirstFit(Span(lo, hi), n) == Some(lo)
  {
    assert Contiguous(Span(lo, hi), lo, n);
    forall q: int | q < lo ensures !Contiguous(Span(lo, hi), q, n) { assert q !in Span(lo, hi); }
    assert IsFirstFit(Span(lo, hi), n, lo);
    FirstFitUnique(Span(lo, hi), n, lo, FirstFit(Span(lo, hi), n).value);
  }

  /** The heap after the carve. */
  lemma OpenFacts(h: Heap, cls: SizeClass, lo: int, hi: int)
    requires h.cfg.Valid() && |h.lists| == NUM_ZONES && 0 <= cls.index < NUM_ZONES && h.lists[cls.index] == []
    requires h.cache == [] && FreePages(h) == Span(lo, hi) && lo + h.cfg.zonePages <= hi
    ensures var h' := NewZone(h, cls, Some(lo)).0;
            && NewZone(h, cls, Some(lo)).1 == Some(Base(lo, cls))
            && h'.lists == h.lists[cls.index := [lo]] && h'.cache == [] && h'.cacheCount == h.cacheCount
            && h'.zones == h.zones[lo := Active(cls, [Base(lo, cls)], [])]
            && FreePages(h') == Span(lo + h.cfg.zonePages, hi)
  {
    var h' := NewZone(h, cls, Some(lo)).0;
    assert [lo] + h.lists[cls.index] == [lo];
    forall p: int ensures p in FreePages(h') <==> p in Span(lo + h.cfg.zonePages, hi) {
      assert p in FreePages(h) <==> p in Span(lo, hi);
    }
  }

  /** The run goes on over the same heap, and every full zone but z stays full. */
  ghost predicate SameFrame(r: Trace, r': Trace, z: int)
  {
    && Fresh(r) && Fresh(r') && r'.cfg == r.cfg && r'.table == r.table && r'.size == r.size
    && (forall y: int :: y != z && Full(r, y) ==> Full(r', y))
    && forall y: int :: y != z && y in Last(r).zones && Last(r).zones[y].Active? ==>
         y in Last(r').zones && Last(r').zones[y].Active?
  }

  lemma OpenZoneFor(r: Trace, lo: int, hi: int) returns (r': Trace)
    requires Fresh(r) && Room(r, lo, hi) && List(r) == [] && lo + r.cfg.zonePages <= hi
    ensures SameFrame(r, r', lo) && Room(r', lo + r.cfg.zonePages, hi)
    ensures Handed(r', lo, 1) && List(r') == [lo] && lo !in Last(r).zones
  {
    LastSafe(r);
    var h, cls := Last(r), Cls(r);
    FirstInSpan(lo, hi, r.cfg.zonePages);
    assert Contiguous(FreePages(h), lo, h.cfg.zonePages);
    OwnersAfterCarve(h, lo);
    OpenFacts(h, cls, lo, hi);
    assert Malloc(h, r.size) == NewZone(h, cls, Some(lo));
    var (h', a) := NewZone(h, cls, Some(lo));
    r' := Extend(r, DoMalloc(r.size), h', Live(r)[a.value := Reserved(h.cfg, r.size)]);
  }

  lemma TakeOne(r: Trace, z: int, m: nat) returns (r': Trace)
    requires Fresh(r) && Handed(r, z, m) && List(r) == [z] && 0 < m < NMax(r.cfg, Cls(r))
    ensures SameFrame(r, r', z) && Handed(r', z, m + 1)
    ensures List(r') == if m + 1 == NMax(r.cfg, Cls(r)) then [] else [z]
    ensures Last(r').owner == Last(r).owner && Last(r').cache == Last(r).cache
  {
    LastSafe(r);
    var h, cls := Last(r), Cls(r);
    var (h', a) := TakeChunk(h, cls);
    assert Malloc(h, r.size) == TakeChunk(h, cls);
    assert h.lists[cls.index][1..] == [];
    r' := Extend(r, DoMalloc(r.size), h', Live(r)[a.value := Reserved(h.cfg, r.size)]);
  }

  lemma {:induction false} TakeRest(r: Trace, z: int, m: nat) returns (r': Trace)
    requires Fresh(r) && Handed(r, z, m) && List(r) == [z] && 0 < m < NMax(r.cfg, Cls(r))
    ensures SameFrame(r, r', z) && Full(r', z) && List(r') == []
    ensures Last(r').owner == Last(r).owner && Last(r').cache == Last(r).cache
    decreases NMax(r.cfg, Cls(r)) - m
  {
    r' := TakeOne(r, z, m);
    if m + 1 < NMax(r.cfg, Cls(r)) { r' := TakeRest(r', z, m + 1); }
  }

  lemma ThreeChunks(r: Trace)
    requires Fresh(r)
    ensures 3 <= NMax(r.cfg, Cls(r))
  {
    RequestClassOk(r.cfg, r.size);
    ZoneLayout(r.cfg.ZoneSize(), Cls(r).off, Cls(r).chunk);
  }

  lemma SameFree(r: Trace, r': Trace)
    requires Fresh(r) && Fresh(r') && Last(r').owner == Last(r).owner
    ensures FreePages(Last(r')) == FreePages(Last(r))
  {
  }

  /** A whole zone is opened and filled. */
  lemma FillZone(r: Trace, lo: int, hi: int) returns (r': Trace)
    requires Fresh(r) && Room(r, lo, hi) && List(r) == [] && lo + r.cfg.zonePages <= hi
    ensures SameFrame(r, r', lo) && Room(r', lo + r.cfg.zonePages, hi) && Full(r', lo) && List(r') == []
  {
    ThreeChunks(r);
    var r1 := OpenZoneFor(r, lo, hi);
    r' := TakeRest(r1, lo, 1);
    SameFree(r1, r');
  }

  // ---- emptying ----

  /** Zone z handed out all its chunks and got f of them back. */
  ghost predicate Back(r: Trace, z: int, f: int)
    requires Fresh(r)
  {
    var h := Last(r);
    && z in h.zones && h.zones[z].Active? && h.zones[z].cls == Cls(r)
    && |h.zones[z].handed| == NMax(r.cfg, Cls(r)) && |h.zones[z].freed| == f
  }

  /** Some chunk of the zone is still in use, and sk_free finds its zone. */
  lemma InUseChunk(r: Trace, z: int, f: nat) returns (p: int)
    requires Fresh(r) && Back(r, z, f) && f < NMax(r.cfg, Cls(r))
    ensures InUse(Last(r).zones[z], p) && p in Live(r) && CanFree(Last(r), p)
    ensures Last(r).owner[p / PAGE] == InZone(z)
  {
    LastSafe(r);
    var h := Last(r);
    var zone := h.zones[z];
    assert ZoneOk(h.cfg, z, zone);
    HandedNoDup(h.cfg, z, zone);
    if Inside(zone.handed, zone.freed) { Pigeonhole(zone.handed, zone.freed); }
    p :| p in zone.handed && p !in zone.freed;
    ChunkOwner(h, z, zone, p);
    assert LiveSize(h, p) == Some(zone.cls.chunk);
    assert LiveSize(h, p) == if p in Live(r) then Some(Live(r)[p]) else None;
    FreeEnabled(iset{r.size}, h, Live(r), p);
  }

  /** What a push does to the zone and its list. */
  lemma PushFacts(r: Trace, z: int, d: int, f: nat, p: int)
    requires Fresh(r) && Back(r, z, f) && f < NMax(r.cfg, Cls(r)) && z != d && 0 <= Cls(r).index < |Last(r).lists|
    requires Last(r).lists[Cls(r).index] == if f == 0 then [d] else [z, d]
    requires Last(r).cfg == r.cfg
    ensures var h1 := PushChunk(Last(r), z, p);
            && h1.zones == Last(r).zones[z := Last(r).zones[z].(freed := [p] + Last(r).zones[z].freed)]
            && h1.lists == Last(r).lists[Cls(r).index := [z, d]] && h1.cache == Last(r).cache
            && h1.cacheCount == Last(r).cacheCount && h1.cfg == r.cfg && h1.owner == Last(r).owner
            && (Retires(h1, z) <==> f + 1 == NMax(r.cfg, Cls(r)))
  {
    var h, i := Last(r), Cls(r).index;
    if f == 0 { assert [z] + h.lists[i] == [z, d]; } else { assert h.lists[i := [z, d]] == h.lists; }
  }

  lemma FreeOne(r: Trace, z: int, d: int, f: nat) returns (r': Trace)
    requires Fresh(r) && Back(r, z, f) && f + 1 < NMax(r.cfg, Cls(r)) && z != d
    requires List(r) == if f == 0 then [d] else [z, d]
    ensures SameFrame(r, r', z) && Back(r', z, f + 1) && List(r') == [z, d] && Last(r').cache == Last(r).cache
  {
    LastSafe(r);
    var p := InUseChunk(r, z, f);
    var h := Last(r);
    PushFacts(r, z, d, f, p);
    assert FreeBlock(h, p) == PushChunk(h, z, p);
    r' := Extend(r, DoFree(p), FreeBlock(h, p), Live(r) - {p});
  }

  lemma {:induction false} FreeMost(r: Trace, z: int, d: int, f: nat) returns (r': Trace)
    requires Fresh(r) && Back(r, z, f) && f < NMax(r.cfg, Cls(r)) && 1 < NMax(r.cfg, Cls(r)) && z != d
    requires List(r) == if f == 0 then [d] else [z, d]
    ensures SameFrame(r, r', z) && Back(r', z, NMax(r.cfg, Cls(r)) - 1) && List(r') == [z, d]
    ensures Last(r').cache == Last(r).cache
    decreases NMax(r.cfg, Cls(r)) - f
  {
    if f + 1 == NMax(r.cfg, Cls(r)) {
      r' := r;
    } else {
      r' := FreeOne(r, z, d, f);
      r' := FreeMost(r', z, d, f + 1);
    }
  }

  /** What the free of the last chunk does while fewer than two zones are cached. */
  lemma RetireFacts(r: Trace, z: int, d: int, p: int)
    requires Fresh(r) && Back(r, z, NMax(r.cfg, Cls(r)) - 1) && 1 < NMax(r.cfg, Cls(r)) && z != d
    requires 0 <= Cls(r).index < |Last(r).lists| == NUM_ZONES && Last(r).lists[Cls(r).index] == [z, d]
    requires Last(r).cfg == r.cfg && CanFree(Last(r), p) && Last(r).owner[p / PAGE] == InZone(z)
    requires Last(r).cacheCount == |Last(r).cache| < RELEASE_NUM
    ensures var h' := FreeBlock(Last(r), p);
            && !ReleaseGuard(Last(r), p)
            && |h'.lists| == NUM_ZONES && h'.lists[Cls(r).index] == [d] && |h'.cache| == |Last(r).cache| + 1
            && forall y: int :: y != z && y in Last(r).zones ==> y in h'.zones && h'.zones[y] == Last(r).zones[y]
  {
    PushFacts(r, z, d, NMax(r.cfg, Cls(r)) - 1, p);
    var h1 := PushChunk(Last(r), z, p);
    assert FreeBlock(Last(r), p) == Retire(h1, z);
    assert Without([z, d], z) == [d];
  }

  /** The last chunk retires the zone while fewer than two are cached. */
  lemma FreeLast(r: Trace, z: int, d: int) returns (r': Trace)
    requires Fresh(r) && Back(r, z, NMax(r.cfg, Cls(r)) - 1) && 1 < NMax(r.cfg, Cls(r)) && z != d && List(r) == [z, d]
    requires |Last(r).cache| < RELEASE_NUM
    ensures SameFrame(r, r', z) && List(r') == [d] && |Last(r').cache| == |Last(r).cache| + 1
  {
    LastSafe(r);
    var p := InUseChunk(r, z, NMax(r.cfg, Cls(r)) - 1);
    RetireFacts(r, z, d, p);
    r' := Extend(r, DoFree(p), FreeBlock(Last(r), p), Live(r) - {p});
  }

  lemma DrainZone(r: Trace, z: int, d: int) returns (r': Trace)
    requires Fresh(r) && Full(r, z) && z != d && List(r) == [d] && |Last(r).cache| < RELEASE_NUM
    ensures SameFrame(r, r', z) && List(r') == [d] && |Last(r').cache| == |Last(r).cache| + 1
  {
    ThreeChunks(r);
    var r1 := FreeMost(r, z, d, 0);
    r' := FreeLast(r1, z, d);
  }

  // ---- the run ----

  /** Three full zones a, b, c and the open zone d. */
  lemma FourZones(cfg: Config, table: nat, size: nat) returns (r: Trace, a: int, b: int, c: int, d: int)
    requires cfg.Valid() && 0 < size < cfg.ZoneLimit() && table + 4 * cfg.zonePages <= cfg.npages
    ensures Fresh(r) && r.cfg == cfg && r.table == table && r.size == size
    ensures a < b < c < d && Full(r, a) && Full(r, b) && Full(r, c) && List(r) == [d] && Last(r).cache == []
  {
    LimitBounds(cfg);
    var h := InitHeap(cfg, table);
    r := Trace(cfg, table, size, [h], [map[]], []);
    var n, hi := cfg.zonePages, cfg.first + cfg.npages;
    a := cfg.first + table;
    b, c, d := a + n, a + n + n, a + n + n + n;
    assert FreePages(h) == Span(a, hi);
    var r1 := FillZone(r, a, hi);
    var r2 := FillZone(r1, b, hi);
    var r3 := FillZone(r2, c, hi);
    r := OpenZoneFor(r3, d, hi);
  }

  /** The release branch is taken in practice: for every request size served from zones, on every heap with room for
      four zones, some run from the fresh heap leads to a sk_free that meets the guard and breaks the heap. */
  lemma ReleaseReached(cfg: Config, table: nat, size: nat)
    returns (hs: seq<Heap>, lives: seq<map<int, nat>>, ops: seq<Op>, p: int)
    requires cfg.Valid() && 0 < size < cfg.ZoneLimit() && table + 4 * cfg.zonePages <= cfg.npages
    ensures FreshRun(cfg, table, iset{size}, hs, lives, ops) && p in lives[|ops|]
    ensures CanFree(hs[|ops|], p) && ReleaseGuard(hs[|ops|], p) && !Inv(FreeBlock(hs[|ops|], p))
  {
    var r, a, b, c, d := FourZones(cfg, table, size);
    ThreeChunks(r);
    var r1 := DrainZone(r, a, d);
    var r2 := DrainZone(r1, b, d);
    var r3 := FreeMost(r2, c, d, 0);
    LastSafe(r3);
    var f := NMax(cfg, Cls(r3)) - 1;
    p := InUseChunk(r3, c, f);
    PushFacts(r3, c, d, f, p);
    hs, lives, ops := r3.hs, r3.lives, r3.ops;
    ReleaseBreaks(Last(r3), p);
  }
}
