/** Safety of whole runs of sk_malloc and sk_free, and the two conditions it hangs on. */
module HeapSafety {
  import opened Options
  import opened Arith
  import opened Bits
  import opened PageRuns
  import opened SizeClasses
  import opened Heap
  import opened HeapInvariant
  import opened HeapSteps
  import opened HeapRuns

  /** The heap after sk_system_mem_init: the usage table takes the first `table` pages. */
  function InitHeap(cfg: Config, table: nat): (h: Heap)
  {
    var pages := Span(cfg.first, cfg.first + cfg.npages);
    Heap(cfg, map p | p in pages :: if p < cfg.first + table then Table else Free,
         map[], map[], seq(NUM_ZONES, _ => []), [], 0)
  }

  lemma InitKeeps(cfg: Config, table: nat, sizes: iset<nat>)
    requires cfg.Valid()
    ensures Inv(InitHeap(cfg, table)) && ClassesFrom(InitHeap(cfg, table), sizes)
    ensures forall p: int :: LiveSize(InitHeap(cfg, table), p) == None
  {
  }

  datatype Op = DoMalloc(size: nat) | DoFree(p: int)

  /** One call of a client that holds the blocks `live` (address to bytes), requests sizes from `sizes`
      and frees only what it holds. */
  ghost predicate Step(sizes: iset<nat>, h: Heap, live: map<int, nat>, op: Op, h': Heap, live': map<int, nat>)
  {
    match op
    case DoMalloc(s) =>
      && s in sizes && s < WORD && Ready(h) && h.cfg.Valid()
      && var (h1, a) := Malloc(h, s);
         h' == h1 && live' == if a.Some? && s > 0 then live[a.value := Reserved(h.cfg, s)] else live
    case DoFree(p) =>
      && p in live && CanFree(h, p) && !ReleaseGuard(h, p)
      && h' == FreeBlock(h, p) && live' == live - {p}
  }

  ghost predicate StepAt(sizes: iset<nat>, hs: seq<Heap>, lives: seq<map<int, nat>>, ops: seq<Op>, i: nat)
    requires i < |ops| < |hs| && i + 1 < |lives|
  {
    Step(sizes, hs[i], lives[i], ops[i], hs[i + 1], lives[i + 1])
  }

  ghost predicate IsRun(sizes: iset<nat>, hs: seq<Heap>, lives: seq<map<int, nat>>, ops: seq<Op>)
  {
    && |hs| == |lives| == |ops| + 1
    && forall i: nat :: i < |ops| ==> StepAt(sizes, hs, lives, ops, i)
  }

  /** One call more. */
  lemma RunExtends(sizes: iset<nat>, hs: seq<Heap>, lives: seq<map<int, nat>>, ops: seq<Op>, op: Op, h': Heap,
                   live': map<int, nat>)
    requires IsRun(sizes, hs, lives, ops) && Step(sizes, hs[|ops|], lives[|ops|], op, h', live')
    ensures IsRun(sizes, hs + [h'], lives + [live'], ops + [op])
  {
    var hs', lives', ops' := hs + [h'], lives + [live'], ops + [op];
    forall i: nat | i < |ops'| ensures StepAt(sizes, hs', lives', ops', i) {
      assert hs'[i] == hs[i] && lives'[i] == lives[i];
      if i < |ops| { assert StepAt(sizes, hs, lives, ops, i); }
    }
  }

  /** The allocator's book-keeping agrees with what the client holds. */
  ghost predicate Tracks(h: Heap, live: map<int, nat>)
  {
    forall p: int :: LiveSize(h, p) == if p in live then Some(live[p]) else None
  }

  ghost predicate SafeState(sizes: iset<nat>, h: Heap, live: map<int, nat>)
  {
    Inv(h) && ClassesFrom(h, sizes) && Consistent(h.cfg, sizes) && Tracks(h, live)
  }

  ghost predicate Disjoint(live: map<int, nat>)
  {
    forall p: int, q: int :: p in live && q in live && p < q ==> p + live[p] <= q
  }

  ghost predicate ByteClear(h: Heap, a: int)
  {
    && h.cfg.first * PAGE <= a < (h.cfg.first + h.cfg.npages) * PAGE
    && a / PAGE in h.owner && !h.owner[a / PAGE].Free? && !h.owner[a / PAGE].Table?
    && forall z: int :: z in h.zones ==> !(z * PAGE <= a < z * PAGE + ZONE_HEADER)
  }

  /** The client's blocks are pairwise disjoint, inside the heap, and clear of free pages, of the usage table
      and of every zone header. */
  ghost predicate Clear(h: Heap, live: map<int, nat>)
  {
    forall p: int, a: int :: p in live && p <= a < p + live[p] ==> ByteClear(h, a)
  }

  lemma SafeMeansDisjoint(sizes: iset<nat>, h: Heap, live: map<int, nat>)
    requires SafeState(sizes, h, live)
    ensures Disjoint(live) && Clear(h, live)
  {
    forall p: int, q: int | p in live && q in live && p < q ensures p + live[p] <= q {
      assert LiveSize(h, p) == Some(live[p]) && LiveSize(h, q) == Some(live[q]);
      LiveDisjoint(h, p, q);
    }
    forall p: int, a: int | p in live && p <= a < p + live[p] ensures ByteClear(h, a) {
      assert LiveSize(h, p) == Some(live[p]);
      LiveClear(h, p, a);
    }
  }

  lemma MallocStepSafe(sizes: iset<nat>, h: Heap, live: map<int, nat>, s: nat, h': Heap, live': map<int, nat>)
    requires SafeState(sizes, h, live) && Step(sizes, h, live, DoMalloc(s), h', live')
    ensures SafeState(sizes, h', live')
  {
    MallocKeeps(h, s, sizes);
    var a := Malloc(h, s).1;
    if a.Some? {
      forall p: int ensures LiveSize(h', p) == if p in live' then Some(live'[p]) else None {
        assert LiveSize(h, p) == if p in live then Some(live[p]) else None;
      }
    }
  }

  lemma ClassesShrink(h: Heap, p: int, sizes: iset<nat>)
    requires ClassesFrom(h, sizes) && CanFree(h, p)
    ensures ClassesFrom(FreeBlock(h, p), sizes) && FreeBlock(h, p).cfg == h.cfg
  {
    var h' := FreeBlock(h, p);
    forall z: int | z in h'.zones && h'.zones[z].Active? ensures Serves(h'.cfg, h'.zones[z].cls, sizes) {
      assert z in h.zones && h.zones[z].Active? && h.zones[z].cls == h'.zones[z].cls;
    }
  }

  lemma FreeStepSafe(sizes: iset<nat>, h: Heap, live: map<int, nat>, p: int, h': Heap, live': map<int, nat>)
    requires SafeState(sizes, h, live) && Step(sizes, h, live, DoFree(p), h', live')
    ensures SafeState(sizes, h', live')
  {
    assert LiveSize(h, p).Some?;
    FreeBlockKeeps(h, p);
    ClassesShrink(h, p, sizes);
    forall q: int ensures LiveSize(h', q) == if q in live' then Some(live'[q]) else None {
      assert LiveSize(h, q) == if q in live then Some(live[q]) else None;
    }
  }

  /** Freeing a block the client holds is always possible. */
  lemma FreeEnabled(sizes: iset<nat>, h: Heap, live: map<int, nat>, p: int)
    requires SafeState(sizes, h, live) && p in live
    ensures CanFree(h, p)
  {
    assert LiveSize(h, p).Some?;
    FreeBlockKeeps(h, p);
  }

  lemma StepSafe(sizes: iset<nat>, h: Heap, live: map<int, nat>, op: Op, h': Heap, live': map<int, nat>)
    requires SafeState(sizes, h, live) && Step(sizes, h, live, op, h', live')
    ensures SafeState(sizes, h', live')
  {
    match op
    case DoMalloc(s) => MallocStepSafe(sizes, h, live, s, h', live');
    case DoFree(p) => FreeStepSafe(sizes, h, live, p, h', live');
  }

  lemma {:induction false} RunKeepsSafe(sizes: iset<nat>, hs: seq<Heap>, lives: seq<map<int, nat>>, ops: seq<Op>,
                                        k: nat)
    requires IsRun(sizes, hs, lives, ops) && SafeState(sizes, hs[0], lives[0]) && k <= |ops|
    ensures SafeState(sizes, hs[k], lives[k])
    decreases k
  {
    if k > 0 {
      RunKeepsSafe(sizes, hs, lives, ops, k - 1);
      var i := k - 1;
      assert StepAt(sizes, hs, lives, ops, i);
      StepSafe(sizes, hs[i], lives[i], ops[i], hs[i + 1], lives[i + 1]);
    }
  }

  /** Every run over consistent sizes from a fresh heap: at every moment the blocks the client holds are
      pairwise disjoint, inside the heap, and clear of headers, usage table and free pages. */
  lemma RunSafe(sizes: iset<nat>, cfg: Config, table: nat, hs: seq<Heap>, lives: seq<map<int, nat>>, ops: seq<Op>,
                k: nat)
    requires cfg.Valid() && Consistent(cfg, sizes)
    requires IsRun(sizes, hs, lives, ops) && hs[0] == InitHeap(cfg, table) && lives[0] == map[] && k <= |ops|
    ensures Disjoint(lives[k]) && Clear(hs[k], lives[k])
  {
    InitKeeps(cfg, table, sizes);
    RunKeepsSafe(sizes, hs, lives, ops, k);
    SafeMeansDisjoint(sizes, hs[k], lives[k]);
  }

  // ---- alignment ----

  lemma MultipleSum(z: int, page: nat, off: nat, i: int, c: nat)
    requires c > 0 && page % c == 0 && off % c == 0
    ensures (z * page + off + i * c) % c == 0
  {
    var q, r := page / c, off / c;
    assert page == q * c && off == r * c;
    assert z * page + off + i * c == (z * q + r + i) * c;
    DivMod(z * page + off + i * c, c, z * q + r + i, 0);
  }

  lemma PowerBelowPage(k: nat)
    requires Pow2(k) <= PAGE
    ensures k <= 12
  {
    SmallPowers();
    Pow2Step(12);
    if k > 12 { Pow2Monotone(13, k); }
  }

  lemma PowerDividesPage(k: nat)
    requires Pow2(k) <= PAGE
    ensures PAGE % Pow2(k) == 0
  {
    SmallPowers();
    PowerBelowPage(k);
    Pow2Add(12 - k, k);
    DivMod(PAGE, Pow2(k), Pow2(12 - k), 0);
  }

  lemma TableOfEights(i: nat)
    requires i < NUM_ZONES
    ensures TableChunk(i) % 8 == 0
  {
    TableOctave(i);
  }

  lemma EightAligned(z: int, cls: SizeClass, i: int)
    requires cls.off % 8 == 0 && cls.chunk % 8 == 0
    ensures ChunkAddr(z, cls, i) % 8 == 0
  {
    MultipleSum(z, PAGE, cls.off, i * (cls.chunk / 8), 8);
    assert i * cls.chunk == i * (cls.chunk / 8) * 8;
  }

  lemma SizeAligned(z: int, cls: SizeClass, i: int, k: nat)
    requires 8 <= cls.chunk == Pow2(k) <= PAGE && cls.off == ChunkOffset(cls.chunk)
    ensures ChunkAddr(z, cls, i) % cls.chunk == 0
  {
    OffsetExact(cls.chunk);
    PowerDividesPage(k);
    MultipleSum(z, PAGE, cls.off, i, cls.chunk);
  }

  lemma RegularEights(size: nat)
    requires 0 < size < 16384 && !Misrounded(size)
    ensures ClassOf(size).chunk % 8 == 0
  {
    ZoneIndexIsBestFit(size);
    TableOfEights(ClassOf(size).index);
  }

  /** Every chunk of a zone set up for a regular size lies on a multiple of 8, and one of a power of two bytes, up to a
      page, on a multiple of its size. */
  lemma ChunkAligned(z: int, size: nat, i: int)
    requires 0 < size < 16384
    ensures !Misrounded(size) ==> ChunkAddr(z, ClassOf(size), i) % 8 == 0
    ensures (exists k: nat :: ClassOf(size).chunk == Pow2(k)) && ClassOf(size).chunk <= PAGE ==>
              ChunkAddr(z, ClassOf(size), i) % ClassOf(size).chunk == 0
  {
    if !Misrounded(size) {
      RegularEights(size);
      EightAligned(z, ClassOf(size), i);
    }
    if k: nat :| ClassOf(size).chunk == Pow2(k) && ClassOf(size).chunk <= PAGE { SizeAligned(z, ClassOf(size), i, k); }
  }

  lemma PagesAligned(b: int, n: nat)
    requires n > 0
    ensures b * PAGE % 8 == 0 && (n * PAGE <= PAGE ==> b * PAGE % (n * PAGE) == 0)
  {
    if n > 1 { MulLe(2, n, PAGE); }
  }

  /** The size a chunk in use was handed out for, and its number. */
  lemma LiveChunk(h: Heap, sizes: iset<nat>, p: int, z: int) returns (s: nat, i: int)
    requires Inv(h) && ClassesFrom(h, sizes) && LiveSize(h, p).Some? && h.owner[p / PAGE] == InZone(z)
    ensures s in sizes && 0 < s < 16384 && LiveSize(h, p).value == ClassOf(s).chunk && p == ChunkAddr(z, ClassOf(s), i)
  {
    var zone := h.zones[z];
    i :| 0 <= i < |zone.handed| && zone.handed[i] == p;
    assert ZoneOk(h.cfg, z, zone);
    s :| s in sizes && 0 < s < h.cfg.ZoneLimit() <= 16384 && ClassOf(s) == zone.cls;
  }

  /** The same for a block in use, page blocks included. */
  lemma LiveAligned(h: Heap, sizes: iset<nat>, p: int)
    requires Inv(h) && ClassesFrom(h, sizes) && LiveSize(h, p).Some?
    ensures (forall s :: s in sizes ==> !Misrounded(s)) ==> p % 8 == 0
    ensures var n := LiveSize(h, p).value; (exists k: nat :: n == Pow2(k)) && n <= PAGE ==> n > 0 && p % n == 0
  {
    LiveGeometry(h, p);
    match h.owner[p / PAGE]
    case InZone(z) =>
      var s, i := LiveChunk(h, sizes, p, z);
      ChunkAligned(z, s, i);
    case Large(b) => PagesAligned(b, h.large[b]);
  }

  /** Over every run from a fresh heap: without odd sizes between 1024 and 2047 all blocks lie on multiples of 8, and a
      block of a power of two reserved bytes, up to a page, lies on a multiple of its size. */
  lemma RunAligned(sizes: iset<nat>, cfg: Config, table: nat, hs: seq<Heap>, lives: seq<map<int, nat>>, ops: seq<Op>,
                   i: nat, p: int)
    requires cfg.Valid() && Consistent(cfg, sizes)
    requires IsRun(sizes, hs, lives, ops) && hs[0] == InitHeap(cfg, table) && lives[0] == map[] && i <= |ops|
    requires p in lives[i]
    ensures (forall s :: s in sizes ==> !Misrounded(s)) ==> p % 8 == 0
    ensures var n := lives[i][p]; (exists k: nat :: n == Pow2(k)) && n <= PAGE ==> n > 0 && p % n == 0
  {
    InitKeeps(cfg, table, sizes);
    RunKeepsSafe(sizes, hs, lives, ops, i);
    assert LiveSize(hs[i], p) == Some(lives[i][p]);
    LiveAligned(hs[i], sizes, p);
  }

  // ---- the release branch ----

  lemma HeadOffPage(cache: seq<int>, a: int, rest: seq<int>)
    requires cache == [a - ZONE_HEADER] + rest && a % PAGE == 0
    ensures cache != [] && cache[0] % PAGE != 0
  {
    assert cache[0] == a - ZONE_HEADER;
  }

  lemma ReleasedList(h: Heap, z: int, p: int)
    requires z in h.zones && h.zones[z].Active? && 0 <= h.zones[z].cls.index < |h.lists|
    requires |h.cache| >= h.cacheCount >= RELEASE_NUM && Retires(PushChunk(h, z, p), z)
    ensures FreeChunk(h, z, p).cache == [h.cache[0] - ZONE_HEADER] + h.cache[1..]
  {
  }

  lemma ReleasedCache(h: Heap, z: int, p: int)
    requires z in h.zones && h.zones[z].Active? && 0 <= h.zones[z].cls.index < |h.lists|
    requires |h.cache| >= h.cacheCount >= RELEASE_NUM && Retires(PushChunk(h, z, p), z) && h.cache[0] % PAGE == 0
    ensures var h' := FreeChunk(h, z, p); h'.cache != [] && h'.cache[0] % PAGE != 0
  {
    ReleasedList(h, z, p);
    HeadOffPage(FreeChunk(h, z, p).cache, h.cache[0], h.cache[1..]);
  }

  lemma BadCache(h: Heap)
    requires h.cache != [] && h.cache[0] % PAGE != 0
    ensures !CachedAt(h.zones, h.cache[0]) && !Inv(h)
  {
    assert h.cache[0] in h.cache;
  }

  /** In the release branch `--sys_zone_free` leaves the cache list at an address that is no zone. */
  lemma ReleaseBreaks(h: Heap, p: int)
    requires Inv(h) && CanFree(h, p) && ReleaseGuard(h, p)
    ensures var h' := FreeBlock(h, p); h'.cache != [] && !CachedAt(h'.zones, h'.cache[0]) && !Inv(h')
  {
    assert h.cache[0] in h.cache && CachedAt(h.zones, h.cache[0]);
    ReleasedCache(h, h.owner[p / PAGE].zone, p);
    BadCache(FreeBlock(h, p));
  }

  /** sk_free keeps the invariant exactly when it does not take the release branch. */
  lemma FreeKeepsIff(h: Heap, p: int)
    requires Inv(h) && LiveSize(h, p).Some?
    ensures CanFree(h, p)
    ensures Inv(FreeBlock(h, p)) <==> !ReleaseGuard(h, p)
  {
    FreeBlockKeeps(h, p);
    if ReleaseGuard(h, p) { ReleaseBreaks(h, p); }
  }

  // ---- inconsistent sizes ----

  /** Only class i has a zone, z, and none of its chunks came back yet. */
  ghost predicate OneZone(h: Heap, i: int, z: int)
  {
    && h.cfg.Valid() && |h.lists| == NUM_ZONES && 0 <= i < NUM_ZONES && h.lists[i] == [z]
    && (forall k: int :: 0 <= k < NUM_ZONES && k != i ==> h.lists[k] == [])
    && z in h.zones && h.zones[z].Active? && h.zones[z].freed == []
    && |h.zones[z].handed| < NMax(h.cfg, h.zones[z].cls)
  }

  lemma OneZoneReady(h: Heap, i: int, z: int)
    requires OneZone(h, i, z)
    ensures Ready(h)
  {
    forall k: int | 0 <= k < NUM_ZONES && h.lists[k] != [] ensures CanTake(h, h.lists[k][0]) { assert k == i; }
  }

  lemma TakeFromOneZone(h: Heap, z: int, cls: SizeClass)
    requires OneZone(h, cls.index, z) && Ready(h)
    ensures var (h', a) := TakeChunk(h, cls);
            && a == Some(Base(z, h.zones[z].cls) + |h.zones[z].handed| * cls.chunk)
            && h'.cfg == h.cfg && z in h'.zones && h'.zones[z] == h.zones[z].(handed := h.zones[z].handed + [a.value])
            && (NFree(h.cfg, h.zones[z]) > 1 ==> OneZone(h', cls.index, z))
  {
  }

  /** A request served by the only zone, as a step of a run. */
  lemma OneZoneStep(sizes: iset<nat>, h: Heap, live: map<int, nat>, z: int, size: nat) returns (h': Heap, a: int)
    requires h.cfg.Valid() && size in sizes && 0 < size < h.cfg.ZoneLimit() <= 16384
    requires OneZone(h, ClassOf(size).index, z)
    ensures a == Base(z, h.zones[z].cls) + |h.zones[z].handed| * ClassOf(size).chunk
    ensures h'.cfg == h.cfg && z in h'.zones && h'.zones[z] == h.zones[z].(handed := h.zones[z].handed + [a])
    ensures NFree(h.cfg, h.zones[z]) > 1 ==> OneZone(h', ClassOf(size).index, z)
    ensures Step(sizes, h, live, DoMalloc(size), h', live[a := ClassOf(size).chunk])
  {
    var cls := ClassOf(size);
    OneZoneReady(h, cls.index, z);
    TakeFromOneZone(h, z, cls);
    h', a := TakeChunk(h, cls).0, TakeChunk(h, cls).1.value;
    assert Malloc(h, size) == TakeChunk(h, cls);
    assert Reserved(h.cfg, size) == cls.chunk;
  }

  lemma FirstZone(cfg: Config, table: nat) returns (z: int)
    requires cfg.Valid() && table + cfg.zonePages <= cfg.npages
    ensures Ready(InitHeap(cfg, table)) && FirstFit(FreePages(InitHeap(cfg, table)), cfg.zonePages) == Some(z)
  {
    var h := InitHeap(cfg, table);
    InitKeeps(cfg, table, iset{});
    InvReady(h);
    assert Contiguous(FreePages(h), cfg.first + table, cfg.zonePages);
    FirstFitComplete(h, cfg.zonePages);
    z := FirstFit(FreePages(h), cfg.zonePages).value;
  }

  lemma OpenFirstZone(sizes: iset<nat>, cfg: Config, table: nat, s: nat) returns (h': Heap, z: int)
    requires cfg.Valid() && table + cfg.zonePages <= cfg.npages && s in sizes && 0 < s < cfg.ZoneLimit() <= 16384
    ensures h'.cfg == cfg && OneZone(h', ClassOf(s).index, z) && NMax(cfg, ClassOf(s)) >= 3
    ensures h'.zones[z] == Active(ClassOf(s), [Base(z, ClassOf(s))], [])
    ensures Step(sizes, InitHeap(cfg, table), map[], DoMalloc(s), h', map[Base(z, ClassOf(s)) := ClassOf(s).chunk])
  {
    var h, cls := InitHeap(cfg, table), ClassOf(s);
    z := FirstZone(cfg, table);
    RequestClassOk(cfg, s);
    ZoneLayout(cfg.ZoneSize(), cls.off, cls.chunk);
    h' := NewZone(h, cls, Some(z)).0;
    assert Malloc(h, s) == NewZone(h, cls, Some(z));
    assert Reserved(cfg, s) == cls.chunk;
    var m: map<int, nat> := map[];
    assert m[Base(z, cls) := cls.chunk] == map[Base(z, cls) := cls.chunk];
  }

  lemma RunOfThree(sizes: iset<nat>, hs: seq<Heap>, lives: seq<map<int, nat>>, ops: seq<Op>)
    requires |hs| == |lives| == 4 && |ops| == 3
    requires Step(sizes, hs[0], lives[0], ops[0], hs[1], lives[1])
    requires Step(sizes, hs[1], lives[1], ops[1], hs[2], lives[2])
    requires Step(sizes, hs[2], lives[2], ops[2], hs[3], lives[3])
    ensures IsRun(sizes, hs, lives, ops)
  {
    assert StepAt(sizes, hs, lives, ops, 0) && StepAt(sizes, hs, lives, ops, 1) && StepAt(sizes, hs, lives, ops, 2);
    forall i: nat | i < |ops| ensures StepAt(sizes, hs, lives, ops, i) { assert i in {0, 1, 2}; }
  }

  lemma ThirdInsideSecond(a1: int, a2: int, a3: int, c: nat, d: nat, live: map<int, nat>)
    requires d == c + 1 && c > 1 && a2 == a1 + 1 * d && a3 == a1 + 2 * c
    requires a2 in live && a3 in live && live[a2] == d
    ensures !Disjoint(live)
  {
    assert a2 < a3 < a2 + live[a2];
  }

  lemma ThreeRequests(cfg: Config, table: nat, s: nat, t: nat, sizes: iset<nat>)
    returns (h1: Heap, l1: map<int, nat>, h2: Heap, l2: map<int, nat>, h3: Heap, l3: map<int, nat>)
    requires cfg.Valid() && table + cfg.zonePages <= cfg.npages
    requires s in sizes && t in sizes && 0 < s < cfg.ZoneLimit() <= 16384 && 0 < t < cfg.ZoneLimit()
    requires ClassOf(s).index == ClassOf(t).index && ClassOf(s).chunk + 1 == ClassOf(t).chunk
    ensures Step(sizes, InitHeap(cfg, table), map[], DoMalloc(s), h1, l1)
    ensures Step(sizes, h1, l1, DoMalloc(t), h2, l2) && Step(sizes, h2, l2, DoMalloc(s), h3, l3) && !Disjoint(l3)
  {
    var z;
    h1, z := OpenFirstZone(sizes, cfg, table, s);
    var c, d, a1 := ClassOf(s).chunk, ClassOf(t).chunk, Base(z, ClassOf(s));
    l1 := map[a1 := c];
    var a2, a3;
    h2, a2 := OneZoneStep(sizes, h1, l1, z, t);
    l2 := l1[a2 := d];
    h3, a3 := OneZoneStep(sizes, h2, l2, z, s);
    l3 := l2[a3 := c];
    ThirdInsideSecond(a1, a2, a3, c, d, l3);
  }

  /** Three requests to a fresh zone, the second rounded to one byte more: the third block starts inside the second. */
  lemma OverlapByThree(cfg: Config, table: nat, s: nat, t: nat, sizes: iset<nat>)
    returns (hs: seq<Heap>, lives: seq<map<int, nat>>)
    requires cfg.Valid() && table + cfg.zonePages <= cfg.npages
    requires s in sizes && t in sizes && 0 < s < cfg.ZoneLimit() <= 16384 && 0 < t < cfg.ZoneLimit()
    requires ClassOf(s).index == ClassOf(t).index && ClassOf(s).chunk + 1 == ClassOf(t).chunk
    ensures IsRun(sizes, hs, lives, [DoMalloc(s), DoMalloc(t), DoMalloc(s)])
    ensures hs[0] == InitHeap(cfg, table) && lives[0] == map[] && !Disjoint(lives[3])
  {
    var h1, l1, h2, l2, h3, l3 := ThreeRequests(cfg, table, s, t, sizes);
    hs, lives := [InitHeap(cfg, table), h1, h2, h3], [map[], l1, l2, l3];
    RunOfThree(sizes, hs, lives, [DoMalloc(s), DoMalloc(t), DoMalloc(s)]);
  }

  ghost predicate FreshRun(cfg: Config, table: nat, sizes: iset<nat>,
                           hs: seq<Heap>, lives: seq<map<int, nat>>, ops: seq<Op>)
  {
    IsRun(sizes, hs, lives, ops) && hs[0] == InitHeap(cfg, table) && lives[0] == map[]
  }

  /** Every run over `sizes` from a fresh heap ends with disjoint blocks. */
  ghost predicate AllRunsDisjoint(cfg: Config, table: nat, sizes: iset<nat>)
  {
    forall hs, lives, ops :: FreshRun(cfg, table, sizes, hs, lives, ops) ==> Disjoint(lives[|ops|])
  }

  lemma ConsistentSafe(cfg: Config, table: nat, sizes: iset<nat>)
    requires cfg.Valid() && Consistent(cfg, sizes)
    ensures AllRunsDisjoint(cfg, table, sizes)
  {
    forall hs, lives, ops | FreshRun(cfg, table, sizes, hs, lives, ops) ensures Disjoint(lives[|ops|]) {
      RunSafe(sizes, cfg, table, hs, lives, ops, |ops|);
    }
  }

  lemma PairUnsafe(cfg: Config, table: nat, s: nat, t: nat, sizes: iset<nat>)
    requires cfg.Valid() && table + cfg.zonePages <= cfg.npages
    requires s in sizes && t in sizes && 0 < s < cfg.ZoneLimit() <= 16384 && 0 < t < cfg.ZoneLimit()
    requires ClassOf(s).index == ClassOf(t).index && ClassOf(s).chunk + 1 == ClassOf(t).chunk
    ensures !AllRunsDisjoint(cfg, table, sizes)
  {
    var hs, lives := OverlapByThree(cfg, table, s, t, sizes);
    var ops := [DoMalloc(s), DoMalloc(t), DoMalloc(s)];
    assert FreshRun(cfg, table, sizes, hs, lives, ops) && !Disjoint(lives[|ops|]);
  }

  lemma ChunksDifferByOne(s: nat, t: nat)
    requires 0 < s < 16384 && 0 < t < 16384
    requires ClassOf(s).index == ClassOf(t).index && ClassOf(s).chunk != ClassOf(t).chunk
    ensures ClassOf(s).chunk + 1 == ClassOf(t).chunk || ClassOf(t).chunk + 1 == ClassOf(s).chunk
  {
    if Misrounded(s) { MisroundedClass(s); } else { ZoneIndexIsBestFit(s); }
    if Misrounded(t) { MisroundedClass(t); } else { ZoneIndexIsBestFit(t); }
  }

  /** Safety depends on the request sizes exactly through consistency: on every heap with room for a zone,
      all runs over `sizes` keep the blocks disjoint if and only if `sizes` is consistent. */
  lemma SafeIffConsistent(cfg: Config, table: nat, sizes: iset<nat>)
    requires cfg.Valid() && table + cfg.zonePages <= cfg.npages
    ensures Consistent(cfg, sizes) <==> AllRunsDisjoint(cfg, table, sizes)
  {
    if Consistent(cfg, sizes) {
      ConsistentSafe(cfg, table, sizes);
    } else {
      LimitBounds(cfg);
      var s, t :| s in sizes && t in sizes && 0 < s < cfg.ZoneLimit() && 0 < t < cfg.ZoneLimit()
        && ClassOf(s).index == ClassOf(t).index && ClassOf(s).chunk != ClassOf(t).chunk;
      ChunksDifferByOne(s, t);
      if ClassOf(s).chunk < ClassOf(t).chunk {
        PairUnsafe(cfg, table, s, t, sizes);
      } else {
        PairUnsafe(cfg, table, t, s, sizes);
      }
    }
  }

  lemma OddClass(s: nat, t: nat)
    requires s == 1024 && t == 1025
    ensures ClassOf(s).index == ClassOf(t).index && ClassOf(s).chunk + 1 == ClassOf(t).chunk
  {
    FirstOfBand();
  }

  /** 1024 and 1025 bytes share a zone index with different chunk sizes, so a client that uses both is not safe. */
  lemma OddSizeOverlaps(cfg: Config, table: nat, s: nat, t: nat)
    requires cfg.Valid() && table + cfg.zonePages <= cfg.npages && s == 1024 && t == 1025
    ensures !AllRunsDisjoint(cfg, table, iset{s, t})
  {
    LimitBounds(cfg);
    OddClass(s, t);
    PairUnsafe(cfg, table, s, t, iset{s, t});
  }
}
