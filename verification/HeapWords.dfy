/** Where the allocator keeps its own words in the heap's memory, and that none of them lies in the way of another. */
module HeapWords {
  import opened Bits
  import opened PageRuns
  import opened Heap
  import opened HeapInvariant
  import opened HeapSteps
  import opened HeapRuns
  import opened HeapSafety
  import opened SizeClasses

  /** struct sk_page_head at the start of a free page, the usage entry of a page, the header of a zone with its
      z_next, and the link at the start of a freed chunk. */
  datatype Word = PageHead(p: int) | UsageEntry(p: int) | ZoneHeader(z: int) | ChunkLink(z: int, a: int)

  const PAGE_HEAD := 16
  const USAGE := 4
  const LINK := 8

  /** The words the allocator may read in heap h. */
  ghost predicate Stored(h: Heap, w: Word)
  {
    match w
    case PageHead(p) => p in h.owner && h.owner[p].Free?
    case UsageEntry(p) => p in h.owner
    case ZoneHeader(z) => z in h.zones
    case ChunkLink(z, a) => z in h.zones && h.zones[z].Active? && a in h.zones[z].freed
  }

  function Start(h: Heap, w: Word): (a: int)
  {
    match w
    case PageHead(p) => p * PAGE
    case UsageEntry(p) => h.cfg.first * PAGE + USAGE * (p - h.cfg.first)
    case ZoneHeader(z) => z * PAGE
    case ChunkLink(_, a) => a
  }

  function Size(w: Word): (n: nat)
  {
    match w
    case PageHead(_) => PAGE_HEAD
    case UsageEntry(_) => USAGE
    case ZoneHeader(_) => ZONE_HEADER
    case ChunkLink(_, _) => LINK
  }

  /** The first `table` pages hold the usage table, and it is large enough. */
  ghost predicate TableOk(h: Heap, table: nat)
  {
    && USAGE * h.cfg.npages <= table * PAGE
    && forall p: int :: h.cfg.first <= p < h.cfg.first + table && p in h.owner ==> h.owner[p].Table?
  }

  lemma TablePage(first: int, npages: nat, table: nat, p: int, x: int)
    requires first <= p < first + npages && USAGE * npages <= table * PAGE
    requires first * PAGE + USAGE * (p - first) <= x < first * PAGE + USAGE * (p - first) + USAGE
    ensures first <= x / PAGE < first + table && x / PAGE < first + npages
  {
    assert x < first * PAGE + table * PAGE;
    assert x < first * PAGE + USAGE * npages;
  }

  lemma ChunkPage(h: Heap, z: int, a: int, x: int)
    requires Inv(h) && z in h.zones && h.zones[z].Active? && a in h.zones[z].handed && a <= x < a + h.zones[z].cls.chunk
    ensures x / PAGE in h.owner && h.owner[x / PAGE] == InZone(z) && z * PAGE + ZONE_HEADER <= a
  {
    var zone := h.zones[z];
    assert ZoneOk(h.cfg, z, zone);
    var i :| 0 <= i < |zone.handed| && zone.handed[i] == a;
    ChunkBounds(h.cfg, z, zone.cls, i);
    assert z <= x / PAGE < z + h.cfg.zonePages;
    assert RangeOwned(h.owner, z, h.cfg.zonePages, InZone(z));
  }

  /** The page a word lies in, and who owns it. */
  lemma WordPage(h: Heap, table: nat, w: Word, x: int)
    requires Inv(h) && TableOk(h, table) && Stored(h, w) && Start(h, w) <= x < Start(h, w) + Size(w)
    ensures x / PAGE in h.owner
    ensures match w
            case PageHead(p) => x / PAGE == p && h.owner[x / PAGE].Free?
            case UsageEntry(p) => h.owner[x / PAGE].Table?
            case ZoneHeader(z) => x / PAGE == z && h.owner[x / PAGE] == InZone(z)
            case ChunkLink(z, a) => h.owner[x / PAGE] == InZone(z) && z * PAGE + ZONE_HEADER <= x
  {
    match w
    case PageHead(p) =>
    case UsageEntry(p) => TablePage(h.cfg.first, h.cfg.npages, table, p, x);
    case ZoneHeader(z) => assert RangeOwned(h.owner, z, h.cfg.zonePages, InZone(z));
    case ChunkLink(z, a) => ChunkPage(h, z, a, x);
  }

  /** Two freed chunks of a zone share no byte. */
  lemma LinksApart(h: Heap, z: int, a: int, b: int, x: int)
    requires Inv(h) && z in h.zones && h.zones[z].Active? && a in h.zones[z].freed && b in h.zones[z].freed && a != b
    ensures !(a <= x < a + LINK && b <= x < b + LINK)
  {
    var zone := h.zones[z];
    assert ZoneOk(h.cfg, z, zone);
    var i :| 0 <= i < |zone.handed| && zone.handed[i] == a;
    var j :| 0 <= j < |zone.handed| && zone.handed[j] == b;
    if i < j { ChunksApart(z, zone.cls, i, j); } else { ChunksApart(z, zone.cls, j, i); }
  }

  /** Two different words share no byte. */
  lemma WordsApart(h: Heap, table: nat, v: Word, w: Word, x: int)
    requires Inv(h) && TableOk(h, table) && Stored(h, v) && Stored(h, w) && v != w
    requires Start(h, v) <= x < Start(h, v) + Size(v)
    ensures !(Start(h, w) <= x < Start(h, w) + Size(w))
  {
    if Start(h, w) <= x < Start(h, w) + Size(w) {
      WordPage(h, table, v, x);
      WordPage(h, table, w, x);
      if v.ChunkLink? && w.ChunkLink? { LinksApart(h, v.z, v.a, w.a, x); }
    }
  }

  lemma SameRange(h: Heap, p: int, x: int)
    requires Inv(h) && LiveSize(h, p).Some? && p <= x < p + LiveSize(h, p).value && x / PAGE in h.owner
    ensures p / PAGE in h.owner && h.owner[x / PAGE] == h.owner[p / PAGE]
  {
    LiveGeometry(h, p);
    match h.owner[p / PAGE]
    case Large(b) => assert b <= x / PAGE < b + h.large[b];
    case InZone(y) => assert y <= x / PAGE < y + h.cfg.zonePages;
  }

  /** A byte of a live block in a page of zone z belongs to a chunk of that zone. */
  lemma SameOwner(h: Heap, z: int, p: int, x: int)
    requires Inv(h) && LiveSize(h, p).Some? && p <= x < p + LiveSize(h, p).value
    requires x / PAGE in h.owner && h.owner[x / PAGE] == InZone(z)
    ensures h.owner[p / PAGE] == InZone(z) && z in h.zones && InUse(h.zones[z], p)
    ensures LiveSize(h, p).value == h.zones[z].cls.chunk
  {
    LiveGeometry(h, p);
    SameRange(h, p, x);
  }

  lemma LinkNotLive(h: Heap, z: int, a: int, p: int, x: int)
    requires Inv(h) && z in h.zones && h.zones[z].Active? && a in h.zones[z].freed && LiveSize(h, p).Some?
    requires p <= x < p + LiveSize(h, p).value && a <= x < a + LINK
    ensures !(x / PAGE in h.owner && h.owner[x / PAGE] == InZone(z))
  {
    if x / PAGE in h.owner && h.owner[x / PAGE] == InZone(z) {
      LiveGeometry(h, p);
      var zone := h.zones[z];
      assert ZoneOk(h.cfg, z, zone);
      SameOwner(h, z, p, x);
      var i :| 0 <= i < |zone.handed| && zone.handed[i] == a;
      var j :| 0 <= j < |zone.handed| && zone.handed[j] == p;
      if i < j { ChunksApart(z, zone.cls, i, j); } else if j < i { ChunksApart(z, zone.cls, j, i); }
    }
  }

  /** No word lies in a block a client holds. */
  lemma LiveApart(h: Heap, table: nat, w: Word, p: int, x: int)
    requires Inv(h) && TableOk(h, table) && Stored(h, w) && LiveSize(h, p).Some?
    requires p <= x < p + LiveSize(h, p).value
    ensures !(Start(h, w) <= x < Start(h, w) + Size(w))
  {
    LiveClear(h, p, x);
    if Start(h, w) <= x < Start(h, w) + Size(w) {
      WordPage(h, table, w, x);
      if w.ChunkLink? { LinkNotLive(h, w.z, w.a, p, x); }
    }
  }

  // ---- runs ----

  lemma InitTable(cfg: Config, table: nat)
    requires USAGE * cfg.npages <= table * PAGE
    ensures TableOk(InitHeap(cfg, table), table)
  {
  }

  lemma AssignTable(h: Heap, h': Heap, lo: int, n: nat, o: Owner, table: nat)
    requires TableOk(h, table) && h'.cfg == h.cfg && h'.owner == Assign(h.owner, lo, lo + n, o)
    requires forall p: int :: lo <= p < lo + n && p in h.owner ==> !h.owner[p].Table?
    ensures TableOk(h', table)
  {
  }

  /** Taking free pages leaves the table alone. */
  lemma TakeTable(h: Heap, h': Heap, lo: int, n: nat, o: Owner, table: nat)
    requires TableOk(h, table) && h'.cfg == h.cfg && h'.owner == Assign(h.owner, lo, lo + n, o)
    requires Contiguous(FreePages(h), lo, n)
    ensures TableOk(h', table)
  {
    forall p: int | lo <= p < lo + n && p in h.owner ensures !h.owner[p].Table? { assert p in FreePages(h); }
    AssignTable(h, h', lo, n, o, table);
  }

  lemma LargeTable(h: Heap, n: nat, table: nat)
    requires TableOk(h, table)
    ensures TableOk(MallocLarge(h, n, FirstFit(FreePages(h), n)).0, table)
  {
    var fit := FirstFit(FreePages(h), n);
    if fit.Some? { TakeTable(h, MallocLarge(h, n, fit).0, fit.value, n, Large(fit.value), table); }
  }

  lemma ZoneTable(h: Heap, cls: SizeClass, table: nat)
    requires TableOk(h, table) && |h.lists| == NUM_ZONES && 0 <= cls.index < NUM_ZONES
    ensures TableOk(NewZone(h, cls, FirstFit(FreePages(h), h.cfg.zonePages)).0, table)
  {
    var fit := FirstFit(FreePages(h), h.cfg.zonePages);
    if h.cache == [] && fit.Some? {
      TakeTable(h, NewZone(h, cls, fit).0, fit.value, h.cfg.zonePages, InZone(fit.value), table);
    }
  }

  lemma MallocTable(h: Heap, size: nat, table: nat)
    requires Ready(h) && h.cfg.Valid() && TableOk(h, table) && size < WORD
    ensures TableOk(Malloc(h, size).0, table)
  {
    if size >= h.cfg.ZoneLimit() {
      LargeTable(h, SkAlign(size, PAGE) / PAGE, table);
    } else if size > 0 {
      LimitBounds(h.cfg);
      if h.lists[ClassOf(size).index] == [] { ZoneTable(h, ClassOf(size), table); }
    }
  }

  lemma FreeTable(h: Heap, p: int, table: nat)
    requires Inv(h) && CanFree(h, p) && !ReleaseGuard(h, p) && TableOk(h, table)
    ensures TableOk(FreeBlock(h, p), table)
  {
    match h.owner[p / PAGE]
    case Large(b) =>
      assert RangeOwned(h.owner, b, h.large[b], Large(b));
      AssignTable(h, FreeBlock(h, p), b, h.large[b], Free, table);
    case InZone(z) => assert FreeBlock(h, p).owner == h.owner;
  }

  lemma StepTable(sizes: iset<nat>, h: Heap, live: map<int, nat>, op: Op, h': Heap, live': map<int, nat>, table: nat)
    requires Inv(h) && TableOk(h, table) && Step(sizes, h, live, op, h', live')
    ensures TableOk(h', table)
  {
    match op
    case DoMalloc(s) => MallocTable(h, s, table);
    case DoFree(p) => FreeTable(h, p, table);
  }

  lemma RunInv(sizes: iset<nat>, cfg: Config, table: nat, hs: seq<Heap>, lives: seq<map<int, nat>>, ops: seq<Op>,
               k: nat)
    requires cfg.Valid() && Consistent(cfg, sizes) && FreshRun(cfg, table, sizes, hs, lives, ops) && k <= |ops|
    ensures Inv(hs[k])
  {
    InitKeeps(cfg, table, sizes);
    RunKeepsSafe(sizes, hs, lives, ops, k);
  }

  /** The usage table stays what it is over every run. */
  lemma {:induction false} RunTable(sizes: iset<nat>, cfg: Config, table: nat, hs: seq<Heap>, lives: seq<map<int, nat>>,
                                    ops: seq<Op>, k: nat)
    requires cfg.Valid() && Consistent(cfg, sizes) && FreshRun(cfg, table, sizes, hs, lives, ops) && k <= |ops|
    requires USAGE * cfg.npages <= table * PAGE
    ensures Inv(hs[k]) && TableOk(hs[k], table)
    decreases k
  {
    RunInv(sizes, cfg, table, hs, lives, ops, k);
    if k == 0 {
      InitTable(cfg, table);
    } else {
      var i := k - 1;
      RunTable(sizes, cfg, table, hs, lives, ops, i);
      assert StepAt(sizes, hs, lives, ops, i);
      StepTable(sizes, hs[i], lives[i], ops[i], hs[i + 1], lives[i + 1], table);
    }
  }

  /** Byte x belongs to word w. */
  ghost predicate Occupies(h: Heap, w: Word, x: int)
  {
    Stored(h, w) && Start(h, w) <= x < Start(h, w) + Size(w)
  }

  /** At every moment of every run over consistent sizes, each byte belongs to at most one word of the allocator, and
      then to no block the client holds: all of them can lie in one memory. */
  lemma RunApart(sizes: iset<nat>, cfg: Config, table: nat, hs: seq<Heap>, lives: seq<map<int, nat>>, ops: seq<Op>,
                 k: nat, x: int)
    requires cfg.Valid() && Consistent(cfg, sizes) && FreshRun(cfg, table, sizes, hs, lives, ops) && k <= |ops|
    requires USAGE * cfg.npages <= table * PAGE
    ensures forall v, w :: Occupies(hs[k], v, x) && Occupies(hs[k], w, x) ==> v == w
    ensures forall w, p :: Occupies(hs[k], w, x) && p in lives[k] ==> !(p <= x < p + lives[k][p])
  {
    RunTable(sizes, cfg, table, hs, lives, ops, k);
    InitKeeps(cfg, table, sizes);
    RunKeepsSafe(sizes, hs, lives, ops, k);
    forall v, w | Occupies(hs[k], v, x) && Occupies(hs[k], w, x) ensures v == w {
      if v != w { WordsApart(hs[k], table, v, w, x); }
    }
    forall w, p | Occupies(hs[k], w, x) && p in lives[k] ensures !(p <= x < p + lives[k][p]) {
      if p <= x < p + lives[k][p] { LiveApart(hs[k], table, w, p, x); }
    }
  }
}
