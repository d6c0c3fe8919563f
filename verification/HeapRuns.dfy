/** Memory safety of the heap over every sequence of sk_malloc and sk_free, and exactly when it holds. */
module HeapRuns {
  import opened Options
  import opened Bits
  import opened PageRuns
  import opened SizeClasses
  import opened Heap
  import opened HeapInvariant
  import opened HeapSteps

  /** The bytes sk_malloc sets aside for a request. */
  function Reserved(cfg: Config, size: nat): (n: nat)
    requires cfg.Valid() && 0 < size < WORD
  {
    if size >= cfg.ZoneLimit() then SkAlign(size, PAGE) / PAGE * PAGE else ClassOf(size).chunk
  }

  /** Requests that share a zone index are rounded to one chunk size. */
  ghost predicate Consistent(cfg: Config, sizes: iset<nat>)
    requires cfg.Valid()
  {
    forall s, t ::
      (s in sizes && t in sizes && 0 < s < cfg.ZoneLimit() && 0 < t < cfg.ZoneLimit()
       && ClassOf(s).index == ClassOf(t).index) ==> ClassOf(s).chunk == ClassOf(t).chunk
  }

  /** Without odd requests between 1024 and 2047 bytes every class has one chunk size. */
  lemma RegularSizesConsistent(cfg: Config, sizes: iset<nat>)
    requires cfg.Valid() && forall s :: s in sizes ==> !Misrounded(s)
    ensures Consistent(cfg, sizes)
  {
    forall s, t | s in sizes && t in sizes && 0 < s < cfg.ZoneLimit() && 0 < t < cfg.ZoneLimit()
      && ClassOf(s).index == ClassOf(t).index ensures ClassOf(s).chunk == ClassOf(t).chunk
    {
      SharedIndex(s, t);
    }
  }

  // ---- sk_page_alloc fails only when it must ----

  lemma {:induction false} FirstFitExists(free: set<int>, n: nat, p: int, lo: int)
    requires n > 0 && Contiguous(free, p, n) && forall q: int :: q in free ==> lo <= q
    ensures exists q: int :: IsFirstFit(free, n, q)
    decreases p - lo
  {
    assert p in free;
    if q :| q < p && Contiguous(free, q, n) {
      assert q in free;
      FirstFitExists(free, n, q, lo);
    } else {
      assert IsFirstFit(free, n, p);
    }
  }

  /** FirstFit fails exactly when the heap has no n contiguous free pages. */
  lemma FirstFitComplete(h: Heap, n: nat)
    requires OwnersOk(h)
    ensures FirstFit(FreePages(h), n).None? <==> n == 0 || forall p: int :: !Contiguous(FreePages(h), p, n)
  {
    var free := FreePages(h);
    if p :| n > 0 && Contiguous(free, p, n) {
      forall q: int | q in free ensures h.cfg.first <= q { assert q in h.owner.Keys; }
      FirstFitExists(free, n, p, h.cfg.first);
    }
  }

  // ---- one call of sk_malloc ----

  lemma LimitBounds(cfg: Config)
    requires cfg.Valid()
    ensures cfg.ZoneLimit() in {8192, 16384} && 4 * cfg.ZoneLimit() <= cfg.ZoneSize()
    ensures cfg.ZoneLimit() == 16384 || 4 * cfg.ZoneLimit() == cfg.ZoneSize()
  {
  }

  lemma RequestClassOk(cfg: Config, size: nat)
    requires cfg.Valid() && 0 < size < cfg.ZoneLimit()
    ensures size < 16384 && ClassOk(cfg, ClassOf(size)) && size <= Reserved(cfg, size)
  {
    LimitBounds(cfg);
  }

  lemma LargeReserve(cfg: Config, size: nat)
    requires cfg.Valid() && cfg.ZoneLimit() <= size < WORD
    ensures Reserved(cfg, size) == 0 || size <= Reserved(cfg, size)
    ensures Reserved(cfg, size) == SkAlign(size, PAGE) / PAGE * PAGE
  {
    LimitBounds(cfg);
    SmallPowers();
    SkAlignRoundsUp(size, 12);
  }

  lemma {:induction false} TableStep(i: nat)
    requires 0 < i < NUM_ZONES
    ensures TableChunk(i) - TableChunk(i - 1) <= 1024
  {
    TableOctave(i);
    TableOctave(i - 1);
  }

  lemma ClassTight(size: nat)
    requires 0 < size < 16384
    ensures ClassOf(size).chunk <= size + 1024
  {
    if Misrounded(size) {
      BandIndex(size);
    } else {
      ZoneIndexIsBestFit(size);
      var i := ZoneIndex(size).0;
      if i > 0 { TableStep(i); } else { TableOctave(0); }
    }
  }

  /** Less than a page is set aside beyond what was asked for. */
  lemma ReservedTight(cfg: Config, size: nat)
    requires cfg.Valid() && 0 < size < WORD
    ensures Reserved(cfg, size) < size + PAGE
  {
    LimitBounds(cfg);
    if size < cfg.ZoneLimit() {
      ClassTight(size);
    } else {
      SmallPowers();
      SkAlignRoundsUp(size, 12);
    }
  }

  lemma ClassesAfter(h: Heap, h': Heap, sizes: iset<nat>, z: int)
    requires ClassesFrom(h, sizes) && h'.cfg == h.cfg
    requires z in h'.zones && h'.zones[z].Active? ==> Serves(h.cfg, h'.zones[z].cls, sizes)
    requires forall y: int :: y in h'.zones && y != z ==> y in h.zones && h'.zones[y] == h.zones[y]
    ensures ClassesFrom(h', sizes)
  {
  }

  lemma SameChunkSameClass(s: nat, t: nat)
    requires 0 < s < 16384 && 0 < t < 16384
    requires ClassOf(s).index == ClassOf(t).index && ClassOf(s).chunk == ClassOf(t).chunk
    ensures ClassOf(s) == ClassOf(t)
  {
  }

  /** The zone at the head of the request's list was set up for the same chunk size. */
  lemma HeadMatches(h: Heap, size: nat, sizes: iset<nat>)
    requires Inv(h) && ClassesFrom(h, sizes) && Consistent(h.cfg, sizes)
    requires size in sizes && 0 < size < h.cfg.ZoneLimit() <= 16384 && h.lists[ClassOf(size).index] != []
    ensures CanTake(h, h.lists[ClassOf(size).index][0])
    ensures h.zones[h.lists[ClassOf(size).index][0]].cls == ClassOf(size)
  {
    var i := ClassOf(size).index;
    HeadCanServe(h, i);
    var cls := h.zones[h.lists[i][0]].cls;
    var s :| s in sizes && 0 < s < h.cfg.ZoneLimit() <= 16384 && ClassOf(s) == cls;
    SameChunkSameClass(s, size);
  }

  /** What one call of sk_malloc leaves behind. */
  ghost predicate MallocOk(h: Heap, h': Heap, a: Option<int>, n: nat, sizes: iset<nat>)
  {
    && h'.cfg == h.cfg && Inv(h') && ClassesFrom(h', sizes)
    && (a.None? ==> h' == h)
    && (a.Some? ==> Grants(h, h', a.value, n))
  }

  lemma ClassesSame(h: Heap, h': Heap, sizes: iset<nat>)
    requires ClassesFrom(h, sizes) && h'.cfg == h.cfg && h'.zones == h.zones
    ensures ClassesFrom(h', sizes)
  {
  }

  lemma LargeCase(h: Heap, n: nat, b: int, sizes: iset<nat>)
    requires Inv(h) && ClassesFrom(h, sizes) && n > 0 && Contiguous(FreePages(h), b, n)
    ensures MallocOk(h, MallocLarge(h, n, Some(b)).0, Some(b * PAGE), n * PAGE, sizes)
  {
    var h' := h.(owner := Assign(h.owner, b, b + n, Large(b)), large := h.large[b := n]);
    LargeGranted(h, b, n);
    ClassesSame(h, h', sizes);
    assert MallocLarge(h, n, Some(b)).0 == h';
  }

  lemma ClassesWithZone(h: Heap, z: int, zone: Zone, lists: seq<seq<int>>, sizes: iset<nat>)
    requires ClassesFrom(h, sizes) && zone.Active? && Serves(h.cfg, zone.cls, sizes)
    ensures ClassesFrom(WithZone(h, z, zone, lists), sizes)
  {
    ClassesAfter(h, WithZone(h, z, zone, lists), sizes, z);
  }

  lemma TakeCase(h: Heap, cls: SizeClass, sizes: iset<nat>)
    requires Inv(h) && Ready(h) && ClassesFrom(h, sizes) && Serves(h.cfg, cls, sizes)
    requires 0 <= cls.index < NUM_ZONES && h.lists[cls.index] != []
    requires h.zones[h.lists[cls.index][0]].cls == cls
    ensures var (h', a) := TakeChunk(h, cls); a.Some? && MallocOk(h, h', a, cls.chunk, sizes)
  {
    var z := h.lists[cls.index][0];
    TakeChunkKeeps(h, cls);
    TakeServes(h, cls);
    ClassesWithZone(h, z, Served(h.cfg, z, h.zones[z]).0, TakeChunk(h, cls).0.lists, sizes);
  }

  lemma OpenClasses(h: Heap, cls: SizeClass, fit: Option<int>, sizes: iset<nat>)
    requires |h.lists| == NUM_ZONES && 0 <= cls.index < NUM_ZONES
    requires ClassesFrom(h, sizes) && Serves(h.cfg, cls, sizes)
    ensures NewZone(h, cls, fit).0.cfg == h.cfg && ClassesFrom(NewZone(h, cls, fit).0, sizes)
  {
    var (h', a) := NewZone(h, cls, fit);
    if a.Some? { ClassesAfter(h, h', sizes, if h.cache != [] then h.cache[0] / PAGE else fit.value); }
  }

  lemma OpenCase(h: Heap, cls: SizeClass, fit: Option<int>, sizes: iset<nat>)
    requires Inv(h) && ClassesFrom(h, sizes) && Serves(h.cfg, cls, sizes) && ClassOk(h.cfg, cls)
    requires fit.Some? ==> Contiguous(FreePages(h), fit.value, h.cfg.zonePages)
    ensures var (h', a) := NewZone(h, cls, fit); MallocOk(h, h', a, cls.chunk, sizes)
  {
    NewZoneKeeps(h, cls, fit);
    OpenClasses(h, cls, fit, sizes);
  }

  lemma SmallCase(h: Heap, size: nat, sizes: iset<nat>)
    requires Inv(h) && Ready(h) && ClassesFrom(h, sizes) && Consistent(h.cfg, sizes)
    requires size in sizes && 0 < size < h.cfg.ZoneLimit()
    ensures size < 16384
    ensures var (h', a) := Malloc(h, size); MallocOk(h, h', a, ClassOf(size).chunk, sizes)
  {
    LimitBounds(h.cfg);
    RequestClassOk(h.cfg, size);
    var cls := ClassOf(size);
    assert Serves(h.cfg, cls, sizes);
    if h.lists[cls.index] != [] {
      HeadMatches(h, size, sizes);
      TakeCase(h, cls, sizes);
    } else {
      OpenCase(h, cls, FirstFit(FreePages(h), h.cfg.zonePages), sizes);
    }
  }

  /** sk_malloc keeps the invariant; a block it returns was not live, is large enough, and is the only change. */
  lemma MallocKeeps(h: Heap, size: nat, sizes: iset<nat>)
    requires Inv(h) && ClassesFrom(h, sizes) && Consistent(h.cfg, sizes) && size in sizes && size < WORD
    ensures Ready(h)
    ensures var (h', a) := Malloc(h, size);
            if a.None? then h' == h
            else size > 0 && size <= Reserved(h.cfg, size) && MallocOk(h, h', a, Reserved(h.cfg, size), sizes)
  {
    InvReady(h);
    if size == 0 {
    } else if size >= h.cfg.ZoneLimit() {
      var n := SkAlign(size, PAGE) / PAGE;
      LargeReserve(h.cfg, size);
      var fit := FirstFit(FreePages(h), n);
      if fit.Some? { LargeCase(h, n, fit.value, sizes); }
    } else {
      RequestClassOk(h.cfg, size);
      SmallCase(h, size, sizes);
    }
  }

  lemma FreeIsPush(h: Heap, p: int, z: int)
    requires CanFree(h, p) && h.owner[p / PAGE] == InZone(z) && !Retires(PushChunk(h, z, p), z)
    ensures FreeBlock(h, p) == PushChunk(h, z, p)
  {
  }

  lemma MallocIsTake(h: Heap, size: nat)
    requires Ready(h) && h.cfg.Valid() && 0 < size < h.cfg.ZoneLimit() <= 16384 && h.lists[ClassOf(size).index] != []
    ensures Malloc(h, size) == TakeChunk(h, ClassOf(size))
  {
  }

  /** A block freed in a zone without never-used chunks, full or first on its list, is the next one sk_malloc returns
      for its class; the two calls leave the heap as it was. */
  lemma MallocUndoesFree(h: Heap, p: int, z: int, size: nat)
    requires Inv(h) && LiveSize(h, p).Some? && h.owner[p / PAGE] == InZone(z)
    requires 0 < size < h.cfg.ZoneLimit() <= 16384 && h.zones[z].cls == ClassOf(size)
    requires NoRoomFor(h.cfg, z, h.zones[z].cls, |h.zones[z].handed|)
    requires h.zones[z].freed == [] || First(h.lists, z, h.zones[z].cls.index)
    requires !Retires(PushChunk(h, z, p), z)
    ensures CanFree(h, p) && Ready(FreeBlock(h, p)) && Malloc(FreeBlock(h, p), size) == (h, Some(p))
  {
    FreeBlockKeeps(h, p);
    FreeIsPush(h, p, z);
    TakeUndoesPush(h, z, p);
    MallocIsTake(PushChunk(h, z, p), size);
  }

  lemma AssignBack(owner: map<int, Owner>, lo: int, hi: int, o: Owner)
    requires forall p: int :: lo <= p < hi ==> p in owner && owner[p] == Free
    ensures Assign(Assign(owner, lo, hi, o), lo, hi, Free) == owner
  {
  }

  lemma FreeNotLarge(h: Heap, b: int)
    requires OwnersOk(h) && b in h.owner && h.owner[b] == Free
    ensures b !in h.large
  {
    assert b in h.large ==> RangeOwned(h.owner, b, h.large[b], Large(b));
  }

  lemma FreeUndoesBlock(h: Heap, b: int, n: nat)
    requires OwnersOk(h) && n > 0 && Contiguous(FreePages(h), b, n)
    ensures var h' := MallocLarge(h, n, Some(b)).0;
            b in h'.large && CanFree(h'.(cacheCount := |h'.cache|), b * PAGE) && FreeLarge(h', b) == h
  {
    forall p: int | b <= p < b + n ensures p in h.owner && h.owner[p] == Free { assert p in FreePages(h); }
    AssignBack(h.owner, b, b + n, Large(b));
    FreeNotLarge(h, b);
    assert h.large[b := n] - {b} == h.large;
  }

  /** Freeing a page block gives the heap back as it was before its sk_malloc. */
  lemma FreeUndoesMalloc(h: Heap, size: nat)
    requires Inv(h) && Ready(h) && h.cfg.ZoneLimit() <= size < WORD && Malloc(h, size).1.Some?
    ensures var (h', a) := Malloc(h, size); CanFree(h', a.value) && FreeBlock(h', a.value) == h
  {
    LimitBounds(h.cfg);
    var n := SkAlign(size, PAGE) / PAGE;
    var b := FirstFit(FreePages(h), n).value;
    FreeUndoesBlock(h, b, n);
    assert b in FreePages(h);
  }

  /** Zone z is parked, or serves class i and has a freed chunk or room for another. */
  ghost predicate Offers(h: Heap, z: int, i: int)
    requires z in h.zones
  {
    match h.zones[z]
    case Cached => true
    case Active(cls, handed, freed) => cls.index == i && (freed != [] || !NoRoomFor(h.cfg, z, cls, |handed|))
  }

  lemma ListableIff(h: Heap, z: int, i: int)
    requires Inv(h) && z in h.zones && h.zones[z].Active? && 0 <= i < NUM_ZONES
    ensures z in h.lists[i] <==> Offers(h, z, i)
  {
    assert ZoneOk(h.cfg, z, h.zones[z]);
    FullIff(h.cfg, z, h.zones[z]);
    assert NFree(h.cfg, h.zones[z]) >= 0;
    assert z in h.lists[i] <==> Listable(h, z, i);
  }

  /** No zone can serve class i exactly when its list and the cache are empty. */
  lemma NoneOffers(h: Heap, i: int)
    requires Inv(h) && 0 <= i < NUM_ZONES
    ensures h.lists[i] == [] && h.cache == [] <==> forall z: int :: z in h.zones ==> !Offers(h, z, i)
  {
    if h.lists[i] != [] {
      var z := h.lists[i][0];
      assert z in h.lists[i] && Listable(h, z, i);
      ListableIff(h, z, i);
    } else if h.cache != [] {
      assert h.cache[0] in h.cache && CachedAt(h.zones, h.cache[0]);
    } else {
      forall z: int | z in h.zones ensures !Offers(h, z, i) {
        if h.zones[z].Active? { ListableIff(h, z, i); }
      }
    }
  }

  /** sk_malloc returns null exactly when the heap cannot serve the request: not enough contiguous free pages for a
      large one; for a small one none for a new zone either, no parked zone, and in every zone of its class all chunks
      in use and no room for another. */
  lemma MallocFailsOnlyWhenFull(h: Heap, size: nat)
    requires Inv(h) && Ready(h) && size < WORD
    ensures Malloc(h, size).1.None? <==>
            size == 0 ||
            (if size >= h.cfg.ZoneLimit() then
               var n := SkAlign(size, PAGE) / PAGE; n == 0 || forall p: int :: !Contiguous(FreePages(h), p, n)
             else
               && (forall z: int :: z in h.zones ==> !Offers(h, z, ClassOf(size).index))
               && forall p: int :: !Contiguous(FreePages(h), p, h.cfg.zonePages))
  {
    LimitBounds(h.cfg);
    if size >= h.cfg.ZoneLimit() {
      FirstFitComplete(h, SkAlign(size, PAGE) / PAGE);
    } else if size > 0 {
      FirstFitComplete(h, h.cfg.zonePages);
      NoneOffers(h, ClassOf(size).index);
    }
  }
}
