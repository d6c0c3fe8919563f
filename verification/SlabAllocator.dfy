/** sk_system_mem_init, sk_malloc and sk_free on the words the kernel keeps: page lists, usage entries, zone headers
    and the link words inside freed chunks. The class refines the model of module Heap. */
module SlabAllocator {
  import opened Options
  import opened Arith
  import opened Bits
  import opened PageRuns
  import P = PageAllocator
  import opened Seqs
  import opened SizeClasses
  import opened Heap
  import opened HeapInvariant
  import opened HeapSteps
  import opened HeapRuns
  import opened HeapSafety

  datatype UsageKind = FreeKind | SmallKind | LargeKind

  /** struct sk_mem_usage */
  datatype Usage = Usage(kind: UsageKind, size: nat)

  /** struct slab_zone; z_next is kept by the lists. */
  datatype Header = Header(nfree: int, nmax: int, base: int, uindex: int, chunkSize: nat, zoneIndex: int,
                           freechunk: int)

  /** The link words starting at pointer p spell out the chunks s; what lies behind the last one is arbitrary. */
  ghost predicate Spells(mem: map<int, int>, p: int, s: seq<int>)
    decreases |s|
  {
    s != [] ==> p == s[0] && s[0] in mem && Spells(mem, mem[s[0]], s[1..])
  }

  /** A zone header agrees with the model zone: of the link words exactly the top
      z_nfree - (z_nmax - 1 - z_uindex) are meaningful, and they are the freed chunks. */
  ghost predicate HeaderOk(cfg: Config, mem: map<int, int>, z: int, zone: Zone, r: Header)
    requires zone.Active?
  {
    && r.nfree == NFree(cfg, zone) && r.nmax == NMax(cfg, zone.cls) && r.base == Base(z, zone.cls)
    && r.uindex == |zone.handed| - 1 && r.chunkSize == zone.cls.chunk && r.zoneIndex == zone.cls.index
    && |zone.freed| == r.nfree - (r.nmax - 1 - r.uindex)
    && Spells(mem, r.freechunk, zone.freed)
  }

  ghost predicate HeadersOk(h: Heap, mem: map<int, int>, headers: map<int, Header>)
  {
    forall z: int :: z in h.zones && h.zones[z].Active? ==>
      z in headers && HeaderOk(h.cfg, mem, z, h.zones[z], headers[z])
  }

  /** The usage entries of the pages lo, ..., lo + n - 1 count up from 0. */
  ghost predicate Numbered(usage: map<int, Usage>, lo: int, n: nat)
  {
    forall p: int :: lo <= p < lo + n ==> p in usage && usage[p] == Usage(SmallKind, p - lo)
  }

  /** The usage entry of a page leads sk_free to the owner of the page. */
  ghost predicate UsageOk(h: Heap, usage: map<int, Usage>)
  {
    && (forall p: int :: p in h.owner ==> p in usage)
    && (forall z: int :: z in h.zones ==> Numbered(usage, z, h.cfg.zonePages))
    && (forall b: int :: b in h.large ==> b in usage && usage[b] == Usage(LargeKind, h.large[b]))
  }

  lemma {:induction false} SpellsFrame(mem: map<int, int>, mem': map<int, int>, p: int, s: seq<int>)
    requires Spells(mem, p, s) && forall x: int :: x in s && x in mem ==> x in mem' && mem'[x] == mem[x]
    ensures Spells(mem', p, s)
    decreases |s|
  {
    if s != [] {
      assert s == [s[0]] + s[1..];
      SpellsFrame(mem, mem', mem[s[0]], s[1..]);
    }
  }

  /** A block that does not belong to zone y lies outside its pages. */
  lemma OtherOwner(h: Heap, y: int, p: int)
    requires Inv(h) && y in h.zones && LiveSize(h, p).Some? && h.owner[p / PAGE] != InZone(y)
    ensures (y + h.cfg.zonePages) * PAGE <= p || p + LiveSize(h, p).value <= y * PAGE
  {
    LiveGeometry(h, p);
    assert RangeOwned(h.owner, y, h.cfg.zonePages, InZone(y));
    var o := h.owner[p / PAGE];
    var b, m := if o.Large? then o.block else o.zone, if o.Large? then h.large[o.block] else h.cfg.zonePages;
    RangesApart(h.owner, y, h.cfg.zonePages, InZone(y), b, m, o);
  }

  /** The link word of a freed chunk lies outside every block in use. */
  lemma FreedElsewhere(h: Heap, y: int, f: int, p: int)
    requires Inv(h) && y in h.zones && h.zones[y].Active? && f in h.zones[y].freed && LiveSize(h, p).Some?
    ensures f + 8 <= p || p + LiveSize(h, p).value <= f
  {
    var zone := h.zones[y];
    assert ZoneOk(h.cfg, y, zone);
    var i: int :| 0 <= i < |zone.handed| && zone.handed[i] == f;
    ChunkBounds(h.cfg, y, zone.cls, i);
    if h.owner[p / PAGE] == InZone(y) {
      SameZoneDisjoint(h.cfg, y, zone, f, p);
    } else {
      OtherOwner(h, y, p);
    }
  }

  /** A word of memory that the block of n bytes at p does not touch. */
  predicate Outside(f: int, p: int, n: nat)
  {
    f + 8 <= p || p + n <= f
  }

  lemma HeaderAfterWrite(h: Heap, y: int, p: int, mem: map<int, int>, mem': map<int, int>, r: Header)
    requires Inv(h) && y in h.zones && h.zones[y].Active? && LiveSize(h, p).Some?
    requires HeaderOk(h.cfg, mem, y, h.zones[y], r)
    requires forall f: int :: f in mem && Outside(f, p, LiveSize(h, p).value) ==> f in mem' && mem'[f] == mem[f]
    ensures HeaderOk(h.cfg, mem', y, h.zones[y], r)
  {
    forall f: int | f in h.zones[y].freed && f in mem ensures f in mem' && mem'[f] == mem[f] {
      FreedElsewhere(h, y, f, p);
    }
    SpellsFrame(mem, mem', r.freechunk, h.zones[y].freed);
  }

  /** A chunk belongs to one zone. */
  lemma ZonesApart(h: Heap, y: int, f: int, z: int, p: int)
    requires h.cfg.Valid() && OwnersOk(h) && y in h.zones && z in h.zones && y != z
    requires h.zones[y].Active? && ZoneOk(h.cfg, y, h.zones[y]) && f in h.zones[y].handed
    requires h.zones[z].Active? && ZoneOk(h.cfg, z, h.zones[z]) && p in h.zones[z].handed
    ensures f != p
  {
    ChunkOwner(h, y, h.zones[y], f);
    ChunkOwner(h, z, h.zones[z], p);
  }

  lemma FitIs(free: set<int>, n: nat, b: int)
    requires n > 0 && IsFirstFit(free, n, b)
    ensures FirstFit(free, n) == Some(b)
  {
    FirstFitUnique(free, n, b, FirstFit(free, n).value);
  }

  lemma NoneFits(free: set<int>, n: nat)
    requires n == 0 || forall p: int :: !Contiguous(free, p, n)
    ensures FirstFit(free, n).None?
  {
  }

  lemma FreeAfterTake(owner: map<int, Owner>, h: Heap, b: int, n: nat, o: Owner)
    requires owner == h.owner && !o.Free? && Contiguous(FreePages(h), b, n)
    ensures FreePages(h.(owner := Assign(owner, b, b + n, o))) == FreePages(h) - Span(b, b + n)
  {
  }

  lemma FreeAfterReturn(h: Heap, b: int, n: nat)
    requires forall p: int :: b <= p < b + n ==> p in h.owner
    ensures FreePages(h.(owner := Assign(h.owner, b, b + n, Free))) == FreePages(h) + Span(b, b + n)
  {
  }

  lemma UsageAfterLarge(h: Heap, usage: map<int, Usage>, b: int, n: nat)
    requires OwnersOk(h) && h.cfg.Valid() && UsageOk(h, usage) && n > 0 && Contiguous(FreePages(h), b, n)
    ensures UsageOk(h.(owner := Assign(h.owner, b, b + n, Large(b)), large := h.large[b := n]),
                    usage[b := Usage(LargeKind, n)])
  {
    assert b in FreePages(h);
    var u := usage[b := Usage(LargeKind, n)];
    forall z: int | z in h.zones ensures Numbered(u, z, h.cfg.zonePages) {
      FreeRangeApart(h, b, n, z, h.cfg.zonePages, InZone(z));
    }
  }

  lemma UsageAfterCarve(h: Heap, usage: map<int, Usage>, usage': map<int, Usage>, z: int)
    requires OwnersOk(h) && h.cfg.Valid() && UsageOk(h, usage) && Contiguous(FreePages(h), z, h.cfg.zonePages)
    requires Numbered(usage', z, h.cfg.zonePages)
    requires forall p: int :: p in usage && !(z <= p < z + h.cfg.zonePages) ==> p in usage' && usage'[p] == usage[p]
    ensures UsageOk(AddCached(h, z), usage')
  {
    var n := h.cfg.zonePages;
    var h' := AddCached(h, z);
    forall y: int | y in h'.zones ensures Numbered(usage', y, n) {
      if y != z {
        FreeRangeApart(h, z, n, y, n, InZone(y));
        assert Numbered(usage, y, n);
      }
    }
    forall b: int | b in h'.large ensures b in usage' && usage'[b] == Usage(LargeKind, h'.large[b]) {
      FreeRangeApart(h, z, n, b, h.large[b], Large(b));
    }
  }

  /** The header after sk_malloc took a chunk. */
  lemma HeaderAfterTake(cfg: Config, mem: map<int, int>, z: int, zone: Zone, r: Header)
    requires zone.Active? && HeaderOk(cfg, mem, z, zone, r) && NFree(cfg, zone) > 0
    ensures r.uindex + 1 != r.nmax ==>
              HeaderOk(cfg, mem, z, Served(cfg, z, zone).0, r.(nfree := r.nfree - 1, uindex := r.uindex + 1))
              && Served(cfg, z, zone).1 == r.base + (r.uindex + 1) * r.chunkSize
    ensures r.uindex + 1 == r.nmax ==>
              zone.freed != [] && r.freechunk in mem
              && HeaderOk(cfg, mem, z, Served(cfg, z, zone).0, r.(nfree := r.nfree - 1, freechunk := mem[r.freechunk]))
              && Served(cfg, z, zone).1 == r.freechunk
  {
  }

  lemma ZoneChangeRefines(h: Heap, z: int, zone: Zone, lists: seq<seq<int>>, mem: map<int, int>,
                          headers: map<int, Header>, r: Header, usage: map<int, Usage>)
    requires HeadersOk(h, mem, headers) && UsageOk(h, usage) && z in h.zones
    requires zone.Active? ==> HeaderOk(h.cfg, mem, z, zone, r)
    ensures HeadersOk(WithZone(h, z, zone, lists), mem, headers[z := r])
    ensures UsageOk(WithZone(h, z, zone, lists), usage) && FreePages(WithZone(h, z, zone, lists)) == FreePages(h)
  {
  }

  lemma TakeIsServe(h: Heap, cls: SizeClass)
    requires Ready(h) && 0 <= cls.index < NUM_ZONES && h.lists[cls.index] != []
    requires h.zones[h.lists[cls.index][0]].cls == cls
    ensures var z := h.lists[cls.index][0]; var (zone', a) := Served(h.cfg, z, h.zones[z]);
            var lists := if NFree(h.cfg, h.zones[z]) == 1 then h.lists[cls.index := h.lists[cls.index][1..]]
                         else h.lists;
            TakeChunk(h, cls) == (WithZone(h, z, zone', lists), Some(a))
  {
  }

  lemma TakeInv(h: Heap, cls: SizeClass, sizes: iset<nat>)
    requires Inv(h) && Ready(h) && ClassesFrom(h, sizes) && Serves(h.cfg, cls, sizes)
    requires 0 <= cls.index < NUM_ZONES && h.lists[cls.index] != []
    requires h.zones[h.lists[cls.index][0]].cls == cls
    ensures var h' := TakeChunk(h, cls).0; h'.cfg == h.cfg && Inv(h') && ClassesFrom(h', sizes)
  {
    TakeCase(h, cls, sizes);
  }

  lemma HeadersAfterCarve(h: Heap, mem: map<int, int>, headers: map<int, Header>, z: int)
    requires HeadersOk(h, mem, headers)
    ensures HeadersOk(AddCached(h, z), mem, headers)
  {
  }

  lemma CarvedFree(h: Heap, z: int)
    requires Contiguous(FreePages(h), z, h.cfg.zonePages)
    ensures FreePages(AddCached(h, z)) == FreePages(h) - Span(z, z + h.cfg.zonePages)
  {
    FreeAfterTake(h.owner, h, z, h.cfg.zonePages, InZone(z));
  }

  lemma CarveInv(h: Heap, z: int, sizes: iset<nat>)
    requires Inv(h) && h.cache == [] && Contiguous(FreePages(h), z, h.cfg.zonePages) && ClassesFrom(h, sizes)
    ensures Inv(AddCached(h, z)) && ClassesFrom(AddCached(h, z), sizes)
  {
    AddCachedKeeps(h, z);
    ClassesAfter(h, AddCached(h, z), sizes, z);
  }

  lemma OpenInv(h: Heap, z: int, cls: SizeClass, sizes: iset<nat>)
    requires Inv(h) && h.cache != [] && h.cache[0] == z * PAGE && ClassOk(h.cfg, cls)
    requires ClassesFrom(h, sizes) && Serves(h.cfg, cls, sizes)
    ensures Inv(Opened(h, z, cls)) && ClassesFrom(Opened(h, z, cls), sizes)
  {
    OpenZoneInv(h, z, cls);
    ClassesAfter(h, Opened(h, z, cls), sizes, z);
  }

  lemma LargeInv(h: Heap, n: nat, b: int, sizes: iset<nat>)
    requires Inv(h) && ClassesFrom(h, sizes) && n > 0 && Contiguous(FreePages(h), b, n)
    ensures var h' := MallocLarge(h, n, Some(b)).0; h'.cfg == h.cfg && Inv(h') && ClassesFrom(h', sizes)
  {
    LargeCase(h, n, b, sizes);
  }

  lemma LargeFree(h: Heap, n: nat, b: int)
    requires Contiguous(FreePages(h), b, n)
    ensures FreePages(MallocLarge(h, n, Some(b)).0) == FreePages(h) - Span(b, b + n)
  {
    FreeAfterTake(h.owner, h, b, n, Large(b));
  }

  lemma CachedZone(h: Heap, z: int)
    requires CacheOk(h) && h.cache != [] && h.cache[0] == z * PAGE
    ensures z in h.zones && h.zones[z].Cached?
  {
    assert CachedAt(h.zones, h.cache[0]);
  }

  lemma OpenedIs(h: Heap, z: int, cls: SizeClass)
    requires |h.lists| == NUM_ZONES && 0 <= cls.index < NUM_ZONES && h.cache != []
    ensures Opened(h, z, cls) ==
            WithZone(h, z, Active(cls, [Base(z, cls)], []), h.lists[cls.index := [z] + h.lists[cls.index]])
              .(cache := h.cache[1..], cacheCount := h.cacheCount - 1)
  {
  }

  lemma CarvedIs(h: Heap, z: int, cls: SizeClass)
    requires |h.lists| == NUM_ZONES && 0 <= cls.index < NUM_ZONES && h.cache == []
    ensures Opened(AddCached(h, z), z, cls) ==
            OpenZone(h.(owner := Assign(h.owner, z, z + h.cfg.zonePages, InZone(z))), z, cls).0
  {
    var zone := Active(cls, [Base(z, cls)], []);
    assert AddCached(h, z).zones[z := zone] == h.zones[z := zone];
    assert AddCached(h, z).cache[1..] == h.cache;
  }

  // ---- sk_free ----

  /** The usage entry of a live pointer's page leads to its owner. */
  lemma UsageFinds(h: Heap, usage: map<int, Usage>, p: int)
    requires Inv(h) && UsageOk(h, usage) && LiveSize(h, p).Some?
    ensures p / PAGE in usage
    ensures match h.owner[p / PAGE]
            case Large(b) => b == p / PAGE && b in h.large && usage[b] == Usage(LargeKind, h.large[b])
            case InZone(z) => z in h.zones && InUse(h.zones[z], p) && usage[p / PAGE] == Usage(SmallKind, p / PAGE - z)
            case _ => false
  {
    assert OwnerKnown(h, p / PAGE);
    match h.owner[p / PAGE]
    case InZone(z) => assert Numbered(usage, z, h.cfg.zonePages);
    case _ =>
  }

  /** A page block is freed as such. */
  lemma LargePath(h: Heap, usage: map<int, Usage>, p: int, page: int)
    requires Inv(h) && UsageOk(h, usage) && LiveSize(h, p).Some? && CanFree(h, p) && page == p / PAGE
    requires h.owner[page].Large?
    ensures page in usage && page in h.large && usage[page] == Usage(LargeKind, h.large[page])
    ensures FreeBlock(h, p) == FreeLarge(h, page) && !ReleaseGuard(h, p)
  {
    UsageFinds(h, usage, p);
  }

  /** A chunk is freed in its zone z. */
  lemma ChunkPath(h: Heap, usage: map<int, Usage>, p: int, page: int, z: int)
    requires Inv(h) && UsageOk(h, usage) && LiveSize(h, p).Some? && CanFree(h, p) && page == p / PAGE
    requires h.owner[page] == InZone(z)
    ensures page in usage && usage[page] == Usage(SmallKind, page - z)
    ensures z in h.zones && InUse(h.zones[z], p) && 0 <= h.zones[z].cls.index < |h.lists|
    ensures FreeBlock(h, p) == FreeChunk(h, z, p)
    ensures ReleaseGuard(h, p) <==> Retires(PushChunk(h, z, p), z) && h.cacheCount >= RELEASE_NUM
  {
    UsageFinds(h, usage, p);
  }

  lemma LargeRest(h: Heap, b: int, mem: map<int, int>, headers: map<int, Header>)
    requires b in h.large && HeadersOk(h, mem, headers)
    ensures var h' := FreeLarge(h, b);
            && HeadersOk(h', mem, headers) && h'.cfg == h.cfg && h'.lists == h.lists && h'.cache == h.cache
            && h'.cacheCount == h.cacheCount
  {
  }

  lemma LargeBack(h: Heap, b: int, usage: map<int, Usage>, sizes: iset<nat>)
    requires Inv(h) && b in h.large && UsageOk(h, usage) && ClassesFrom(h, sizes)
    ensures Inv(FreeLarge(h, b)) && ClassesFrom(FreeLarge(h, b), sizes)
    ensures FreePages(h) !! Span(b, b + h.large[b]) && h.large[b] > 0
    ensures b >= 0
    ensures FreePages(FreeLarge(h, b)) == FreePages(h) + Span(b, b + h.large[b])
    ensures UsageOk(FreeLarge(h, b), usage[b := usage[b].(size := 0)])
  {
    FreeLargeKeeps(h, b);
    assert RangeOwned(h.owner, b, h.large[b], Large(b));
    assert b in h.owner.Keys;
    FreeAfterReturn(h, b, h.large[b]);
    var u := usage[b := usage[b].(size := 0)];
    forall z: int | z in h.zones ensures Numbered(u, z, h.cfg.zonePages) {
      RangesApart(h.owner, b, h.large[b], Large(b), z, h.cfg.zonePages, InZone(z));
      assert Numbered(usage, z, h.cfg.zonePages);
    }
  }

  lemma PushInv(h: Heap, z: int, p: int, sizes: iset<nat>)
    requires Inv(h) && ClassesFrom(h, sizes) && z in h.zones && InUse(h.zones[z], p)
    ensures 0 <= h.zones[z].cls.index < |h.lists|
    ensures Inv(PushChunk(h, z, p)) && ClassesFrom(PushChunk(h, z, p), sizes)
  {
    PushChunkKeeps(h, z, p);
    ClassesAfter(h, PushChunk(h, z, p), sizes, z);
  }

  /** Writing the link word of chunk p of zone z disturbs no freed chunk. */
  lemma PushLinks(h: Heap, mem: map<int, int>, headers: map<int, Header>, z: int, p: int, v: int)
    requires Inv(h) && HeadersOk(h, mem, headers) && z in h.zones && InUse(h.zones[z], p)
    ensures HeadersOk(h, mem[p := v], headers)
  {
    forall y: int | y in h.zones && h.zones[y].Active?
      ensures y in headers && HeaderOk(h.cfg, mem[p := v], y, h.zones[y], headers[y])
    {
      assert ZoneOk(h.cfg, y, h.zones[y]) && ZoneOk(h.cfg, z, h.zones[z]);
      if y != z && p in h.zones[y].freed { ZonesApart(h, y, p, z, p); }
      SpellsFrame(mem, mem[p := v], headers[y].freechunk, h.zones[y].freed);
    }
  }

  lemma PushHeader(cfg: Config, mem: map<int, int>, z: int, zone: Zone, r: Header, p: int)
    requires InUse(zone, p) && HeaderOk(cfg, mem, z, zone, r)
    ensures HeaderOk(cfg, mem[p := r.freechunk], z, zone.(freed := [p] + zone.freed),
                     r.(freechunk := p, nfree := r.nfree + 1))
  {
    assert ([p] + zone.freed)[1..] == zone.freed;
    SpellsFrame(mem, mem[p := r.freechunk], r.freechunk, zone.freed);
  }

  /** A zone with a free chunk is on its list, and its pages are its own. */
  lemma RetireTest(h: Heap, z: int, r: Header)
    requires Inv(h) && z in h.zones && h.zones[z].Active?
    requires r.zoneIndex == h.zones[z].cls.index && r.nfree == NFree(h.cfg, h.zones[z]) > 0
    ensures 0 <= r.zoneIndex < |h.lists| && z in h.lists[r.zoneIndex]
    ensures RangeOwned(h.owner, z, h.cfg.zonePages, InZone(z)) && z >= 0
  {
    assert ZoneOk(h.cfg, z, h.zones[z]);
    assert Listable(h, z, r.zoneIndex);
    assert z in h.owner.Keys;
  }

  lemma FreeFacts(h: Heap, p: int, sizes: iset<nat>)
    requires Inv(h) && LiveSize(h, p).Some? && ClassesFrom(h, sizes)
    ensures CanFree(h, p) && FreeBlock(h, p).cfg == h.cfg
    ensures !ReleaseGuard(h, p) ==> Inv(FreeBlock(h, p)) && ClassesFrom(FreeBlock(h, p), sizes)
  {
    FreeBlockKeeps(h, p);
    ClassesShrink(h, p, sizes);
  }

  class SlabAllocator {
    const cfg: Config

    ghost const sizes: iset<nat>

    const pager: P.PageAllocator

    var usage: map<int, Usage>        // sys_mem_usage
    var headers: map<int, Header>     // the struct slab_zone at the start of each zone
    var zoneArray: seq<seq<int>>      // sys_zone_array
    var zoneFree: seq<int>            // addresses on sys_zone_free
    var zoneFreeCnt: int              // sys_zone_free_cnt
    var mem: map<int, int>            // the first word of every chunk

    ghost var h: Heap

    /** The same while the page allocator's list holds `free`. */
    ghost predicate RefinesWith(free: set<int>)
      reads this, pager
    {
      && h.cfg == cfg && pager.Valid() && Pages(pager.runs) == free
      && zoneArray == h.lists && zoneFree == h.cache && zoneFreeCnt == h.cacheCount
      && HeadersOk(h, mem, headers) && UsageOk(h, usage)
    }

    /** Everything but the model's own invariant. */
    ghost predicate Refines()
      reads this, pager
    {
      RefinesWith(FreePages(h))
    }

    ghost predicate Valid()
      reads this, pager
    {
      Refines() && Inv(h) && ClassesFrom(h, sizes) && Consistent(h.cfg, sizes)
    }

    constructor Fresh(cfg: Config, table: nat, pager: P.PageAllocator, usage0: map<int, Usage>,
                      headers0: map<int, Header>, mem0: map<int, int>, ghost sizes: iset<nat>)
      requires cfg.Valid() && Consistent(cfg, sizes) && pager.Valid()
      requires Pages(pager.runs) == Span(cfg.first + table, cfg.first + cfg.npages)
      requires forall p: int :: cfg.first <= p < cfg.first + cfg.npages ==> p in usage0
      ensures Valid() && h == InitHeap(cfg, table) && this.cfg == cfg && this.sizes == sizes && this.pager == pager
    {
      this.cfg, this.sizes, this.pager := cfg, sizes, pager;
      usage, headers, mem := usage0, headers0, mem0;
      zoneArray, zoneFree, zoneFreeCnt := seq(NUM_ZONES, _ => []), [], 0;
      h := InitHeap(cfg, table);
      new;
      InitKeeps(cfg, table, sizes);
      assert FreePages(h) == Span(cfg.first + table, cfg.first + cfg.npages);
    }

    /** The client writes anywhere inside a block it holds. */
    method ClientWrite(p: int, mem': map<int, int>)
      requires Valid() && LiveSize(h, p).Some?
      requires forall f: int :: f in mem && Outside(f, p, LiveSize(h, p).value) ==> f in mem' && mem'[f] == mem[f]
      modifies this`mem
      ensures Valid() && mem == mem'
    {
      forall y: int | y in h.zones && h.zones[y].Active?
        ensures y in headers && HeaderOk(cfg, mem', y, h.zones[y], headers[y])
      {
        HeaderAfterWrite(h, y, p, mem, mem', headers[y]);
      }
      mem := mem';
    }

    /** The usage entry of a page block. */
    method RecordLarge(b: int, n: nat)
      requires h.cfg.Valid() && OwnersOk(h) && n > 0 && Contiguous(FreePages(h), b, n)
      requires RefinesWith(FreePages(h) - Span(b, b + n))
      modifies this`usage, this`h
      ensures Refines() && h == MallocLarge(old(h), n, Some(b)).0
    {
      UsageAfterLarge(h, usage, b, n);
      LargeFree(h, n, b);
      usage := usage[b := Usage(LargeKind, n)];
      h := MallocLarge(h, n, Some(b)).0;
    }

    /** sk_malloc of at least sys_zone_limit bytes. */
    method AllocLarge(n: nat) returns (p: Option<int>)
      requires Valid()
      modifies this, pager
      ensures Valid() && (h, p) == MallocLarge(old(h), n, FirstFit(FreePages(old(h)), n))
    {
      FirstFitComplete(h, n);
      var b := pager.Alloc(n);
      if b == P.NULL { return None; }
      FitIs(FreePages(h), n, b);
      LargeInv(h, n, b, sizes);
      RecordLarge(b, n);
      return Some(b * PAGE);
    }

    /** Writing back one zone header and the class lists. */
    method StoreZone(z: int, ghost zone: Zone, lists: seq<seq<int>>, r: Header)
      requires Refines() && z in h.zones && (zone.Active? ==> HeaderOk(cfg, mem, z, zone, r))
      modifies this`headers, this`zoneArray, this`h
      ensures Refines() && h == WithZone(old(h), z, zone, lists)
    {
      ZoneChangeRefines(h, z, zone, lists, mem, headers, r, usage);
      headers := headers[z := r];
      zoneArray := lists;
      h := WithZone(h, z, zone, lists);
    }

    /** The header words and the address of the next chunk: from the never-used area while there is any. */
    method NextChunk(z: int, ghost zone: Zone, r: Header, size: nat) returns (r': Header, p: int)
      requires zone.Active? && HeaderOk(cfg, mem, z, zone, r) && NFree(cfg, zone) > 0 && size == zone.cls.chunk
      ensures |zone.handed| == NMax(cfg, zone.cls) ==> zone.freed != []
      ensures HeaderOk(cfg, mem, z, Served(cfg, z, zone).0, r') && p == Served(cfg, z, zone).1
      ensures r'.nfree == r.nfree - 1
    {
      HeaderAfterTake(cfg, mem, z, zone, r);
      r' := r.(nfree := r.nfree - 1);
      if r'.uindex + 1 != r'.nmax {
        r' := r'.(uindex := r'.uindex + 1);
        p := r'.base + r'.uindex * size;
      } else {
        p := r'.freechunk;
        r' := r'.(freechunk := mem[r'.freechunk]);
      }
    }

    /** sk_malloc from the first zone of class `index`. */
    method AllocChunk(index: int, size: nat, ghost cls: SizeClass) returns (p: Option<int>)
      requires Valid() && cls.index == index && cls.chunk == size && ClassOk(cfg, cls) && Serves(cfg, cls, sizes)
      requires Ready(h) && zoneArray[index] != [] && h.zones[zoneArray[index][0]].cls == cls
      modifies this
      ensures Valid() && (h, p) == TakeChunk(old(h), cls)
    {
      var z := zoneArray[index][0];
      HeadCanServe(h, index);
      TakeInv(h, cls, sizes);
      TakeIsServe(h, cls);
      ghost var zone' := Served(cfg, z, h.zones[z]).0;
      var r, a := NextChunk(z, h.zones[z], headers[z], size);
      StoreZone(z, zone', if r.nfree == 0 then zoneArray[index := zoneArray[index][1..]] else zoneArray, r);
      return Some(a);
    }

    /** Setting usage entries lo, ..., lo + n - 1 to SMALL with their offset. */
    method NumberPages(lo: int, n: nat)
      modifies this`usage
      ensures Numbered(usage, lo, n)
      ensures forall p: int :: p in old(usage) && !(lo <= p < lo + n) ==> p in usage && usage[p] == old(usage)[p]
    {
      var off := 0;
      while off < n
        invariant 0 <= off <= n && Numbered(usage, lo, off)
        invariant forall p: int :: p in old(usage) && !(lo <= p < lo + off) ==> p in usage && usage[p] == old(usage)[p]
      {
        usage := usage[lo + off := Usage(SmallKind, off)];
        off := off + 1;
      }
    }

    /** Numbering the pages taken for a new zone; the model parks it in the cache for the moment. */
    method ParkZone(z: int)
      requires h.cfg.Valid() && Contiguous(FreePages(h), z, cfg.zonePages) && OwnersOk(h)
      requires RefinesWith(FreePages(h) - Span(z, z + cfg.zonePages)) && zoneFree == []
      modifies this
      ensures Refines() && h == AddCached(old(h), z)
    {
      NumberPages(z, cfg.zonePages);
      UsageAfterCarve(h, old(usage), usage, z);
      CarvedFree(h, z);
      HeadersAfterCarve(h, mem, headers, z);
      zoneFree, zoneFreeCnt := [z * PAGE] + zoneFree, zoneFreeCnt + 1;
      h := AddCached(h, z);
    }

    /** Taking the pages of a new zone from the page allocator. */
    method CarveZone() returns (z: int)
      requires Valid() && zoneFree == []
      modifies this, pager
      ensures z == P.NULL ==> Valid() && h == old(h) && FirstFit(FreePages(old(h)), cfg.zonePages).None?
      ensures z != P.NULL ==> FirstFit(FreePages(old(h)), cfg.zonePages) == Some(z)
      ensures z != P.NULL ==> Valid() && h == AddCached(old(h), z)
    {
      ghost var free := FreePages(h);
      assert Pages(pager.runs) == free;
      z := pager.Alloc(cfg.zonePages);
      if z == P.NULL {
        NoneFits(free, cfg.zonePages);
      } else {
        FitIs(free, cfg.zonePages, z);
        CarveInv(h, z, sizes);
        ParkZone(z);
      }
    }

    /** The header of a zone set up for a class; z_freechunk keeps whatever it held. */
    method NewHeader(z: int, index: int, size: nat, off: nat, ghost cls: SizeClass) returns (r: Header)
      requires size == cls.chunk && index == cls.index && off == cls.off
      ensures HeaderOk(cfg, mem, z, Active(cls, [Base(z, cls)], []), r)
    {
      var nmax := (cfg.ZoneSize() - off) / size;
      var stale := if z in headers then headers[z].freechunk else 0;
      r := Header(nmax - 1, nmax, z * PAGE + off, 0, size, index, stale);
    }

    /** Taking the first zone off the cache list. */
    method PopCache()
      requires Refines() && zoneFree != []
      modifies this`zoneFree, this`zoneFreeCnt, this`h
      ensures Refines() && h == old(h).(cache := old(h).cache[1..], cacheCount := old(h).cacheCount - 1)
    {
      zoneFree, zoneFreeCnt := zoneFree[1..], zoneFreeCnt - 1;
      h := h.(cache := h.cache[1..], cacheCount := h.cacheCount - 1);
      assert UsageOk(h, usage) && HeadersOk(h, mem, headers);
    }

    /** Setting up the cached zone z for a class. */
    method SetUpZone(z: int, index: int, size: nat, off: nat, ghost cls: SizeClass) returns (p: int)
      requires Valid() && zoneFree != [] && zoneFree[0] == z * PAGE
      requires ClassOk(cfg, cls) && Serves(cfg, cls, sizes) && size == cls.chunk && index == cls.index && off == cls.off
      modifies this
      ensures Valid() && h == Opened(old(h), z, cls) && p == Base(z, cls)
    {
      CachedZone(h, z);
      OpenInv(h, z, cls, sizes);
      OpenedIs(h, z, cls);
      var r := NewHeader(z, index, size, off, cls);
      p := r.base;
      StoreZone(z, Active(cls, [Base(z, cls)], []), zoneArray[index := [z] + zoneArray[index]], r);
      PopCache();
    }

    /** sk_malloc when the class has no zone with a free chunk. */
    method AllocZone(index: int, size: nat, off: nat, ghost cls: SizeClass) returns (p: Option<int>)
      requires Valid() && ClassOk(cfg, cls) && Serves(cfg, cls, sizes)
      requires size == cls.chunk && index == cls.index && off == cls.off
      modifies this, pager
      ensures Valid() && (h, p) == NewZone(old(h), cls, FirstFit(FreePages(old(h)), cfg.zonePages))
    {
      var z;
      if zoneFree != [] {
        z := zoneFree[0] / PAGE;
        assert CachedAt(h.zones, h.cache[0]);
      } else {
        z := CarveZone();
        if z == P.NULL { return None; }
        CarvedIs(old(h), z, cls);
      }
      var a := SetUpZone(z, index, size, off, cls);
      return Some(a);
    }

    /** sk_malloc */
    method SkMalloc(size: nat) returns (p: Option<int>)
      requires Valid() && size in sizes && size < WORD
      modifies this, pager
      ensures Valid() && Ready(old(h)) && (h, p) == Malloc(old(h), size)
    {
      InvReady(h);
      LimitBounds(cfg);
      if size == 0 { return None; }
      if size >= cfg.ZoneLimit() {
        p := AllocLarge(SkAlign(size, PAGE) / PAGE);
        return;
      }
      RequestClassOk(cfg, size);
      var (index, chunk) := ZoneIndex(size);
      ghost var cls := ClassOf(size);
      assert Serves(cfg, cls, sizes);
      if zoneArray[index] != [] {
        HeadMatches(h, size, sizes);
        p := AllocChunk(index, chunk, cls);
      } else {
        p := AllocZone(index, chunk, ChunkOffset(chunk), cls);
      }
    }

    method ReturnPages(b: int, n: nat)
      requires pager.Valid() && b in usage && b >= 0 && n > 0 && Pages(pager.runs) !! Span(b, b + n)
      modifies this`usage, pager
      ensures usage == old(usage)[b := old(usage)[b].(size := 0)]
      ensures pager.Valid() && Pages(pager.runs) == old(Pages(pager.runs)) + Span(b, b + n)
    {
      usage := usage[b := usage[b].(size := 0)];
      pager.Free(b, n);
    }

    method ReturnBlock(b: int, n: nat)
      requires Refines() && b in h.large && b in usage && b >= 0 && n > 0 && FreePages(h) !! Span(b, b + n)
      requires FreePages(FreeLarge(h, b)) == FreePages(h) + Span(b, b + n)
      requires UsageOk(FreeLarge(h, b), usage[b := usage[b].(size := 0)])
      modifies this, pager
      ensures Refines() && h == FreeLarge(old(h), b)
    {
      LargeRest(h, b, mem, headers);
      ReturnPages(b, n);
      h := FreeLarge(h, b);
    }

    /** sk_free of a page block. */
    method FreePageBlock(b: int, n: nat)
      requires Valid() && b in h.large && n == h.large[b]
      modifies this, pager
      ensures Valid() && h == FreeLarge(old(h), b)
    {
      LargeBack(h, b, usage, sizes);
      ReturnBlock(b, n);
    }

    method WriteLink(p: int, v: int)
      requires Refines() && HeadersOk(h, mem[p := v], headers)
      modifies this`mem
      ensures Refines() && mem == old(mem)[p := v]
    {
      mem := mem[p := v];
    }

    /** sk_free of a chunk, up to the list of its class. */
    method PushBack(z: int, p: int)
      requires Valid() && z in h.zones && InUse(h.zones[z], p)
      modifies this
      ensures Valid() && 0 <= old(h).zones[z].cls.index < |old(h).lists| && h == PushChunk(old(h), z, p)
    {
      PushInv(h, z, p, sizes);
      var r := headers[z];
      ghost var zone' := h.zones[z].(freed := [p] + h.zones[z].freed);
      PushHeader(cfg, mem, z, h.zones[z], r, p);
      PushLinks(h, mem, headers, z, p, r.freechunk);
      WriteLink(p, r.freechunk);
      var i := r.zoneIndex;
      StoreZone(z, zone', if r.nfree == 0 then zoneArray[i := [z] + zoneArray[i]] else zoneArray,
                r.(freechunk := p, nfree := r.nfree + 1));
    }

    /** The loop that unlinks a zone from the list of its class. */
    method Unlink(l: seq<int>, z: int) returns (r: seq<int>)
      requires z in l
      ensures r == Without(l, z)
    {
      var k := 0;
      while l[k] != z
        invariant 0 <= k < |l| && z !in l[..k] && z in l[k..]
        decreases |l| - k
      {
        k := k + 1;
      }
      WithoutAt(l, z, k);
      r := l[..k] + l[k + 1..];
    }

    /** A totally free zone moves to the cache. */
    method RetireZone(z: int)
      requires Refines() && z in h.zones && h.zones[z].Active? && 0 <= headers[z].zoneIndex < |zoneArray|
      requires z in zoneArray[headers[z].zoneIndex]
      modifies this
      ensures 0 <= old(h).zones[z].cls.index < |old(h).lists|
      ensures Refines() && h == Retire(old(h), z)
    {
      var i := headers[z].zoneIndex;
      var l := Unlink(zoneArray[i], z);
      StoreZone(z, Cached, zoneArray[i := l], headers[z]);
      zoneFree, zoneFreeCnt := [z * PAGE] + zoneFree, zoneFreeCnt + 1;
      h := h.(cache := [z * PAGE] + h.cache, cacheCount := h.cacheCount + 1);
      assert UsageOk(h, usage) && HeadersOk(h, mem, headers);
    }

    /** The release branch: the zone pointer, not the counter, is decremented. */
    method ReleaseZone(z: int)
      requires Refines() && |zoneFree| >= 3 && z in h.zones && RangeOwned(h.owner, z, cfg.zonePages, InZone(z))
      requires z >= 0 && cfg.zonePages > 0
      modifies this, pager
      ensures h == Release(old(h), z) && zoneFree == h.cache && zoneFreeCnt == h.cacheCount
      ensures pager.Valid() && Pages(pager.runs) == FreePages(h)
    {
      assert FreePages(h) !! Span(z, z + cfg.zonePages);
      FreeAfterReturn(h, z, cfg.zonePages);
      zoneFree := zoneFree[1..];
      zoneFree := [zoneFree[0] - ZONE_HEADER] + zoneFree[1..];
      var i := 0;
      while i < cfg.zonePages
        invariant zoneFree == [old(zoneFree)[1] - ZONE_HEADER] + old(zoneFree)[2..]
        invariant pager.Valid() && Pages(pager.runs) == FreePages(old(h)) && h == old(h)
        invariant zoneFreeCnt == old(zoneFreeCnt)
      {
        usage := usage[z + i := Usage(FreeKind, 0)];
        i := i + 1;
      }
      pager.Free(z, cfg.zonePages);
      h := Release(h, z);
    }

    /** sk_free of a chunk of zone z. */
    method FreeZoneChunk(z: int, p: int)
      requires Valid() && z in h.zones && InUse(h.zones[z], p) && 0 <= h.zones[z].cls.index < |h.lists|
      modifies this, pager
      ensures h == FreeChunk(old(h), z, p)
      ensures !(Retires(PushChunk(old(h), z, p), z) && old(h).cacheCount >= RELEASE_NUM) ==> Refines()
    {
      PushBack(z, p);
      var r := headers[z];
      RetireTest(h, z, r);
      if r.nfree == r.nmax && |zoneArray[r.zoneIndex]| > 1 {
        RetireZone(z);
        if zoneFreeCnt > RELEASE_NUM { ReleaseZone(z); }
      }
    }

    method FreeHeldLarge(p: int, page: int)
      requires Valid() && LiveSize(h, p).Some? && page == p / PAGE && h.owner[page].Large?
      modifies this, pager
      ensures CanFree(old(h), p) && h == FreeBlock(old(h), p) && Valid()
    {
      FreeFacts(h, p, sizes);
      LargePath(h, usage, p, page);
      FreePageBlock(page, usage[page].size);
    }

    method FreeHeldChunk(p: int, page: int)
      requires Valid() && LiveSize(h, p).Some? && page == p / PAGE && h.owner[page].InZone?
      modifies this, pager
      ensures CanFree(old(h), p) && h == FreeBlock(old(h), p)
      ensures !ReleaseGuard(old(h), p) ==> Valid()
    {
      FreeFacts(h, p, sizes);
      ghost var o := h.owner[page];
      ChunkPath(h, usage, p, page, o.zone);
      var z := page - usage[page].size;
      assert z == o.zone;
      FreeZoneChunk(z, p);
    }

    /** sk_free of a block in the given page, found through the usage entry of the page. */
    method FreeHeld(p: int, page: int)
      requires Valid() && LiveSize(h, p).Some? && page == p / PAGE
      modifies this, pager
      ensures CanFree(old(h), p) && h == FreeBlock(old(h), p)
      ensures !ReleaseGuard(old(h), p) ==> Valid()
    {
      UsageFinds(h, usage, p);
      if usage[page].kind == LargeKind { FreeHeldLarge(p, page); } else { FreeHeldChunk(p, page); }
    }

    /** sk_free. Outside the release branch the allocator stays valid; in it the cache list is lost. */
    method SkFree(ptr: Option<int>)
      requires Valid() && (ptr.Some? ==> LiveSize(h, ptr.value).Some?)
      modifies this, pager
      ensures ptr.None? ==> Valid() && h == old(h)
      ensures ptr.Some? ==> CanFree(old(h), ptr.value) && h == FreeBlock(old(h), ptr.value)
      ensures ptr.Some? && !ReleaseGuard(old(h), ptr.value) ==> Valid()
    {
      if ptr.Some? { FreeHeld(ptr.value, ptr.value / PAGE); }
    }
  }

  function PagesBetween(start: int, stop: int): (n: int)
    ensures 0 <= n < 0x10_0000
  {
    (stop - start) % 0x1_0000_0000 / PAGE
  }

  /** limit_size / SK_PAGE_SIZE: the pages between the two aligned addresses, in 32-bit arithmetic. */
  function HeapPages(begin: nat, end: nat): (n: int)
    requires begin < WORD && end < WORD
    ensures 0 <= n
  {
    PagesBetween(SkAlign(begin, PAGE), SkAlign(end, PAGE))
  }

  function TableLen(npages: nat): (n: nat)
  {
    (4 * npages + PAGE - 1) / PAGE
  }

  /** The usage table of n pages. */
  lemma TablePages(n: nat)
    requires 0 < n < 0x10_0000
    ensures SkAlign(4 * n, PAGE) / PAGE == (4 * n + PAGE - 1) / PAGE && 0 < (4 * n + PAGE - 1) / PAGE <= n
  {
    SmallPowers();
    SkAlignRoundsUp(4 * n, 12);
  }

  /** The usage table has no page it does not need. */
  lemma TableTight(n: nat)
    requires n > 0
    ensures (TableLen(n) - 1) * PAGE < 4 * n <= TableLen(n) * PAGE
  {
  }

  lemma AllocFromOneRun(first: nat, n: nat, t: nat, b: nat, r: seq<Run>)
    requires 0 < t <= n && P.Taken([Run(first, n)], t, b, r)
    ensures b == first && Pages(r) == Span(first + t, first + n)
  {
    PagesOne(Run(first, n));
    assert b in Span(first, first + n);
    assert Contiguous(Pages([Run(first, n)]), first, t);
    assert Pages(r) == Span(first + t, first + n);
  }

  /** sk_page_init and the sk_page_alloc of the usage table. */
  method InitPages(first: nat, npages: nat, next0: map<int, int>, page0: map<int, nat>)
    returns (pager: P.PageAllocator, table: nat)
    requires 0 < npages < 0x10_0000
    ensures fresh(pager) && pager.Valid() && table == TableLen(npages)
    ensures Pages(pager.runs) == Span(first + table, first + npages)
  {
    pager := new P.PageAllocator(first, npages, next0, page0);
    TablePages(npages);
    table := SkAlign(npages * 4, PAGE) / PAGE;
    ghost var s := pager.runs;
    PagesOne(Run(first, npages));
    assert Contiguous(Pages(s), first, table);
    var b := pager.Alloc(table);
    assert exists p: int :: Contiguous(Pages(s), p, table);
    AllocFromOneRun(first, npages, table, b, pager.runs);
  }

  /** sys_zone_size for a heap of `limit` bytes. */
  function ZoneSizeOf(limit: nat): (z: nat)
    ensures z in {32768, 65536, 131072}
  {
    if limit / 1024 <= 65536 then 32768 else if limit / 1024 <= 131072 then 65536 else 131072
  }

  /** The zone size loop of sk_system_mem_init: the largest doubling of 32K below a thousandth of the heap. */
  method ZoneSizeFor(limit: nat) returns (zoneSize: nat)
    ensures zoneSize == ZoneSizeOf(limit)
    ensures (zoneSize == 32768 || zoneSize < limit / 1024) && (zoneSize == 131072 || 2 * zoneSize >= limit / 1024)
  {
    zoneSize := 32768;
    while zoneSize < 131072 && 2 * zoneSize < limit / 1024
      invariant zoneSize in {32768, 65536, 131072}
      invariant zoneSize == 32768 || zoneSize < limit / 1024
      decreases 131072 - zoneSize
    {
      zoneSize := 2 * zoneSize;
    }
  }

  /** The heap between two page boundaries. */
  function ConfigFor(start: nat, stop: nat): (cfg: Config)
    ensures cfg.Valid()
  {
    Config(start / PAGE, PagesBetween(start, stop), ZoneSizeOf((stop - start) % 0x1_0000_0000) / PAGE)
  }

  lemma WholePages(d: nat)
    requires d % PAGE == 0
    ensures d % 0x1_0000_0000 / PAGE * PAGE == d % 0x1_0000_0000
    ensures d == d / 0x1_0000_0000 * 0x1_0000_0000 + d % 0x1_0000_0000
    ensures d % 0x1_0000_0000 == d <==> d < 0x1_0000_0000
  {
    var a := d / PAGE;
    var q, b := a / 0x10_0000, a % 0x10_0000;
    DivMod(d, 0x1_0000_0000, q, b * PAGE);
    DivMod(b * PAGE, PAGE, b, 0);
  }

  /** The pages of the heap are exactly those between the two boundaries, as long as they are less than 4 GiB apart;
      else they are the difference modulo 4 GiB. */
  lemma HeapBounds(start: nat, stop: nat)
    requires start % PAGE == 0 && stop % PAGE == 0 && start <= stop
    ensures var cfg := ConfigFor(start, stop);
            && cfg.first * PAGE == start
            && ((cfg.first + cfg.npages) * PAGE == stop <==> stop - start < 0x1_0000_0000)
            && exists q: nat :: (cfg.first + cfg.npages) * PAGE + q * 0x1_0000_0000 == stop
  {
    var d := stop - start;
    WholePages(d);
    var q := d / 0x1_0000_0000;
    assert (ConfigFor(start, stop).first + ConfigFor(start, stop).npages) * PAGE + q * 0x1_0000_0000 == stop;
  }

  /** The part of sk_system_mem_init behind its alignments. */
  method SetUpHeap(first: nat, npages: nat, limit: nat, next0: map<int, int>, page0: map<int, nat>,
                   usage0: map<int, Usage>,
                   headers0: map<int, Header>, mem0: map<int, int>, ghost sizes: iset<nat>)
    returns (a: SlabAllocator)
    requires 0 < npages < 0x10_0000 && Span(first, first + npages) <= usage0.Keys
    requires Consistent(Config(first, npages, ZoneSizeOf(limit) / PAGE), sizes)
    ensures fresh(a) && fresh(a.pager) && a.Valid() && a.sizes == sizes
    ensures a.cfg == Config(first, npages, ZoneSizeOf(limit) / PAGE)
    ensures a.h == InitHeap(a.cfg, TableLen(npages))
  {
    var pager, table := InitPages(first, npages, next0, page0);
    var zoneSize := ZoneSizeFor(limit);
    var cfg := Config(first, npages, zoneSize / PAGE);
    a := new SlabAllocator.Fresh(cfg, table, pager, usage0, headers0, mem0, sizes);
  }

  /** sk_system_mem_init between two page boundaries. */
  method MemInitAligned(start: nat, stop: nat, next0: map<int, int>, page0: map<int, nat>, usage0: map<int, Usage>,
                        headers0: map<int, Header>, mem0: map<int, int>, ghost sizes: iset<nat>)
    returns (r: Option<SlabAllocator>)
    requires PagesBetween(start, stop) > 0
    requires Span(start / PAGE, start / PAGE + PagesBetween(start, stop)) <= usage0.Keys
    requires Consistent(ConfigFor(start, stop), sizes)
    ensures r.None? <==> start > stop
    ensures r.Some? ==> fresh(r.value) && fresh(r.value.pager) && r.value.Valid() && r.value.sizes == sizes
    ensures r.Some? ==> && r.value.cfg == ConfigFor(start, stop)
                        && r.value.h == InitHeap(r.value.cfg, TableLen(PagesBetween(start, stop)))
  {
    if start > stop { return None; }
    var limit := (stop - start) % 0x1_0000_0000;
    var npages := limit / PAGE;
    assert npages == PagesBetween(start, stop);
    var a := SetUpHeap(start / PAGE, npages, limit, next0, page0, usage0, headers0, mem0, sizes);
    return Some(a);
  }

  /** sk_system_mem_init; usage table, zone headers and chunks start out with arbitrary contents. */
  method MemInit(begin: nat, end: nat, next0: map<int, int>, page0: map<int, nat>, usage0: map<int, Usage>,
                 headers0: map<int, Header>, mem0: map<int, int>, ghost sizes: iset<nat>)
    returns (r: Option<SlabAllocator>)
    requires begin < WORD && end < WORD && HeapPages(begin, end) > 0
    requires Span(SkAlign(begin, PAGE) / PAGE, SkAlign(begin, PAGE) / PAGE + HeapPages(begin, end)) <= usage0.Keys
    requires Consistent(ConfigFor(SkAlign(begin, PAGE), SkAlign(end, PAGE)), sizes)
    ensures r.None? <==> SkAlign(begin, PAGE) > SkAlign(end, PAGE)
    ensures r.Some? ==> fresh(r.value) && fresh(r.value.pager) && r.value.Valid() && r.value.sizes == sizes
    ensures r.Some? ==> && r.value.cfg == ConfigFor(SkAlign(begin, PAGE), SkAlign(end, PAGE))
                        && r.value.h == InitHeap(r.value.cfg, TableLen(HeapPages(begin, end)))
  {
    r := MemInitAligned(SkAlign(begin, PAGE), SkAlign(end, PAGE), next0, page0, usage0, headers0, mem0, sizes);
  }
}
