/** What every sk_malloc and sk_free keeps. */
module HeapInvariant {
  import opened Arith
  import opened PageRuns
  import opened Seqs
  import opened SizeClasses
  import opened Heap

  ghost predicate RangeOwned(owner: map<int, Owner>, lo: int, n: nat, o: Owner)
  {
    forall p: int :: lo <= p < lo + n ==> p in owner && owner[p] == o
  }

  ghost predicate OwnerKnown(h: Heap, p: int)
    requires p in h.owner
  {
    match h.owner[p]
    case InZone(z) => z in h.zones && z <= p < z + h.cfg.zonePages
    case Large(b) => b in h.large && b <= p < b + h.large[b]
    case _ => true
  }

  /** Every heap page has exactly one owner, and the owners own whole ranges. */
  ghost predicate OwnersOk(h: Heap)
  {
    && h.owner.Keys == Span(h.cfg.first, h.cfg.first + h.cfg.npages)
    && (forall z: int :: z in h.zones ==> RangeOwned(h.owner, z, h.cfg.zonePages, InZone(z)))
    && (forall b: int :: b in h.large ==> h.large[b] > 0 && RangeOwned(h.owner, b, h.large[b], Large(b)))
    && (forall p: int :: p in h.owner ==> OwnerKnown(h, p))
  }

  ghost predicate ClassOk(cfg: Config, cls: SizeClass)
  {
    && 0 <= cls.index < NUM_ZONES
    && 8 <= cls.chunk && 4 * cls.chunk <= cfg.ZoneSize()
    && ZONE_HEADER <= cls.off && (cls.off <= 64 || cls.off <= cls.chunk)
  }

  /** Chunk i of a zone. */
  ghost function ChunkAddr(z: int, cls: SizeClass, i: int): int
  {
    Base(z, cls) + i * cls.chunk
  }

  /** The chunks handed out lie on the zone's grid; the freed ones are distinct chunks among them. */
  ghost predicate ZoneOk(cfg: Config, z: int, zone: Zone)
    requires zone.Active?
  {
    && ClassOk(cfg, zone.cls)
    && 1 <= |zone.handed| <= NMax(cfg, zone.cls)
    && (forall i: int :: 0 <= i < |zone.handed| ==> zone.handed[i] == ChunkAddr(z, zone.cls, i))
    && NoDup(zone.freed)
    && Inside(zone.freed, zone.handed)
  }

  ghost predicate ZonesOk(h: Heap)
  {
    forall z: int :: z in h.zones && h.zones[z].Active? ==> ZoneOk(h.cfg, z, h.zones[z])
  }

  /** Zone z belongs on the list of class i: it serves that class and has a chunk to give. */
  ghost predicate Listable(h: Heap, z: int, i: int)
  {
    z in h.zones && h.zones[z].Active? && h.zones[z].cls.index == i && NFree(h.cfg, h.zones[z]) > 0
  }

  ghost predicate ListsOk(h: Heap)
  {
    && |h.lists| == NUM_ZONES
    && (forall i: int :: 0 <= i < NUM_ZONES ==> NoDup(h.lists[i]))
    && (forall i: int, z: int :: 0 <= i < NUM_ZONES ==> (z in h.lists[i] <==> Listable(h, z, i)))
  }

  /** Address a is the start of a cached zone. */
  ghost predicate CachedAt(zones: map<int, Zone>, a: int)
  {
    a % PAGE == 0 && a / PAGE in zones && zones[a / PAGE].Cached?
  }

  ghost predicate CacheOk(h: Heap)
  {
    && h.cacheCount == |h.cache| <= RELEASE_NUM && NoDup(h.cache)
    && (forall a: int :: a in h.cache ==> CachedAt(h.zones, a))
    && (forall z: int :: z in h.zones && h.zones[z].Cached? ==> z * PAGE in h.cache)
  }

  ghost predicate Serves(cfg: Config, cls: SizeClass, sizes: iset<nat>)
  {
    exists s :: s in sizes && 0 < s < cfg.ZoneLimit() <= 16384 && ClassOf(s) == cls
  }

  /** Every active zone was set up for one of the request sizes in use. */
  ghost predicate ClassesFrom(h: Heap, sizes: iset<nat>)
  {
    forall z: int :: z in h.zones && h.zones[z].Active? ==> Serves(h.cfg, h.zones[z].cls, sizes)
  }

  ghost predicate Inv(h: Heap)
  {
    h.cfg.Valid() && OwnersOk(h) && ZonesOk(h) && ListsOk(h) && CacheOk(h)
  }

  // ---- geometry ----

  lemma ChunkBounds(cfg: Config, z: int, cls: SizeClass, i: int)
    requires cfg.Valid() && ClassOk(cfg, cls) && 0 <= i < NMax(cfg, cls)
    ensures z * PAGE + ZONE_HEADER <= ChunkAddr(z, cls, i)
    ensures ChunkAddr(z, cls, i) + cls.chunk <= (z + cfg.zonePages) * PAGE
    ensures z <= ChunkAddr(z, cls, i) / PAGE < z + cfg.zonePages
  {
    ZoneLayout(cfg.ZoneSize(), cls.off, cls.chunk);
    MulStep(i, NMax(cfg, cls), cls.chunk);
    MulLe(0, i, cls.chunk);
  }

  lemma EndOfZone(z: int, cfg: Config, off: nat, n: int, chunk: nat)
    ensures z * PAGE + off + n * chunk > (z + cfg.zonePages) * PAGE <==> cfg.ZoneSize() < off + n * chunk
  {
  }

  /** The zone ends before chunk number n would. */
  ghost predicate NoRoomFor(cfg: Config, z: int, cls: SizeClass, n: nat)
  {
    ChunkAddr(z, cls, n) + cls.chunk > (z + cfg.zonePages) * PAGE
  }

  /** z_nmax counts every chunk the zone has room for. */
  lemma NoRoomIff(cfg: Config, z: int, cls: SizeClass, n: nat)
    requires cfg.Valid() && ClassOk(cfg, cls)
    ensures NoRoomFor(cfg, z, cls, n) <==> NMax(cfg, cls) <= n
  {
    ZoneLayout(cfg.ZoneSize(), cls.off, cls.chunk);
    EndOfZone(z, cfg, cls.off, n + 1, cls.chunk);
    assert ChunkAddr(z, cls, n) + cls.chunk == z * PAGE + cls.off + (n + 1) * cls.chunk;
    if NMax(cfg, cls) <= n {
      MulLe(NMax(cfg, cls) + 1, n + 1, cls.chunk);
    } else {
      MulLe(n + 1, NMax(cfg, cls), cls.chunk);
    }
  }

  lemma ChunksApart(z: int, cls: SizeClass, i: int, j: int)
    requires i < j
    ensures ChunkAddr(z, cls, i) + cls.chunk <= ChunkAddr(z, cls, j)
  {
    MulStep(i, j, cls.chunk);
  }

  lemma HandedNoDup(cfg: Config, z: int, zone: Zone)
    requires zone.Active? && ZoneOk(cfg, z, zone)
    ensures NoDup(zone.handed)
    ensures |zone.freed| <= |zone.handed|
    ensures |zone.freed| == |zone.handed| ==> Inside(zone.handed, zone.freed)
  {
    forall i: int, j: int | 0 <= i < j < |zone.handed| ensures zone.handed[i] != zone.handed[j] {
      ChunksApart(z, zone.cls, i, j);
    }
    Pigeonhole(zone.freed, zone.handed);
  }

  /** A zone has no chunk to give exactly when all chunks it handed out are in use and it has no room for another. */
  lemma FullIff(cfg: Config, z: int, zone: Zone)
    requires cfg.Valid() && zone.Active? && ZoneOk(cfg, z, zone)
    ensures NFree(cfg, zone) == 0 <==> zone.freed == [] && NoRoomFor(cfg, z, zone.cls, |zone.handed|)
  {
    NoRoomIff(cfg, z, zone.cls, |zone.handed|);
  }

  lemma RangesApart(owner: map<int, Owner>, a: int, n: nat, x: Owner, b: int, m: nat, y: Owner)
    requires RangeOwned(owner, a, n, x) && RangeOwned(owner, b, m, y) && x != y && n > 0 && m > 0
    ensures a + n <= b || b + m <= a
  {
    assert a in owner && owner[a] == x;
    assert b in owner && owner[b] == y;
  }

  // ---- what the invariant means for live blocks ----

  /** The pages a live block lives in, and how it lies in them. */
  lemma LiveGeometry(h: Heap, p: int)
    requires Inv(h) && LiveSize(h, p).Some?
    ensures var n := LiveSize(h, p).value;
            match h.owner[p / PAGE]
            case Large(b) =>
              b in h.large && p == b * PAGE && p + n == (b + h.large[b]) * PAGE
              && RangeOwned(h.owner, b, h.large[b], Large(b)) && h.large[b] > 0
            case InZone(z) =>
              z in h.zones && z * PAGE + ZONE_HEADER <= p && p + n <= (z + h.cfg.zonePages) * PAGE
              && RangeOwned(h.owner, z, h.cfg.zonePages, InZone(z))
            case _ => false
  {
    assert OwnerKnown(h, p / PAGE);
    match h.owner[p / PAGE]
    case InZone(z) =>
      var zone := h.zones[z];
      var i :| 0 <= i < |zone.handed| && zone.handed[i] == p;
      assert ZoneOk(h.cfg, z, zone);
      ChunkBounds(h.cfg, z, zone.cls, i);
    case _ =>
  }

  lemma SameZoneDisjoint(cfg: Config, z: int, zone: Zone, p: int, q: int)
    requires zone.Active? && ZoneOk(cfg, z, zone) && p != q && p in zone.handed && q in zone.handed
    ensures p + zone.cls.chunk <= q || q + zone.cls.chunk <= p
  {
    var i :| 0 <= i < |zone.handed| && zone.handed[i] == p;
    var j :| 0 <= j < |zone.handed| && zone.handed[j] == q;
    if i < j { ChunksApart(z, zone.cls, i, j); } else { ChunksApart(z, zone.cls, j, i); }
  }

  /** Live blocks do not overlap. */
  lemma LiveDisjoint(h: Heap, p: int, q: int)
    requires Inv(h) && LiveSize(h, p).Some? && LiveSize(h, q).Some? && p != q
    ensures p + LiveSize(h, p).value <= q || q + LiveSize(h, q).value <= p
  {
    LiveGeometry(h, p);
    LiveGeometry(h, q);
    var x, y := h.owner[p / PAGE], h.owner[q / PAGE];
    if x == y {
      if x.InZone? { SameZoneDisjoint(h.cfg, x.zone, h.zones[x.zone], p, q); }
    } else {
      var a, n := if x.Large? then x.block else x.zone, if x.Large? then h.large[x.block] else h.cfg.zonePages;
      var b, m := if y.Large? then y.block else y.zone, if y.Large? then h.large[y.block] else h.cfg.zonePages;
      RangesApart(h.owner, a, n, x, b, m, y);
    }
  }

  /** A live block lies inside the heap and touches no free page, no usage-table page and no zone header. */
  lemma LiveClear(h: Heap, p: int, a: int)
    requires Inv(h) && LiveSize(h, p).Some? && p <= a < p + LiveSize(h, p).value
    ensures h.cfg.first * PAGE <= a < (h.cfg.first + h.cfg.npages) * PAGE
    ensures a / PAGE in h.owner && !h.owner[a / PAGE].Free? && !h.owner[a / PAGE].Table?
    ensures forall z: int :: z in h.zones ==> !(z * PAGE <= a < z * PAGE + ZONE_HEADER)
  {
    LiveGeometry(h, p);
    var x := h.owner[p / PAGE];
    assert h.owner[a / PAGE] == x;
    assert a / PAGE in Span(h.cfg.first, h.cfg.first + h.cfg.npages);
    forall z: int | z in h.zones ensures !(z * PAGE <= a < z * PAGE + ZONE_HEADER) {
      assert z in h.owner && h.owner[z] == InZone(z);
    }
  }
}
