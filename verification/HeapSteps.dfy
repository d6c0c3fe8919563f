/** Every step of the allocator keeps the invariant and changes the live blocks as its caller expects. */
module HeapSteps {
  import opened Options
  import opened PageRuns
  import opened Seqs
  import opened SizeClasses
  import opened Heap
  import opened HeapInvariant

  /** Block a of n bytes becomes live; nothing else changes for the clients. */
  ghost predicate Grants(h: Heap, h': Heap, a: int, n: nat)
  {
    && LiveSize(h, a) == None
    && forall q: int :: LiveSize(h', q) == if q == a then Some(n) else LiveSize(h, q)
  }

  /** Block p ceases to be live; nothing else changes for the clients. */
  ghost predicate Returns(h: Heap, h': Heap, p: int)
  {
    forall q: int :: LiveSize(h', q) == if q == p then None else LiveSize(h, q)
  }

  // ---- a zone changes in place ----

  ghost function WithZone(h: Heap, z: int, zone: Zone, lists: seq<seq<int>>): Heap
  {
    h.(zones := h.zones[z := zone], lists := lists)
  }

  lemma OwnersKept(h: Heap, z: int, zone: Zone, lists: seq<seq<int>>)
    requires OwnersOk(h) && z in h.zones
    ensures OwnersOk(WithZone(h, z, zone, lists))
  {
    var h' := WithZone(h, z, zone, lists);
    assert h'.zones.Keys == h.zones.Keys;
    forall p: int | p in h'.owner ensures OwnerKnown(h', p) { assert OwnerKnown(h, p); }
  }

  lemma ActiveReplaced(h: Heap, z: int, zone: Zone, lists: seq<seq<int>>)
    requires ZonesOk(h) && CacheOk(h) && z in h.zones && h.zones[z].Active? && zone.Active? && ZoneOk(h.cfg, z, zone)
    ensures ZonesOk(WithZone(h, z, zone, lists)) && CacheOk(WithZone(h, z, zone, lists))
  {
  }

  /** The lists after zone z kept its class: drop it when it got full, add it when it was full. */
  lemma ListsAfterTake(h: Heap, z: int, zone: Zone)
    requires ListsOk(h) && z in h.zones && h.zones[z].Active? && zone.Active? && zone.cls == h.zones[z].cls
    requires var i := zone.cls.index; 0 <= i < NUM_ZONES && h.lists[i] != [] && h.lists[i][0] == z
    requires NFree(h.cfg, zone) == NFree(h.cfg, h.zones[z]) - 1
    ensures var i := zone.cls.index;
            var lists := if NFree(h.cfg, h.zones[z]) == 1 then h.lists[i := h.lists[i][1..]] else h.lists;
            ListsOk(WithZone(h, z, zone, lists))
  {
    var i := zone.cls.index;
    var lists := if NFree(h.cfg, h.zones[z]) == 1 then h.lists[i := h.lists[i][1..]] else h.lists;
    var h' := WithZone(h, z, zone, lists);
    var l := h.lists[i];
    assert NoDup(l) && l == [z] + l[1..];
    assert z !in l[1..];
    assert Listable(h, z, i) by { assert z in l; }
    forall k: int, y: int | 0 <= k < NUM_ZONES ensures y in lists[k] <==> Listable(h', y, k) {
      assert y in h.lists[k] <==> Listable(h, y, k);
    }
  }

  lemma ListsAfterPush(h: Heap, z: int, zone: Zone)
    requires ListsOk(h) && z in h.zones && h.zones[z].Active? && zone.Active? && zone.cls == h.zones[z].cls
    requires 0 <= zone.cls.index < NUM_ZONES
    requires NFree(h.cfg, h.zones[z]) >= 0 && NFree(h.cfg, zone) == NFree(h.cfg, h.zones[z]) + 1
    ensures var i := zone.cls.index;
            var lists := if NFree(h.cfg, h.zones[z]) == 0 then h.lists[i := [z] + h.lists[i]] else h.lists;
            ListsOk(WithZone(h, z, zone, lists))
  {
    var i := zone.cls.index;
    var lists := if NFree(h.cfg, h.zones[z]) == 0 then h.lists[i := [z] + h.lists[i]] else h.lists;
    var h' := WithZone(h, z, zone, lists);
    assert z in h.lists[i] <==> Listable(h, z, i);
    forall k: int, y: int | 0 <= k < NUM_ZONES ensures y in lists[k] <==> Listable(h', y, k) {
      assert y in h.lists[k] <==> Listable(h, y, k);
    }
  }

  // ---- sk_malloc from an existing zone ----

  /** The head zone of a list always has a chunk: either one never used, or a valid freed one. */
  lemma HeadCanServe(h: Heap, i: int)
    requires Inv(h) && 0 <= i < NUM_ZONES && h.lists[i] != []
    ensures CanTake(h, h.lists[i][0]) && Listable(h, h.lists[i][0], i)
  {
    var z := h.lists[i][0];
    assert z in h.lists[i];
    assert Listable(h, z, i);
    assert ZoneOk(h.cfg, z, h.zones[z]);
  }

  lemma InvReady(h: Heap)
    requires Inv(h)
    ensures Ready(h)
  {
    forall i: int | 0 <= i < NUM_ZONES && h.lists[i] != [] ensures CanTake(h, h.lists[i][0]) { HeadCanServe(h, i); }
  }

  lemma FreshChunkOk(cfg: Config, z: int, zone: Zone)
    requires cfg.Valid() && zone.Active? && ZoneOk(cfg, z, zone) && |zone.handed| < NMax(cfg, zone.cls)
    ensures var a := ChunkAddr(z, zone.cls, |zone.handed|);
            && a !in zone.handed && ZoneOk(cfg, z, zone.(handed := zone.handed + [a]))
            && z <= a / PAGE < z + cfg.zonePages
  {
    var n := |zone.handed|;
    var a := ChunkAddr(z, zone.cls, n);
    ChunkBounds(cfg, z, zone.cls, n);
    forall i: int | 0 <= i < n ensures zone.handed[i] != a { ChunksApart(z, zone.cls, i, n); }
    var handed := zone.handed + [a];
    assert Inside(zone.freed, handed);
  }

  lemma PoppedChunkOk(cfg: Config, z: int, zone: Zone)
    requires zone.Active? && ZoneOk(cfg, z, zone) && zone.freed != []
    ensures ZoneOk(cfg, z, zone.(freed := zone.freed[1..]))
    ensures zone.freed[0] in zone.handed && zone.freed[0] !in zone.freed[1..]
    ensures forall q: int :: q != zone.freed[0] ==> (q in zone.freed[1..] <==> q in zone.freed)
  {
    assert zone.freed == [zone.freed[0]] + zone.freed[1..];
  }

  lemma HandedPage(cfg: Config, z: int, zone: Zone, a: int)
    requires cfg.Valid() && zone.Active? && ZoneOk(cfg, z, zone) && a in zone.handed
    ensures z <= a / PAGE < z + cfg.zonePages
  {
    var i :| 0 <= i < |zone.handed| && zone.handed[i] == a;
    ChunkBounds(cfg, z, zone.cls, i);
  }

  /** Chunk q of the zone is in use. */
  ghost predicate InUse(zone: Zone, q: int)
  {
    zone.Active? && q in zone.handed && q !in zone.freed
  }

  lemma ChunkOwner(h: Heap, z: int, zone: Zone, q: int)
    requires h.cfg.Valid() && OwnersOk(h) && z in h.zones && zone.Active? && ZoneOk(h.cfg, z, zone) && q in zone.handed
    ensures q / PAGE in h.owner && h.owner[q / PAGE] == InZone(z)
  {
    HandedPage(h.cfg, z, zone, q);
    assert RangeOwned(h.owner, z, h.cfg.zonePages, InZone(z));
  }

  /** Replacing zone z by one of the same class changes LiveSize exactly where the use of a chunk changed. */
  lemma LiveAfterZone(h: Heap, z: int, zone: Zone, lists: seq<seq<int>>, q: int)
    requires h.cfg.Valid() && OwnersOk(h) && z in h.zones && h.zones[z].Active? && ZoneOk(h.cfg, z, h.zones[z])
    requires zone.Active? && zone.cls == h.zones[z].cls && ZoneOk(h.cfg, z, zone)
    ensures LiveSize(WithZone(h, z, zone, lists), q) ==
            if InUse(zone, q) then Some(zone.cls.chunk) else if InUse(h.zones[z], q) then None else LiveSize(h, q)
    ensures InUse(h.zones[z], q) ==> LiveSize(h, q) == Some(zone.cls.chunk)
  {
    if InUse(zone, q) { ChunkOwner(h, z, zone, q); }
    if InUse(h.zones[z], q) { ChunkOwner(h, z, h.zones[z], q); }
  }

  /** Chunk a of zone z goes into use. */
  lemma ChunkGranted(h: Heap, z: int, zone: Zone, lists: seq<seq<int>>, a: int)
    requires Inv(h) && z in h.zones && h.zones[z].Active? && zone.Active? && zone.cls == h.zones[z].cls
    requires ZoneOk(h.cfg, z, zone) && z <= a / PAGE < z + h.cfg.zonePages
    requires !InUse(h.zones[z], a) && forall q: int :: InUse(zone, q) <==> InUse(h.zones[z], q) || q == a
    ensures Grants(h, WithZone(h, z, zone, lists), a, zone.cls.chunk)
  {
    forall q: int
      ensures LiveSize(WithZone(h, z, zone, lists), q) == if q == a then Some(zone.cls.chunk) else LiveSize(h, q)
    {
      LiveAfterZone(h, z, zone, lists, q);
    }
    assert RangeOwned(h.owner, z, h.cfg.zonePages, InZone(z));
  }

  lemma ZoneStepKeeps(h: Heap, z: int, zone: Zone, lists: seq<seq<int>>)
    requires Inv(h) && z in h.zones && h.zones[z].Active? && zone.Active? && ZoneOk(h.cfg, z, zone)
    requires ListsOk(WithZone(h, z, zone, lists))
    ensures Inv(WithZone(h, z, zone, lists))
  {
    OwnersKept(h, z, zone, lists);
    ActiveReplaced(h, z, zone, lists);
  }

  /** The zone after sk_malloc took a chunk from it, and the chunk. */
  ghost function Served(cfg: Config, z: int, zone: Zone): (r: (Zone, int))
    requires zone.Active? && (|zone.handed| == NMax(cfg, zone.cls) ==> zone.freed != [])
  {
    if |zone.handed| != NMax(cfg, zone.cls) then
      var a := ChunkAddr(z, zone.cls, |zone.handed|); (zone.(handed := zone.handed + [a]), a)
    else (zone.(freed := zone.freed[1..]), zone.freed[0])
  }

  lemma ServedOk(cfg: Config, z: int, zone: Zone)
    requires cfg.Valid() && zone.Active? && ZoneOk(cfg, z, zone)
    requires |zone.handed| == NMax(cfg, zone.cls) ==> zone.freed != []
    ensures var (zone', a) := Served(cfg, z, zone);
            && ZoneOk(cfg, z, zone') && zone'.cls == zone.cls && NFree(cfg, zone') == NFree(cfg, zone) - 1
            && z <= a / PAGE < z + cfg.zonePages
            && !InUse(zone, a) && forall q: int :: InUse(zone', q) <==> InUse(zone, q) || q == a
  {
    if |zone.handed| != NMax(cfg, zone.cls) {
      FreshChunkOk(cfg, z, zone);
    } else {
      PoppedChunkOk(cfg, z, zone);
      HandedPage(cfg, z, zone, zone.freed[0]);
    }
  }

  lemma TakeServes(h: Heap, cls: SizeClass)
    requires Ready(h) && 0 <= cls.index < NUM_ZONES && h.lists[cls.index] != []
    requires h.zones[h.lists[cls.index][0]].cls == cls
    ensures var z := h.lists[cls.index][0];
            var (zone', a) := Served(h.cfg, z, h.zones[z]);
            TakeChunk(h, cls) ==
              (WithZone(h, z, zone', if NFree(h.cfg, h.zones[z]) == 1 then h.lists[cls.index := h.lists[cls.index][1..]]
                                     else h.lists), Some(a))
  {
  }

  lemma TakeChunkKeeps(h: Heap, cls: SizeClass)
    requires Inv(h) && Ready(h) && 0 <= cls.index < NUM_ZONES && h.lists[cls.index] != []
    requires h.zones[h.lists[cls.index][0]].cls == cls
    ensures var (h', a) := TakeChunk(h, cls); a.Some? && Inv(h') && Grants(h, h', a.value, cls.chunk)
  {
    var z := h.lists[cls.index][0];
    var zone := h.zones[z];
    var (zone', a) := Served(h.cfg, z, zone);
    var lists := if NFree(h.cfg, zone) == 1 then h.lists[cls.index := h.lists[cls.index][1..]] else h.lists;
    TakeServes(h, cls);
    ServedOk(h.cfg, z, zone);
    ListsAfterTake(h, z, zone');
    ZoneStepKeeps(h, z, zone', lists);
    ChunkGranted(h, z, zone', lists, a);
  }

  /** Which chunk the first zone of a class hands out: the next never-used one as long as the zone has room for it, else
      the one freed last. No other zone changes. */
  lemma TakeOrder(h: Heap, cls: SizeClass)
    requires Inv(h) && Ready(h) && 0 <= cls.index < NUM_ZONES && h.lists[cls.index] != []
    requires h.zones[h.lists[cls.index][0]].cls == cls
    ensures var z := h.lists[cls.index][0];
            var zone := h.zones[z];
            var (h', a) := TakeChunk(h, cls);
            if !NoRoomFor(h.cfg, z, cls, |zone.handed|) then
              var next := ChunkAddr(z, cls, |zone.handed|);
              a == Some(next) && h'.zones == h.zones[z := zone.(handed := zone.handed + [next])]
            else
              && zone.freed != [] && a == Some(zone.freed[0])
              && h'.zones == h.zones[z := zone.(freed := zone.freed[1..])]
  {
    var z := h.lists[cls.index][0];
    HeadCanServe(h, cls.index);
    assert ZoneOk(h.cfg, z, h.zones[z]);
    NoRoomIff(h.cfg, z, cls, |h.zones[z].handed|);
    TakeServes(h, cls);
  }

  // ---- sk_malloc that opens a zone ----

  lemma PageStart(z: int)
    ensures z * PAGE % PAGE == 0 && z * PAGE / PAGE == z
  {
  }

  lemma CacheHead(h: Heap, z: int)
    requires CacheOk(h) && h.cache != [] && h.cache[0] == z * PAGE
    ensures z in h.zones && h.zones[z].Cached?
  {
    assert h.cache[0] in h.cache && CachedAt(h.zones, h.cache[0]);
    PageStart(z);
  }

  /** Cached zone z set up for a class, off the cache list. */
  ghost function Opened(h: Heap, z: int, cls: SizeClass): Heap
    requires |h.lists| == NUM_ZONES && 0 <= cls.index < NUM_ZONES && h.cache != []
  {
    OpenZone(h.(cache := h.cache[1..], cacheCount := h.cacheCount - 1), z, cls).0
  }

  lemma ZonesAfterOpen(h: Heap, h': Heap, z: int, zone: Zone)
    requires ZonesOk(h) && h'.cfg == h.cfg && h'.zones == h.zones[z := zone]
    requires zone.Active? ==> ZoneOk(h.cfg, z, zone)
    ensures ZonesOk(h')
  {
  }

  lemma ListsSame(h: Heap, h': Heap)
    requires ListsOk(h) && h'.cfg == h.cfg && h'.zones == h.zones && h'.lists == h.lists
    ensures ListsOk(h')
  {
    forall k: int, y: int | 0 <= k < NUM_ZONES ensures y in h'.lists[k] <==> Listable(h', y, k) {
      assert y in h.lists[k] <==> Listable(h, y, k);
    }
  }

  lemma OwnersSame(h: Heap, h': Heap)
    requires OwnersOk(h) && h'.owner == h.owner && h'.cfg == h.cfg && h'.large == h.large && h'.zones == h.zones
    ensures OwnersOk(h')
  {
    forall p: int | p in h'.owner ensures OwnerKnown(h', p) { assert OwnerKnown(h, p); }
  }

  lemma NewZoneOk(cfg: Config, z: int, cls: SizeClass)
    requires cfg.Valid() && ClassOk(cfg, cls)
    ensures ZoneOk(cfg, z, Active(cls, [Base(z, cls)], []))
    ensures NFree(cfg, Active(cls, [Base(z, cls)], [])) >= 2
  {
    ZoneLayout(cfg.ZoneSize(), cls.off, cls.chunk);
    assert ChunkAddr(z, cls, 0) == Base(z, cls);
  }

  lemma ListsAfterOpen(h: Heap, z: int, zone: Zone)
    requires ListsOk(h) && z in h.zones && h.zones[z].Cached?
    requires zone.Active? && 0 <= zone.cls.index < NUM_ZONES && NFree(h.cfg, zone) > 0
    ensures ListsOk(WithZone(h, z, zone, h.lists[zone.cls.index := [z] + h.lists[zone.cls.index]]))
  {
    var i := zone.cls.index;
    var lists := h.lists[i := [z] + h.lists[i]];
    var h' := WithZone(h, z, zone, lists);
    assert z in h.lists[i] <==> Listable(h, z, i);
    forall k: int, y: int | 0 <= k < NUM_ZONES ensures y in lists[k] <==> Listable(h', y, k) {
      assert y in h.lists[k] <==> Listable(h, y, k);
    }
  }

  lemma StillCached(zones: map<int, Zone>, a: int, z: int, zone: Zone)
    requires CachedAt(zones, a) && a != z * PAGE
    ensures CachedAt(zones[z := zone], a)
  {
  }

  lemma CacheAfterPop(h: Heap, z: int, zone: Zone, lists: seq<seq<int>>)
    requires CacheOk(h) && h.cache != [] && h.cache[0] == z * PAGE && zone.Active?
    ensures CacheOk(WithZone(h.(cache := h.cache[1..], cacheCount := h.cacheCount - 1), z, zone, lists))
  {
    var h' := WithZone(h.(cache := h.cache[1..], cacheCount := h.cacheCount - 1), z, zone, lists);
    TailMembers(h.cache);
    forall a: int | a in h'.cache ensures CachedAt(h'.zones, a) { StillCached(h.zones, a, z, zone); }
    forall y: int | y in h'.zones && h'.zones[y].Cached? ensures y * PAGE in h'.cache {
      assert y != z && y * PAGE in h.cache;
    }
  }

  lemma OpenZoneInv(h: Heap, z: int, cls: SizeClass)
    requires Inv(h) && h.cache != [] && h.cache[0] == z * PAGE && ClassOk(h.cfg, cls)
    ensures Inv(Opened(h, z, cls))
  {
    var zone := Active(cls, [Base(z, cls)], []);
    var lists := h.lists[cls.index := [z] + h.lists[cls.index]];
    var h' := Opened(h, z, cls);
    CacheHead(h, z);
    NewZoneOk(h.cfg, z, cls);
    OwnersKept(h, z, zone, lists);
    OwnersSame(WithZone(h, z, zone, lists), h');
    ListsAfterOpen(h, z, zone);
    ListsSame(WithZone(h, z, zone, lists), h');
    CacheAfterPop(h, z, zone, lists);
    ZonesAfterOpen(h, h', z, zone);
  }

  /** Chunk a is the only one in use of a zone that was cached before. */
  lemma OpenedGrant(h: Heap, h': Heap, z: int, zone: Zone, a: int)
    requires h.cfg.Valid() && OwnersOk(h) && z in h.zones && h.zones[z].Cached?
    requires zone.Active? && ZoneOk(h.cfg, z, zone) && zone.handed == [a] && zone.freed == []
    requires h'.owner == h.owner && h'.large == h.large && h'.zones == h.zones[z := zone]
    ensures Grants(h, h', a, zone.cls.chunk)
  {
    ChunkOwner(h, z, zone, a);
  }

  lemma OpenZoneGrant(h: Heap, z: int, cls: SizeClass)
    requires Inv(h) && h.cache != [] && h.cache[0] == z * PAGE && ClassOk(h.cfg, cls)
    ensures Grants(h, Opened(h, z, cls), Base(z, cls), cls.chunk)
  {
    CacheHead(h, z);
    NewZoneOk(h.cfg, z, cls);
    OpenedGrant(h, Opened(h, z, cls), z, Active(cls, [Base(z, cls)], []), Base(z, cls));
  }

  /** The carved pages as one more cached zone. */
  ghost function AddCached(h: Heap, z: int): Heap
  {
    h.(owner := Assign(h.owner, z, z + h.cfg.zonePages, InZone(z)), zones := h.zones[z := Cached],
       cache := [z * PAGE] + h.cache, cacheCount := h.cacheCount + 1)
  }

  /** A range of free pages holds no part of a zone or block. */
  lemma FreeRangeApart(h: Heap, lo: int, n: nat, a: int, m: nat, o: Owner)
    requires n > 0 && m > 0 && !o.Free? && Contiguous(FreePages(h), lo, n) && RangeOwned(h.owner, a, m, o)
    ensures a + m <= lo || lo + n <= a
  {
    assert lo in FreePages(h);
    assert RangeOwned(h.owner, lo, n, Free) by {
      forall p: int | lo <= p < lo + n ensures p in h.owner && h.owner[p] == Free { assert p in FreePages(h); }
    }
    RangesApart(h.owner, lo, n, Free, a, m, o);
  }

  /** Reassigning pages outside [a, a + m) keeps that range's owner. */
  lemma AssignApart(owner: map<int, Owner>, lo: int, hi: int, x: Owner, a: int, m: nat, o: Owner)
    requires RangeOwned(owner, a, m, o) && (a + m <= lo || hi <= a)
    ensures RangeOwned(Assign(owner, lo, hi, x), a, m, o)
  {
  }

  lemma OwnersAfterCarve(h: Heap, z: int)
    requires h.cfg.Valid() && OwnersOk(h) && Contiguous(FreePages(h), z, h.cfg.zonePages)
    ensures z !in h.zones && OwnersOk(AddCached(h, z))
  {
    var h' := AddCached(h, z);
    var n := h.cfg.zonePages;
    assert z in FreePages(h);
    if z in h.zones { FreeRangeApart(h, z, n, z, n, InZone(z)); }
    forall y: int | y in h.zones ensures RangeOwned(h'.owner, y, n, InZone(y)) {
      FreeRangeApart(h, z, n, y, n, InZone(y));
      AssignApart(h.owner, z, z + n, InZone(z), y, n, InZone(y));
    }
    forall b: int | b in h.large ensures RangeOwned(h'.owner, b, h.large[b], Large(b)) {
      FreeRangeApart(h, z, n, b, h.large[b], Large(b));
      AssignApart(h.owner, z, z + n, InZone(z), b, h.large[b], Large(b));
    }
    forall p: int | z <= p < z + n ensures p in h'.owner && h'.owner[p] == InZone(z) { assert p in FreePages(h); }
    forall p: int | p in h'.owner ensures OwnerKnown(h', p) { assert OwnerKnown(h, p); }
  }

  lemma AddCachedInv(h: Heap, z: int)
    requires Inv(h) && h.cache == [] && Contiguous(FreePages(h), z, h.cfg.zonePages)
    ensures Inv(AddCached(h, z)) && z !in h.zones
  {
    var h' := AddCached(h, z);
    OwnersAfterCarve(h, z);
    assert ListsOk(h') by {
      forall k: int, y: int | 0 <= k < NUM_ZONES ensures y in h'.lists[k] <==> Listable(h', y, k) {
        assert y in h.lists[k] <==> Listable(h, y, k);
      }
    }
    assert CacheOk(h');
  }

  lemma AddCachedLive(h: Heap, z: int, q: int)
    requires OwnersOk(h) && z !in h.zones && Contiguous(FreePages(h), z, h.cfg.zonePages)
    ensures LiveSize(AddCached(h, z), q) == LiveSize(h, q)
  {
    if q / PAGE in h.owner {
      assert OwnerKnown(h, q / PAGE);
      if z <= q / PAGE < z + h.cfg.zonePages { assert q / PAGE in FreePages(h); }
    }
  }

  lemma AddCachedKeeps(h: Heap, z: int)
    requires Inv(h) && h.cache == [] && Contiguous(FreePages(h), z, h.cfg.zonePages)
    ensures Inv(AddCached(h, z))
    ensures forall q: int :: LiveSize(AddCached(h, z), q) == LiveSize(h, q)
  {
    AddCachedInv(h, z);
    forall q: int ensures LiveSize(AddCached(h, z), q) == LiveSize(h, q) { AddCachedLive(h, z, q); }
  }

  lemma NewZoneReuses(h: Heap, cls: SizeClass, fit: Option<int>, z: int)
    requires |h.lists| == NUM_ZONES && 0 <= cls.index < NUM_ZONES && h.cache != [] && h.cache[0] == z * PAGE
    ensures NewZone(h, cls, fit) == (Opened(h, z, cls), Some(Base(z, cls)))
  {
  }

  lemma ReuseKeeps(h: Heap, cls: SizeClass, fit: Option<int>)
    requires Inv(h) && ClassOk(h.cfg, cls) && h.cache != []
    ensures NewZone(h, cls, fit).1.Some? && Inv(NewZone(h, cls, fit).0)
    ensures Grants(h, NewZone(h, cls, fit).0, NewZone(h, cls, fit).1.value, cls.chunk)
  {
    var z := h.cache[0] / PAGE;
    assert CachedAt(h.zones, h.cache[0]);
    NewZoneReuses(h, cls, fit, z);
    OpenZoneInv(h, z, cls);
    OpenZoneGrant(h, z, cls);
  }

  /** Carving a zone is caching it and then reusing it. */
  lemma NewZoneCarves(h: Heap, cls: SizeClass, z: int)
    requires |h.lists| == NUM_ZONES && 0 <= cls.index < NUM_ZONES && h.cache == []
    ensures AddCached(h, z).cache != [] && AddCached(h, z).lists == h.lists
    ensures NewZone(h, cls, Some(z)) == (Opened(AddCached(h, z), z, cls), Some(Base(z, cls)))
  {
    var h1, zone := AddCached(h, z), Active(cls, [Base(z, cls)], []);
    assert h1.cache[1..] == h.cache;
    assert h1.zones[z := zone] == h.zones[z := zone];
  }

  lemma CarveKeeps(h: Heap, cls: SizeClass, z: int)
    requires Inv(h) && ClassOk(h.cfg, cls) && h.cache == [] && Contiguous(FreePages(h), z, h.cfg.zonePages)
    ensures NewZone(h, cls, Some(z)).1.Some? && Inv(NewZone(h, cls, Some(z)).0)
    ensures Grants(h, NewZone(h, cls, Some(z)).0, NewZone(h, cls, Some(z)).1.value, cls.chunk)
  {
    NewZoneCarves(h, cls, z);
    AddCachedKeeps(h, z);
    OpenZoneInv(AddCached(h, z), z, cls);
    OpenZoneGrant(AddCached(h, z), z, cls);
  }

  lemma NewZoneKeeps(h: Heap, cls: SizeClass, fit: Option<int>)
    requires Inv(h) && ClassOk(h.cfg, cls) && (fit.Some? ==> Contiguous(FreePages(h), fit.value, h.cfg.zonePages))
    ensures NewZone(h, cls, fit).1.None? ==> NewZone(h, cls, fit).0 == h && h.cache == [] && fit.None?
    ensures NewZone(h, cls, fit).1.Some? ==>
              Inv(NewZone(h, cls, fit).0) && Grants(h, NewZone(h, cls, fit).0, NewZone(h, cls, fit).1.value, cls.chunk)
  {
    if h.cache != [] {
      ReuseKeeps(h, cls, fit);
    } else if fit.Some? {
      CarveKeeps(h, cls, fit.value);
    }
  }

  /** Where a new zone comes from: the zone cached last, and then no page changes its owner; without one, exactly the
      pages that were found. */
  lemma NewZonePlace(h: Heap, cls: SizeClass, fit: Option<int>)
    requires Inv(h) && ClassOk(h.cfg, cls) && (fit.Some? ==> Contiguous(FreePages(h), fit.value, h.cfg.zonePages))
    ensures var (h', a) := NewZone(h, cls, fit);
            if h.cache != [] then
              && a == Some(h.cache[0] + cls.off) && h'.owner == h.owner && h'.cache == h.cache[1..]
            else if fit.Some? then
              && a == Some(fit.value * PAGE + cls.off) && h'.cache == []
              && FreePages(h') == FreePages(h) - Span(fit.value, fit.value + h.cfg.zonePages)
            else a == None && h' == h
  {
    if h.cache != [] { assert h.cache[0] in h.cache && CachedAt(h.zones, h.cache[0]); }
  }

  // ---- page blocks ----

  lemma OwnersAfterLarge(h: Heap, b: int, n: nat)
    requires h.cfg.Valid() && OwnersOk(h) && n > 0 && Contiguous(FreePages(h), b, n)
    ensures OwnersOk(h.(owner := Assign(h.owner, b, b + n, Large(b)), large := h.large[b := n]))
  {
    var h' := h.(owner := Assign(h.owner, b, b + n, Large(b)), large := h.large[b := n]);
    assert b in FreePages(h);
    forall y: int | y in h.zones ensures RangeOwned(h'.owner, y, h.cfg.zonePages, InZone(y)) {
      FreeRangeApart(h, b, n, y, h.cfg.zonePages, InZone(y));
      AssignApart(h.owner, b, b + n, Large(b), y, h.cfg.zonePages, InZone(y));
    }
    forall y: int | y in h.large ensures y != b && RangeOwned(h'.owner, y, h.large[y], Large(y)) {
      FreeRangeApart(h, b, n, y, h.large[y], Large(y));
      AssignApart(h.owner, b, b + n, Large(b), y, h.large[y], Large(y));
    }
    forall p: int | b <= p < b + n ensures p in h'.owner && h'.owner[p] == Large(b) { assert p in FreePages(h); }
    forall p: int | p in h'.owner ensures OwnerKnown(h', p) { assert OwnerKnown(h, p); }
  }

  /** A step that touches neither zones nor lists nor cache keeps their invariants. */
  lemma ZonesUntouched(h: Heap, h': Heap)
    requires Inv(h) && h'.cfg == h.cfg && h'.zones == h.zones && h'.lists == h.lists
    requires h'.cache == h.cache && h'.cacheCount == h.cacheCount && OwnersOk(h')
    ensures Inv(h')
  {
    forall k: int, y: int | 0 <= k < NUM_ZONES ensures y in h'.lists[k] <==> Listable(h', y, k) {
      assert y in h.lists[k] <==> Listable(h, y, k);
    }
  }

  lemma LiveAfterLarge(h: Heap, b: int, n: nat, q: int)
    requires OwnersOk(h) && n > 0 && Contiguous(FreePages(h), b, n)
    ensures LiveSize(h.(owner := Assign(h.owner, b, b + n, Large(b)), large := h.large[b := n]), q)
            == if q == b * PAGE then Some(n * PAGE) else LiveSize(h, q)
  {
    assert b in FreePages(h);
    if q / PAGE in h.owner {
      assert OwnerKnown(h, q / PAGE);
      if b <= q / PAGE < b + n { assert q / PAGE in FreePages(h); }
    }
  }

  lemma LargeGranted(h: Heap, b: int, n: nat)
    requires Inv(h) && n > 0 && Contiguous(FreePages(h), b, n)
    ensures var h' := h.(owner := Assign(h.owner, b, b + n, Large(b)), large := h.large[b := n]);
            Inv(h') && Grants(h, h', b * PAGE, n * PAGE)
  {
    var h' := h.(owner := Assign(h.owner, b, b + n, Large(b)), large := h.large[b := n]);
    OwnersAfterLarge(h, b, n);
    ZonesUntouched(h, h');
    assert b in FreePages(h);
    forall q: int ensures LiveSize(h', q) == if q == b * PAGE then Some(n * PAGE) else LiveSize(h, q) {
      LiveAfterLarge(h, b, n, q);
    }
  }

  lemma OwnersAfterFree(h: Heap, b: int)
    requires h.cfg.Valid() && OwnersOk(h) && b in h.large
    ensures OwnersOk(FreeLarge(h, b))
  {
    var h', n := FreeLarge(h, b), h.large[b];
    assert RangeOwned(h.owner, b, n, Large(b));
    forall y: int | y in h.zones ensures RangeOwned(h'.owner, y, h.cfg.zonePages, InZone(y)) {
      RangesApart(h.owner, b, n, Large(b), y, h.cfg.zonePages, InZone(y));
      AssignApart(h.owner, b, b + n, Free, y, h.cfg.zonePages, InZone(y));
    }
    forall y: int | y in h'.large ensures RangeOwned(h'.owner, y, h.large[y], Large(y)) {
      RangesApart(h.owner, b, n, Large(b), y, h.large[y], Large(y));
      AssignApart(h.owner, b, b + n, Free, y, h.large[y], Large(y));
    }
    forall p: int | p in h'.owner ensures OwnerKnown(h', p) { assert OwnerKnown(h, p); }
  }

  lemma FreeLargeKeeps(h: Heap, b: int)
    requires Inv(h) && b in h.large
    ensures Inv(FreeLarge(h, b)) && Returns(h, FreeLarge(h, b), b * PAGE)
  {
    var h' := FreeLarge(h, b);
    OwnersAfterFree(h, b);
    ZonesUntouched(h, h');
    forall q: int ensures LiveSize(h', q) == if q == b * PAGE then None else LiveSize(h, q) {
      if q / PAGE in h.owner { assert OwnerKnown(h, q / PAGE); }
    }
  }

  // ---- sk_free of a chunk ----

  lemma PushedOk(cfg: Config, z: int, zone: Zone, p: int)
    requires zone.Active? && ZoneOk(cfg, z, zone) && InUse(zone, p)
    ensures var zone' := zone.(freed := [p] + zone.freed);
            && ZoneOk(cfg, z, zone') && NFree(cfg, zone') == NFree(cfg, zone) + 1
            && NFree(cfg, zone) >= 0
            && forall q: int :: InUse(zone', q) <==> InUse(zone, q) && q != p
  {
    HandedNoDup(cfg, z, zone);
  }

  lemma PushChunkKeeps(h: Heap, z: int, p: int)
    requires Inv(h) && z in h.zones && h.zones[z].Active? && InUse(h.zones[z], p)
    ensures 0 <= h.zones[z].cls.index < |h.lists|
    ensures Inv(PushChunk(h, z, p)) && Returns(h, PushChunk(h, z, p), p)
  {
    var zone := h.zones[z];
    assert ZoneOk(h.cfg, z, zone);
    var h' := PushChunk(h, z, p);
    var zone' := zone.(freed := [p] + zone.freed);
    assert h' == WithZone(h, z, zone', h'.lists);
    PushedOk(h.cfg, z, zone, p);
    ListsAfterPush(h, z, zone');
    ZoneStepKeeps(h, z, zone', h'.lists);
    forall q: int ensures LiveSize(h', q) == if q == p then None else LiveSize(h, q) {
      LiveAfterZone(h, z, zone', h'.lists, q);
    }
  }

  /** Zone z is the first on list i. */
  ghost predicate First(lists: seq<seq<int>>, z: int, i: int)
  {
    0 <= i < |lists| && lists[i] != [] && lists[i][0] == z
  }

  lemma TakePushed(h: Heap, z: int, zone: Zone, p: int, lists: seq<seq<int>>)
    requires z in h.zones && zone.Active? && h.zones[z] == zone && 0 <= zone.cls.index < NUM_ZONES == |h.lists|
    requires |zone.handed| == NMax(h.cfg, zone.cls) && First(lists, z, zone.cls.index) && |lists| == NUM_ZONES
    requires if zone.freed == [] then lists == h.lists[zone.cls.index := [z] + h.lists[zone.cls.index]]
             else lists == h.lists
    requires Ready(WithZone(h, z, zone.(freed := [p] + zone.freed), lists))
    ensures TakeChunk(WithZone(h, z, zone.(freed := [p] + zone.freed), lists), zone.cls) == (h, Some(p))
  {
    var h1 := WithZone(h, z, zone.(freed := [p] + zone.freed), lists);
    var h2 := TakeChunk(h1, zone.cls).0;
    assert ([p] + zone.freed)[1..] == zone.freed;
    assert h2.zones == h.zones;
    assert h2.lists == h.lists;
  }

  lemma PushReady(h: Heap, z: int, p: int)
    requires Inv(h) && z in h.zones && InUse(h.zones[z], p)
    ensures 0 <= h.zones[z].cls.index < |h.lists| && Ready(PushChunk(h, z, p))
  {
    PushChunkKeeps(h, z, p);
    InvReady(PushChunk(h, z, p));
  }

  /** A chunk freed in a zone without never-used chunks is the next one that zone hands out, and handing it out gives
      the heap back as it was. */
  lemma TakeUndoesPush(h: Heap, z: int, p: int)
    requires Inv(h) && z in h.zones && InUse(h.zones[z], p) && NoRoomFor(h.cfg, z, h.zones[z].cls, |h.zones[z].handed|)
    requires 0 <= h.zones[z].cls.index < NUM_ZONES
    requires h.zones[z].freed == [] || First(h.lists, z, h.zones[z].cls.index)
    ensures var h1 := PushChunk(h, z, p);
            && Ready(h1) && First(h1.lists, z, h.zones[z].cls.index)
            && TakeChunk(h1, h.zones[z].cls) == (h, Some(p))
  {
    var zone := h.zones[z];
    assert ZoneOk(h.cfg, z, zone);
    NoRoomIff(h.cfg, z, zone.cls, |zone.handed|);
    PushReady(h, z, p);
    TakePushed(h, z, zone, p, PushChunk(h, z, p).lists);
  }

  lemma ListsAfterRetire(h: Heap, z: int)
    requires ListsOk(h) && z in h.zones && h.zones[z].Active? && 0 <= h.zones[z].cls.index < NUM_ZONES
    ensures ListsOk(Retire(h, z))
  {
    var i := h.zones[z].cls.index;
    var h' := Retire(h, z);
    WithoutMembers(h.lists[i], z);
    forall k: int, y: int | 0 <= k < NUM_ZONES ensures y in h'.lists[k] <==> Listable(h', y, k) {
      assert y in h.lists[k] <==> Listable(h, y, k);
    }
  }

  lemma SamePage(a: int, z: int)
    ensures a % PAGE == 0 && a / PAGE == z ==> a == z * PAGE
  {
  }

  lemma CacheAfterRetire(h: Heap, z: int)
    requires CacheOk(h) && z in h.zones && h.zones[z].Active? && 0 <= h.zones[z].cls.index < |h.lists|
    requires h.cacheCount < RELEASE_NUM
    ensures CacheOk(Retire(h, z))
  {
    var h' := Retire(h, z);
    PageStart(z);
    assert z * PAGE in h.cache ==> CachedAt(h.zones, z * PAGE);
    forall a: int | a in h'.cache ensures CachedAt(h'.zones, a) {
      if a != z * PAGE {
        assert CachedAt(h.zones, a);
        SamePage(a, z);
      }
    }
  }

  lemma RetireInv(h: Heap, z: int)
    requires Inv(h) && z in h.zones && h.zones[z].Active? && 0 <= h.zones[z].cls.index < |h.lists|
    requires h.cacheCount < RELEASE_NUM
    ensures Inv(Retire(h, z))
  {
    var h' := Retire(h, z);
    OwnersKept(h, z, Cached, h'.lists);
    OwnersSame(WithZone(h, z, Cached, h'.lists), h');
    ListsAfterRetire(h, z);
    CacheAfterRetire(h, z);
    ZonesAfterOpen(h, h', z, Cached);
  }

  /** A retiring zone has no chunk in use. */
  lemma RetireLive(h: Heap, z: int, q: int)
    requires ZonesOk(h) && z in h.zones && h.zones[z].Active? && 0 <= h.zones[z].cls.index < |h.lists|
    requires Retires(h, z)
    ensures LiveSize(Retire(h, z), q) == LiveSize(h, q)
  {
    assert ZoneOk(h.cfg, z, h.zones[z]);
    HandedNoDup(h.cfg, z, h.zones[z]);
  }

  lemma NoneInUseIff(cfg: Config, z: int, zone: Zone)
    requires zone.Active? && ZoneOk(cfg, z, zone)
    ensures NFree(cfg, zone) == NMax(cfg, zone.cls) <==> forall q: int :: !InUse(zone, q)
  {
    HandedNoDup(cfg, z, zone);
    if forall q: int :: !InUse(zone, q) {
      forall q: int | q in zone.handed ensures q in zone.freed { assert !InUse(zone, q); }
      Pigeonhole(zone.handed, zone.freed);
    }
  }

  lemma AnotherIff(l: seq<int>, z: int)
    requires NoDup(l) && z in l
    ensures |l| > 1 <==> exists y: int :: y in l && y != z
  {
    if |l| > 1 {
      var y := if l[0] == z then l[1] else l[0];
      assert y in l && y != z;
    }
  }

  /** A zone leaves its class exactly when its last chunk in use comes back and another zone of the class has a chunk to
      give. */
  lemma RetiresIff(h: Heap, z: int, p: int)
    requires Inv(h) && z in h.zones && InUse(h.zones[z], p)
    ensures 0 <= h.zones[z].cls.index < |h.lists|
    ensures Retires(PushChunk(h, z, p), z) <==>
              && (forall q: int :: InUse(h.zones[z], q) ==> q == p)
              && exists y: int :: y != z && Listable(h, y, h.zones[z].cls.index)
  {
    var zone := h.zones[z];
    assert ZoneOk(h.cfg, z, zone);
    var i, h1 := zone.cls.index, PushChunk(h, z, p);
    PushChunkKeeps(h, z, p);
    PushedOk(h.cfg, z, zone, p);
    NoneInUseIff(h.cfg, z, h1.zones[z]);
    assert Listable(h1, z, i);
    AnotherIff(h1.lists[i], z);
    forall y: int | y != z ensures y in h1.lists[i] <==> Listable(h, y, i) {
      assert y in h1.lists[i] <==> Listable(h1, y, i);
    }
  }

  /** What freeing a chunk outside the release branch leaves: no page changes its owner; the chunk is on top of its
      zone's freed ones, or the zone is the one cached last; no other zone changes. */
  lemma FreeChunkPlace(h: Heap, z: int, p: int)
    requires Inv(h) && z in h.zones && InUse(h.zones[z], p) && 0 <= h.zones[z].cls.index < |h.lists|
    requires Retires(PushChunk(h, z, p), z) ==> h.cacheCount < RELEASE_NUM
    ensures var h', zone := FreeChunk(h, z, p), h.zones[z];
            && h'.owner == h.owner && h'.large == h.large
            && if Retires(PushChunk(h, z, p), z) then
                 h'.zones == h.zones[z := Cached] && h'.cache == [z * PAGE] + h.cache
               else h'.zones == h.zones[z := zone.(freed := [p] + zone.freed)] && h'.cache == h.cache
  {
  }

  lemma FreeChunkKeeps(h: Heap, z: int, p: int)
    requires Inv(h) && z in h.zones && h.zones[z].Active? && InUse(h.zones[z], p)
    ensures 0 <= h.zones[z].cls.index < |h.lists| && |h.cache| >= h.cacheCount
    ensures !(Retires(PushChunk(h, z, p), z) && h.cacheCount >= RELEASE_NUM) ==>
              Inv(FreeChunk(h, z, p)) && Returns(h, FreeChunk(h, z, p), p)
  {
    PushChunkKeeps(h, z, p);
    var h1 := PushChunk(h, z, p);
    if Retires(h1, z) && h1.cacheCount < RELEASE_NUM {
      RetireInv(h1, z);
      forall q: int ensures LiveSize(Retire(h1, z), q) == LiveSize(h1, q) { RetireLive(h1, z, q); }
    }
  }

  /** Outside the release branch sk_free keeps the invariant and returns exactly the freed block. */
  lemma FreeBlockKeeps(h: Heap, p: int)
    requires Inv(h) && LiveSize(h, p).Some?
    ensures CanFree(h, p)
    ensures !ReleaseGuard(h, p) ==> Inv(FreeBlock(h, p)) && Returns(h, FreeBlock(h, p), p)
  {
    var pg := p / PAGE;
    assert OwnerKnown(h, pg);
    match h.owner[pg]
    case Large(b) =>
      FreeLargeKeeps(h, b);
    case InZone(z) =>
      assert InUse(h.zones[z], p);
      FreeChunkKeeps(h, z, p);
  }
}
