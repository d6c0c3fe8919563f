/** sk_malloc and sk_free (mem/slab.c) over pages, zones and chunks.
    Every heap page has one owner; zones remember which chunk addresses they handed out and which came back. */
module Heap {
  import opened Options
  import opened Bits
  import opened PageRuns
  import opened Seqs
  import opened SizeClasses

  const PAGE := 4096
  const RELEASE_NUM := 2

  /** Heap pages first, ..., first + npages - 1; sys_zone_page_cnt pages per zone. */
  datatype Config = Config(first: nat, npages: nat, zonePages: nat) {
    predicate Valid() {
      zonePages in {8, 16, 32}
    }
    function ZoneSize(): nat {
      zonePages * PAGE
    }
    /** sys_zone_limit */
    function ZoneLimit(): nat {
      if ZoneSize() / 4 > 16384 then 16384 else ZoneSize() / 4
    }
  }

  type pos = n: nat | n > 0 witness 1

  /** What zone_index and the zone set-up derive from a request size. */
  datatype SizeClass = SizeClass(index: int, chunk: pos, off: nat)

  lemma ClassBounds(size: nat)
    requires 0 < size < 16384
    ensures var (i, n) := ZoneIndex(size);
            0 <= i < NUM_ZONES && size <= n <= 16384 && 8 <= n && (size < 8192 ==> n <= 8192)
  {
    var (i, n) := ZoneIndex(size);
    if Misrounded(size) {
      MisroundedClass(size);
      TableOctave(i);
    } else {
      ZoneIndexIsBestFit(size);
      TableOctave(i);
      TableOctave(63);
      if i > 63 { assert TableChunk(63) < size; }
    }
  }

  function ClassOf(size: nat): (c: SizeClass)
    requires 0 < size < 16384
    ensures 0 <= c.index < NUM_ZONES && size <= c.chunk && 8 <= c.chunk
    ensures ZONE_HEADER <= c.off && (c.off <= 64 || c.off <= c.chunk) && c.off % 8 == 0
    ensures size < 8192 ==> c.chunk <= 8192
    ensures c.chunk <= 16384
  {
    var (i, n) := ZoneIndex(size);
    ClassBounds(size);
    OffsetBounds(n);
    SizeClass(i, n, ChunkOffset(n))
  }

  datatype Owner = Free | Table | InZone(zone: int) | Large(block: int)

  /** A zone carved from pages: parked in the free-zone cache, or serving one class.
      `handed` lists the addresses taken from the never-used area, so z_uindex is |handed| - 1;
      `freed` is the stack of returned chunks, newest first. */
  datatype Zone = Cached | Active(cls: SizeClass, handed: seq<int>, freed: seq<int>)

  /** `lists` is sys_zone_array, `cache` the addresses on the sys_zone_free list, `cacheCount` is sys_zone_free_cnt. */
  datatype Heap = Heap(cfg: Config, owner: map<int, Owner>, large: map<int, nat>, zones: map<int, Zone>,
                       lists: seq<seq<int>>, cache: seq<int>, cacheCount: int)

  /** z_nmax */
  function NMax(cfg: Config, cls: SizeClass): int
  {
    ChunkCount(cfg.ZoneSize(), cls.off, cls.chunk)
  }

  /** z_nfree */
  function NFree(cfg: Config, zone: Zone): int
    requires zone.Active?
  {
    NMax(cfg, zone.cls) - |zone.handed| + |zone.freed|
  }

  /** z_baseptr */
  function Base(z: int, cls: SizeClass): int
  {
    z * PAGE + cls.off
  }

  function Assign(owner: map<int, Owner>, lo: int, hi: int, o: Owner): (r: map<int, Owner>)
  {
    map p | p in owner :: if lo <= p < hi then o else owner[p]
  }

  ghost function FreePages(h: Heap): set<int>
  {
    set p | p in h.owner && h.owner[p].Free?
  }

  /** sk_page_alloc on the set of free pages. */
  ghost function FirstFit(free: set<int>, n: nat): (r: Option<int>)
    ensures r.Some? ==> n > 0 && IsFirstFit(free, n, r.value)
  {
    if n > 0 && exists p: int :: IsFirstFit(free, n, p) then
      var p :| IsFirstFit(free, n, p); Some(p)
    else None
  }

  /** sk_malloc's path for sizes of at least sys_zone_limit; `fit` is what sk_page_alloc(n) returned. */
  function MallocLarge(h: Heap, n: nat, fit: Option<int>): (r: (Heap, Option<int>))
  {
    match fit
    case None => (h, None)
    case Some(b) =>
      (h.(owner := Assign(h.owner, b, b + n, Large(b)), large := h.large[b := n]), Some(b * PAGE))
  }

  ghost predicate CanTake(h: Heap, z: int)
  {
    && z in h.zones && h.zones[z].Active?
    && (|h.zones[z].handed| == NMax(h.cfg, h.zones[z].cls) ==> h.zones[z].freed != [])
  }

  /** The first zone on every list can serve a request. */
  ghost predicate Ready(h: Heap)
  {
    && |h.lists| == NUM_ZONES
    && forall i: int :: 0 <= i < NUM_ZONES && h.lists[i] != [] ==> CanTake(h, h.lists[i][0])
  }

  /** sk_malloc from the first zone of the class: the never-used area first, then the freed chunks.
      The address is computed from the chunk size of this request, not from the zone's own. */
  function TakeChunk(h: Heap, cls: SizeClass): (r: (Heap, Option<int>))
    requires Ready(h) && 0 <= cls.index < NUM_ZONES && h.lists[cls.index] != []
  {
    var z := h.lists[cls.index][0];
    var zone := h.zones[z];
    var lists := if NFree(h.cfg, zone) == 1 then h.lists[cls.index := h.lists[cls.index][1..]] else h.lists;
    if |zone.handed| != NMax(h.cfg, zone.cls) then
      var a := Base(z, zone.cls) + |zone.handed| * cls.chunk;
      (h.(zones := h.zones[z := zone.(handed := zone.handed + [a])], lists := lists), Some(a))
    else
      (h.(zones := h.zones[z := zone.(freed := zone.freed[1..])], lists := lists), Some(zone.freed[0]))
  }

  /** Setting up zone z for a class and handing out its first chunk. */
  function OpenZone(h: Heap, z: int, cls: SizeClass): (r: (Heap, Option<int>))
    requires |h.lists| == NUM_ZONES && 0 <= cls.index < NUM_ZONES
  {
    (h.(zones := h.zones[z := Active(cls, [Base(z, cls)], [])],
        lists := h.lists[cls.index := [z] + h.lists[cls.index]]), Some(Base(z, cls)))
  }

  /** sk_malloc when the class has no zone with a free chunk: reuse a cached zone, else carve one from the pages
      `fit` that sk_page_alloc returned. */
  function NewZone(h: Heap, cls: SizeClass, fit: Option<int>): (r: (Heap, Option<int>))
    requires |h.lists| == NUM_ZONES && 0 <= cls.index < NUM_ZONES
  {
    if h.cache != [] then
      OpenZone(h.(cache := h.cache[1..], cacheCount := h.cacheCount - 1), h.cache[0] / PAGE, cls)
    else
      match fit
      case None => (h, None)
      case Some(z) =>
        OpenZone(h.(owner := Assign(h.owner, z, z + h.cfg.zonePages, InZone(z))), z, cls)
  }

  ghost function Malloc(h: Heap, size: nat): (r: (Heap, Option<int>))
    requires Ready(h) && h.cfg.Valid() && size < WORD
  {
    if size == 0 then (h, None)
    else if size >= h.cfg.ZoneLimit() then
      var n := SkAlign(size, PAGE) / PAGE;
      MallocLarge(h, n, FirstFit(FreePages(h), n))
    else
      var cls := ClassOf(size);
      if h.lists[cls.index] != [] then TakeChunk(h, cls)
      else NewZone(h, cls, FirstFit(FreePages(h), h.cfg.zonePages))
  }

  /** The bytes a live pointer owns, found the way sk_free finds its zone: through the owner of its page. */
  function LiveSize(h: Heap, p: int): (r: Option<nat>)
  {
    if p / PAGE !in h.owner then None
    else
      match h.owner[p / PAGE]
      case Large(b) =>
        if p == b * PAGE && b in h.large then Some(h.large[b] * PAGE) else None
      case InZone(z) =>
        if z in h.zones && h.zones[z].Active? && p in h.zones[z].handed && p !in h.zones[z].freed
        then Some(h.zones[z].cls.chunk) else None
      case _ => None
  }

  /** sk_free of a page block. */
  function FreeLarge(h: Heap, b: int): (r: Heap)
    requires b in h.large
  {
    h.(owner := Assign(h.owner, b, b + h.large[b], Free), large := h.large - {b})
  }

  /** sk_free of a chunk: push it on the zone's stack and list the zone again if it was full. */
  function PushChunk(h: Heap, z: int, p: int): (r: Heap)
    requires z in h.zones && h.zones[z].Active? && 0 <= h.zones[z].cls.index < |h.lists|
  {
    var zone := h.zones[z];
    var i := zone.cls.index;
    h.(zones := h.zones[z := zone.(freed := [p] + zone.freed)],
       lists := if NFree(h.cfg, zone) == 0 then h.lists[i := [z] + h.lists[i]] else h.lists)
  }

  /** The zone is totally free and its class has another zone: it leaves the class. */
  predicate Retires(h: Heap, z: int)
    requires z in h.zones && h.zones[z].Active? && 0 <= h.zones[z].cls.index < |h.lists|
  {
    NFree(h.cfg, h.zones[z]) == NMax(h.cfg, h.zones[z].cls) && |h.lists[h.zones[z].cls.index]| > 1
  }

  function Retire(h: Heap, z: int): (r: Heap)
    requires z in h.zones && h.zones[z].Active? && 0 <= h.zones[z].cls.index < |h.lists|
  {
    var i := h.zones[z].cls.index;
    h.(zones := h.zones[z := Cached], lists := h.lists[i := Without(h.lists[i], z)],
       cache := [z * PAGE] + h.cache, cacheCount := h.cacheCount + 1)
  }

  /** The release branch: the zone's pages go back, and `--sys_zone_free` moves the list pointer
      one struct slab_zone below the next cached zone, where the counter was meant. */
  function Release(h: Heap, z: int): (r: Heap)
    requires |h.cache| >= 2
  {
    h.(owner := Assign(h.owner, z, z + h.cfg.zonePages, Free), zones := h.zones - {z},
       cache := [h.cache[1] - ZONE_HEADER] + h.cache[2..])
  }

  function FreeChunk(h: Heap, z: int, p: int): (r: Heap)
    requires z in h.zones && h.zones[z].Active? && 0 <= h.zones[z].cls.index < |h.lists| && |h.cache| >= h.cacheCount
  {
    var h1 := PushChunk(h, z, p);
    if !Retires(h1, z) then h1
    else
      var h2 := Retire(h1, z);
      if h2.cacheCount > RELEASE_NUM then Release(h2, z) else h2
  }

  ghost predicate CanFree(h: Heap, p: int)
  {
    && LiveSize(h, p).Some? && |h.cache| >= h.cacheCount
    && (h.owner[p / PAGE].InZone? ==> 0 <= h.zones[h.owner[p / PAGE].zone].cls.index < |h.lists|)
  }

  function FreeBlock(h: Heap, p: int): (r: Heap)
    requires CanFree(h, p)
  {
    match h.owner[p / PAGE]
    case Large(b) => FreeLarge(h, b)
    case InZone(z) => FreeChunk(h, z, p)
  }

  /** The guard of the release branch: the freed chunk is its zone's last one in use, the class has
      another zone, and two zones are cached already. */
  predicate ReleaseGuard(h: Heap, p: int)
    requires CanFree(h, p)
  {
    h.owner[p / PAGE].InZone? &&
    var z := h.owner[p / PAGE].zone;
    Retires(PushChunk(h, z, p), z) && h.cacheCount >= RELEASE_NUM
  }
}
