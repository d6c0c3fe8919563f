/** zone_index and the layout of a zone (mem/slab.c): which size class serves a request. */
module SizeClasses {
  import opened Arith
  import opened Bits

  const NUM_ZONES := 72

  /** zone_index: the index it returns and the size it writes back. */
  function ZoneIndex(bytes: nat): (r: (int, nat))
    requires 0 < bytes < 16384
  {
    if bytes < 128 then
      var n := SkAlign(bytes, 8); (n / 8 - 1, n)
    else if bytes < 256 then
      var n := SkAlign(bytes, 16); (n / 16 + 7, n)
    else if bytes < 512 then
      var n := SkAlign(bytes, 32); (n / 32 + 15, n)
    else if bytes < 1024 then
      var n := SkAlign(bytes, 64); (n / 64 + 23, n)
    else if bytes < 2048 then
      var n := SkAlign(bytes, 127); (n / 128 + 31, n)
    else if bytes < 4096 then
      var n := SkAlign(bytes, 256); (n / 256 + 39, n)
    else if bytes < 8192 then
      var n := SkAlign(bytes, 512); (n / 512 + 47, n)
    else
      var n := SkAlign(bytes, 1024); (n / 1024 + 55, n)
  }

  /** The documented table: 16 classes in steps of 8, then 8 classes per doubling. */
  function TableChunk(index: nat): (c: nat)
    requires index < NUM_ZONES
  {
    if index < 16 then 8 * (index + 1)
    else
      var octave := (index - 16) / 8;
      var step := [16, 32, 64, 128, 256, 512, 1024][octave];
      8 * step + step * ((index - 16) % 8 + 1)
  }

  /** The table spelled out per octave. */
  lemma TableOctave(i: nat)
    requires i < NUM_ZONES
    ensures TableChunk(i) == if i < 16 then 8 * (i + 1) else if i < 24 then 16 * (i - 7)
                             else if i < 32 then 32 * (i - 15) else if i < 40 then 64 * (i - 23)
                             else if i < 48 then 128 * (i - 31) else if i < 56 then 256 * (i - 39)
                             else if i < 64 then 512 * (i - 47) else 1024 * (i - 55)
  {
    if i >= 16 {
      var o := (i - 16) / 8;
      assert i - 16 == 8 * o + (i - 16) % 8 && 0 <= o < 7;
    }
  }

  lemma TableIncreasing(i: nat, j: nat)
    requires i < j < NUM_ZONES
    ensures TableChunk(i) < TableChunk(j)
  {
    TableOctave(i);
    TableOctave(j);
  }

  /** The request sizes that SK_ALIGN(n, 127) does not round to the table's class. */
  predicate Misrounded(bytes: nat)
  {
    1024 <= bytes < 2048 && bytes % 2 == 1
  }

  /** Rounding a request up to a multiple of the step 2^k. */
  lemma RoundsUp(bytes: nat, k: nat, step: nat)
    requires 0 < bytes < 16384 && k <= 10 && step == Pow2(k)
    ensures step <= 1024
    ensures var n := SkAlign(bytes, step); n % step == 0 && bytes <= n < bytes + step
  {
    Pow2Monotone(k, 10);
    SmallPowers();
    SkAlignRoundsUp(bytes, k);
  }

  ghost predicate BestFit(bytes: nat, i: int, c: nat)
  {
    0 <= i < NUM_ZONES && c == TableChunk(i) && bytes <= c && (i > 0 ==> TableChunk(i - 1) < bytes)
  }

  lemma BandLow(bytes: nat)
    requires 0 < bytes < 512
    ensures BestFit(bytes, ZoneIndex(bytes).0, ZoneIndex(bytes).1)
  {
    var i := ZoneIndex(bytes).0;
    if bytes < 128 { RoundsUp(bytes, 3, 8); }
    else if bytes < 256 { RoundsUp(bytes, 4, 16); }
    else { RoundsUp(bytes, 5, 32); }
    TableOctave(i);
    if i > 0 { TableOctave(i - 1); }
  }

  lemma EvenBand(bytes: nat)
    requires 1024 <= bytes < 2048 && bytes % 2 == 0
    ensures var n := bytes + 126 - (bytes + 126) % 128; var q := n / 128;
            n == 128 * q && 8 <= q <= 16 && bytes <= n && 128 * (q - 1) < bytes
  {
    var x := bytes + 126;
    assert x == 128 * (x / 128) + x % 128;
    assert x % 2 == 0 && x % 128 % 2 == 0;
  }

  lemma BandMiddle(bytes: nat)
    requires 512 <= bytes < 2048 && !Misrounded(bytes)
    ensures BestFit(bytes, ZoneIndex(bytes).0, ZoneIndex(bytes).1)
  {
    var i := ZoneIndex(bytes).0;
    if bytes < 1024 { RoundsUp(bytes, 6, 64); } else { SkAlign127(bytes); EvenBand(bytes); }
    TableOctave(i);
    TableOctave(i - 1);
  }

  lemma BandHigh(bytes: nat)
    requires 2048 <= bytes < 16384
    ensures BestFit(bytes, ZoneIndex(bytes).0, ZoneIndex(bytes).1)
  {
    SmallPowers();
    var i := ZoneIndex(bytes).0;
    if bytes < 4096 { RoundsUp(bytes, 8, 256); }
    else if bytes < 8192 { RoundsUp(bytes, 9, 512); }
    else { RoundsUp(bytes, 10, 1024); }
    TableOctave(i);
    TableOctave(i - 1);
  }

  /** zone_index picks the smallest class of the table that holds the request. */
  lemma ZoneIndexIsBestFit(bytes: nat)
    requires 0 < bytes < 16384 && !Misrounded(bytes)
    ensures var (i, c) := ZoneIndex(bytes);
            && 0 <= i < NUM_ZONES && c == TableChunk(i) && bytes <= c
            && forall j :: 0 <= j < i ==> TableChunk(j) < bytes
  {
    if bytes < 512 { BandLow(bytes); } else if bytes < 2048 { BandMiddle(bytes); } else { BandHigh(bytes); }
    var i := ZoneIndex(bytes).0;
    forall j | 0 <= j < i ensures TableChunk(j) < bytes {
      if j < i - 1 { TableIncreasing(j, i - 1); }
    }
  }

  lemma OddBand(bytes: nat)
    requires Misrounded(bytes)
    ensures var n := bytes + 126 - (bytes + 126) % 128 + 1; var q := n / 128;
            n == 128 * q + 1 && 8 <= q <= 16 && bytes <= n
  {
    var x := bytes + 126;
    assert x == 128 * (x / 128) + x % 128;
  }

  lemma BandIndex(bytes: nat)
    requires 1024 <= bytes < 2048
    ensures var n := bytes + 126 - (bytes + 126) % 128 + bytes % 2; ZoneIndex(bytes) == (n / 128 + 31, n)
  {
    SkAlign127(bytes);
  }

  lemma FirstOfBand()
    ensures ZoneIndex(1024) == (39, 1024) && ZoneIndex(1025) == (39, 1025)
  {
    BandIndex(1024);
    BandIndex(1025);
  }

  /** An odd request between 1024 and 2047 gets the class's index but one byte more than the class's chunk. */
  lemma MisroundedClass(bytes: nat)
    requires Misrounded(bytes)
    ensures var (i, c) := ZoneIndex(bytes); 39 <= i < 48 && c == TableChunk(i) + 1 && bytes <= c
  {
    SkAlign127(bytes);
    OddBand(bytes);
    var (i, c) := ZoneIndex(bytes);
    TableOctave(i);
  }

  /** Requests that share a zone index are rounded to one chunk size, unless exactly one of them is misrounded. */
  lemma SharedIndex(s: nat, t: nat)
    requires 0 < s < 16384 && 0 < t < 16384 && ZoneIndex(s).0 == ZoneIndex(t).0
    ensures ZoneIndex(s).1 == ZoneIndex(t).1 <==> (Misrounded(s) <==> Misrounded(t))
  {
    if Misrounded(s) { MisroundedClass(s); } else { ZoneIndexIsBestFit(s); }
    if Misrounded(t) { MisroundedClass(t); } else { ZoneIndexIsBestFit(t); }
  }

  /** sizeof(struct slab_zone) on aarch64. */
  const ZONE_HEADER := 56

  /** Offset of the first chunk behind the zone header. */
  function ChunkOffset(size: nat): (off: nat)
    requires 0 < size < WORD
  {
    if Or(size, size - 1) + 1 == 2 * size then SkAlign(ZONE_HEADER, size) else SkAlign(ZONE_HEADER, 8)
  }

  /** z_nmax: how many chunks from offset `off` on a zone of `zoneSize` bytes has room for. */
  function ChunkCount(zoneSize: nat, off: nat, size: nat): (n: int)
    requires size > 0
  {
    (zoneSize - off) / size
  }

  /** A zone has room for at least three chunks, the last one ends inside the zone, and one more would not. */
  lemma ZoneLayout(zoneSize: nat, off: nat, size: nat)
    requires 8 <= size && 4 * size <= zoneSize && 32768 <= zoneSize && (off <= 64 || off <= size)
    ensures 3 <= ChunkCount(zoneSize, off, size)
    ensures off + ChunkCount(zoneSize, off, size) * size <= zoneSize
    ensures zoneSize < off + (ChunkCount(zoneSize, off, size) + 1) * size
  {
    var n := ChunkCount(zoneSize, off, size);
    DivLe(zoneSize - off, size);
    if n < 3 { MulStep(n, 3, size); }
  }

  lemma DivisibleTrans(x: nat, a: nat, b: nat)
    requires a > 0 && b > 0 && x % (a * b) == 0
    ensures x % b == 0
  {
    var q := x / (a * b);
    assert x == q * (a * b);
    assert x == (q * a) * b;
    DivMod(x, b, q * a, 0);
  }

  lemma SmallOffset(off: nat, size: nat)
    requires size in {8, 16, 32, 64} && off % size == 0 && 56 <= off < 56 + size
    ensures off <= 64
  {
  }

  lemma LargeOffset(off: nat, size: nat)
    requires size >= 57 && off % size == 0 && 56 <= off < 56 + size
    ensures off == size
  {
    var q := off / size;
    assert off == q * size;
    if q >= 2 { MulLe(2, q, size); }
    if q <= 0 { MulLe(q, 0, size); }
  }

  lemma EightDivides(k: nat)
    requires k >= 3
    ensures Pow2(k) % 8 == 0
  {
    Pow2Add(k - 3, 3);
    SmallPowers();
    DivMod(Pow2(k), 8, Pow2(k - 3), 0);
  }

  /** A multiple of size in [56, 56 + size), for a size that 8 divides. */
  lemma OffsetOf(off: nat, size: nat)
    requires size > 0 && size % 8 == 0 && off % size == 0 && 56 <= off < 56 + size
    requires size in {8, 16, 32, 64} || size >= 128
    ensures off % 8 == 0 && (off <= 64 || off <= size)
  {
    if size >= 128 { LargeOffset(off, size); } else { SmallOffset(off, size); DivisibleTrans(off, size / 8, 8); }
  }

  lemma PowerValue(k: nat)
    requires 3 <= k <= 15
    ensures (Pow2(k) in {8, 16, 32, 64} || Pow2(k) >= 128) && Pow2(k) <= 65536
  {
    SmallPowers();
    if k >= 7 {
      Pow2Monotone(7, k);
      Pow2Monotone(k, 16);
    } else if k == 3 {
    } else if k == 4 {
    } else if k == 5 {
    } else {
      assert k == 6;
    }
  }

  lemma PowerOffset(k: nat)
    requires 3 <= k <= 15
    ensures Pow2(k) < WORD
    ensures var off := SkAlign(ZONE_HEADER, Pow2(k));
            off % 8 == 0 && ZONE_HEADER <= off && (off <= 64 || off <= Pow2(k))
  {
    PowerValue(k);
    SkAlignRoundsUp(ZONE_HEADER, k);
    EightDivides(k);
    OffsetOf(SkAlign(ZONE_HEADER, Pow2(k)), Pow2(k));
  }

  lemma FirstMultiple(k: nat, size: nat)
    requires size == Pow2(k) <= 32768
    ensures size < WORD
    ensures SkAlign(ZONE_HEADER, size) % size == 0 && ZONE_HEADER <= SkAlign(ZONE_HEADER, size) < ZONE_HEADER + size
  {
    SmallPowers();
    if k > 15 { Pow2Monotone(16, k); }
    SkAlignRoundsUp(ZONE_HEADER, k);
  }

  lemma MultipleOfEight(off: nat)
    requires off % 8 == 0 && 56 <= off < 64
    ensures off == 56
  {
  }

  lemma DirectlyBehind(eight: nat, k: nat)
    requires eight == Pow2(k) == 8
    ensures SkAlign(ZONE_HEADER, eight) == ZONE_HEADER
  {
    FirstMultiple(k, eight);
    MultipleOfEight(SkAlign(ZONE_HEADER, eight));
  }

  /** Chunks of a power of two bytes start at the first multiple of their size behind the zone header, all others
      directly behind it. */
  lemma OffsetExact(size: nat)
    requires 8 <= size <= 32768
    ensures (exists k: nat :: size == Pow2(k)) ==>
              ChunkOffset(size) % size == 0 && ZONE_HEADER <= ChunkOffset(size) < ZONE_HEADER + size
    ensures (forall k: nat :: size != Pow2(k)) ==> ChunkOffset(size) == ZONE_HEADER
  {
    PowerOfTwoTest(size);
    if k: nat :| size == Pow2(k) { FirstMultiple(k, size); } else { SmallPowers(); DirectlyBehind(8, 3); }
  }

  /** Chunks start behind the zone header, on a multiple of 8. */
  lemma OffsetBounds(size: nat)
    requires 8 <= size <= 32768
    ensures ChunkOffset(size) % 8 == 0 && ZONE_HEADER <= ChunkOffset(size)
    ensures ChunkOffset(size) <= 64 || ChunkOffset(size) <= size
  {
    SmallPowers();
    PowerOfTwoTest(size);
    if k: nat :| size == Pow2(k) {
      if k > 15 { Pow2Monotone(16, k); }
      if k < 3 { Pow2Monotone(k, 2); }
      PowerOffset(k);
    } else {
      SkAlignRoundsUp(ZONE_HEADER, 3);
    }
  }
}
