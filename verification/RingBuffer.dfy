/** The byte ring with mirror bits (common/ring_buffer.c). */
module RingBuffer {
  import opened Circular
  import opened Memory

  /** buffer_size is a signed 16-bit field. */
  const CAPACITY_MAX := 0x7FFF

  /** struct sk_ring_buffer; a mirror bit says on which side of the wrap its index is. */
  datatype Ring = Ring(buffer: seq<bv8>, read: nat, readMirror: bool, write: nat, writeMirror: bool)

  /** On one side of the wrap the writer is ahead, on different sides it is behind. */
  ghost predicate RingOk(r: Ring)
  {
    && 1 <= |r.buffer| <= CAPACITY_MAX && r.read < |r.buffer| && r.write < |r.buffer|
    && (if r.readMirror == r.writeMirror then r.read <= r.write else r.write <= r.read)
  }

  /** sk_ring_buffer_data_len */
  function DataLen(r: Ring): (n: int)
  {
    if r.read == r.write then (if r.readMirror == r.writeMirror then 0 else |r.buffer|)
    else if r.write > r.read then r.write - r.read
    else |r.buffer| - (r.read - r.write)
  }

  /** sk_ring_buffer_space_len */
  function SpaceLen(r: Ring): (n: int)
  {
    |r.buffer| - DataLen(r)
  }

  /** The bytes in the ring, oldest first. */
  ghost function Data(r: Ring): (s: seq<bv8>)
    requires RingOk(r)
    ensures |s| == DataLen(r)
  {
    Contents(r.buffer, r.read, DataLen(r))
  }

  /** The writer is data_len cells ahead of the reader; the room left is what the bytes in the ring leave. */
  lemma WriterAhead(r: Ring)
    requires RingOk(r)
    ensures 0 <= DataLen(r) <= |r.buffer| && r.write == Wrap(|r.buffer|, r.read + DataLen(r))
    ensures r.write == (r.read + DataLen(r)) % |r.buffer|
    ensures DataLen(r) == |Data(r)| && SpaceLen(r) == |r.buffer| - |Data(r)|
  {
    WrapIsMod(|r.buffer|, r.read + DataLen(r));
  }

  // ---- the operations ----

  /** sk_ring_buffer_putchar */
  function PutChar(r: Ring, x: bv8): (p: (Ring, nat))
    requires r.write < |r.buffer|
  {
    if SpaceLen(r) == 0 then (r, 0)
    else if r.write + 1 == |r.buffer| then
      (r.(buffer := r.buffer[r.write := x], write := 0, writeMirror := !r.writeMirror), 1)
    else (r.(buffer := r.buffer[r.write := x], write := r.write + 1), 1)
  }

  /** sk_ring_buffer_getchar */
  function GetChar(r: Ring): (p: (Ring, seq<bv8>))
    requires r.read < |r.buffer|
  {
    if DataLen(r) == 0 then (r, [])
    else if r.read + 1 == |r.buffer| then (r.(read := 0, readMirror := !r.readMirror), [r.buffer[r.read]])
    else (r.(read := r.read + 1), [r.buffer[r.read]])
  }

  function Min(a: int, b: int): (m: int)
  {
    if a < b then a else b
  }

  /** The copies and the new write index of sk_ring_buffer_put. */
  function Store(r: Ring, s: seq<bv8>): (r': Ring)
    requires r.write < |r.buffer| && |s| <= |r.buffer|
  {
    var side := |r.buffer| - r.write;
    if side > |s| then r.(buffer := Overwrite(r.buffer, r.write, s), write := r.write + |s|)
    else r.(buffer := Overwrite(Overwrite(r.buffer, r.write, s[..side]), 0, s[side..]),
            write := |s| - side, writeMirror := !r.writeMirror)
  }

  /** sk_ring_buffer_put */
  function Put(r: Ring, s: seq<bv8>): (p: (Ring, nat))
    requires r.write < |r.buffer| && 0 <= SpaceLen(r) <= |r.buffer|
  {
    if SpaceLen(r) == 0 then (r, 0)
    else var n := Min(|s|, SpaceLen(r)); (Store(r, s[..n]), n)
  }

  /** The copies and the new read index of sk_ring_buffer_get. */
  function Fetch(r: Ring, n: nat): (p: (Ring, seq<bv8>))
    requires r.read < |r.buffer| && n <= |r.buffer|
  {
    var side := |r.buffer| - r.read;
    if side > n then (r.(read := r.read + n), r.buffer[r.read..r.read + n])
    else (r.(read := n - side, readMirror := !r.readMirror), r.buffer[r.read..] + r.buffer[..n - side])
  }

  /** sk_ring_buffer_get */
  function Get(r: Ring, len: nat): (p: (Ring, seq<bv8>))
    requires r.read < |r.buffer| && 0 <= DataLen(r) <= |r.buffer|
  {
    if DataLen(r) == 0 then (r, []) else Fetch(r, Min(len, DataLen(r)))
  }

  /** sk_ring_buffer_putchar_force */
  function PutCharForce(r: Ring, x: bv8): (r': Ring)
    requires r.write < |r.buffer|
  {
    var full, buffer := DataLen(r) == |r.buffer|, r.buffer[r.write := x];
    if r.write + 1 == |r.buffer| then
      if full then r.(buffer := buffer, write := 0, read := 0)
      else r.(buffer := buffer, write := 0, writeMirror := !r.writeMirror)
    else
      if full then r.(buffer := buffer, write := r.write + 1, read := r.write + 1)
      else r.(buffer := buffer, write := r.write + 1)
  }

  datatype Forced = Overrun | Done(ring: Ring)

  /** sk_ring_buffer_put_force; Overrun: the second copy leaves the buffer. */
  function PutForce(r: Ring, s: seq<bv8>): (f: Forced)
    requires r.write < |r.buffer|
  {
    var side := |r.buffer| - r.write;
    if side > |s| then Done(r.(buffer := Overwrite(r.buffer, r.write, s), write := r.write + |s|))
    else if |s| - side > |r.buffer| then Overrun
    else
      var r1 := r.(buffer := Overwrite(Overwrite(r.buffer, r.write, s[..side]), 0, s[side..]),
                   write := |s| - side, writeMirror := !r.writeMirror);
      if |s| <= SpaceLen(r) then Done(r1)
      else if r1.write <= r1.read then Done(r1.(readMirror := !r1.readMirror, read := r1.write))
      else Done(r1.(read := r1.write))
  }

  // ---- a bounded queue of bytes ----

  /** The last n elements. */
  function LastN(s: seq<bv8>, n: nat): (t: seq<bv8>)
  {
    if |s| <= n then s else s[|s| - n..]
  }

  /** Moving the writer on by one, over the wrap or not. */
  lemma Advance(r: Ring, r': Ring)
    requires RingOk(r) && SpaceLen(r) > 0 && |r'.buffer| == |r.buffer| && r'.read == r.read
    requires r'.readMirror == r.readMirror
    requires if r.write + 1 == |r.buffer| then r'.write == 0 && r'.writeMirror == !r.writeMirror
             else r'.write == r.write + 1 && r'.writeMirror == r.writeMirror
    ensures RingOk(r') && DataLen(r') == DataLen(r) + 1
  {
  }

  /** A byte goes to the end of the queue if there is room for it, else nothing changes. */
  lemma PutCharQueues(r: Ring, x: bv8)
    requires RingOk(r)
    ensures SpaceLen(r) == 0 ==> PutChar(r, x) == (r, 0)
    ensures SpaceLen(r) > 0 ==> var (r', n) := PutChar(r, x); RingOk(r') && n == 1 && Data(r') == Data(r) + [x]
  {
    WriterAhead(r);
    if SpaceLen(r) > 0 {
      Push(r.buffer, r.read, DataLen(r), x);
      Advance(r, PutChar(r, x).0);
    }
  }

  lemma GetCharDequeues(r: Ring)
    requires RingOk(r)
    ensures var (r', s) := GetChar(r);
            RingOk(r') && |s| == (if Data(r) == [] then 0 else 1) && s + Data(r') == Data(r)
  {
    if DataLen(r) > 0 { Pop(r.buffer, r.read, DataLen(r)); }
  }

  function PutChars(r: Ring, s: seq<bv8>): (r': Ring)
    requires r.write < |r.buffer|
    decreases |s|
  {
    if s == [] then r else PutChars(PutChar(r, s[0]).0, s[1..])
  }

  function GetChars(r: Ring, n: nat): (p: (Ring, seq<bv8>))
    requires r.read < |r.buffer|
    decreases n
  {
    if n == 0 then (r, [])
    else var (r1, s) := GetChar(r); var (r2, t) := GetChars(r1, n - 1); (r2, s + t)
  }

  lemma StoreAtEnd(r: Ring, s: seq<bv8>)
    requires r.write + 1 == |r.buffer| && SpaceLen(r) != 0 && 0 < |s| <= |r.buffer|
    ensures Store(r, s) == Store(PutChar(r, s[0]).0, s[1..])
  {
    var a1 := r.buffer[r.write := s[0]];
    assert Overwrite(r.buffer, r.write, s[..1]) == a1;
  }

  lemma StoreOverEnd(r: Ring, s: seq<bv8>)
    requires r.write + 1 < |r.buffer| && SpaceLen(r) != 0 && |r.buffer| - r.write <= |s| <= |r.buffer|
    ensures Store(r, s) == Store(PutChar(r, s[0]).0, s[1..])
  {
    var side := |r.buffer| - r.write;
    OverwriteStep(r.buffer, r.write, s[..side]);
    assert s[..side][1..] == s[1..][..side - 1];
    assert s[side..] == s[1..][side - 1..];
  }

  /** A bulk store does what its first byte and the rest do one after the other, the wrap at, before or behind that
      byte. */
  lemma StoreStep(r: Ring, s: seq<bv8>)
    requires r.write < |r.buffer| && SpaceLen(r) != 0 && 0 < |s| <= |r.buffer|
    ensures PutChar(r, s[0]).0.write < |r.buffer| == |PutChar(r, s[0]).0.buffer|
    ensures Store(r, s) == Store(PutChar(r, s[0]).0, s[1..])
  {
    var side := |r.buffer| - r.write;
    if side > |s| {
      OverwriteStep(r.buffer, r.write, s);
    } else if side == 1 {
      StoreAtEnd(r, s);
    } else {
      StoreOverEnd(r, s);
    }
  }

  /** Storing what fits appends it. */
  lemma {:induction false} StoreQueues(r: Ring, s: seq<bv8>)
    requires RingOk(r) && |s| <= SpaceLen(r)
    ensures |s| <= |r.buffer| && RingOk(Store(r, s)) && Data(Store(r, s)) == Data(r) + s
    ensures Store(r, s) == PutChars(r, s)
    decreases |s|
  {
    WriterAhead(r);
    if s == [] {
      OverwriteNothing(r.buffer, r.write);
    } else {
      var r1 := PutChar(r, s[0]).0;
      PutCharQueues(r, s[0]);
      StoreStep(r, s);
      StoreQueues(r1, s[1..]);
      assert Data(r) + [s[0]] + s[1..] == Data(r) + s;
    }
  }

  lemma {:induction false} FullIgnores(r: Ring, s: seq<bv8>)
    requires RingOk(r) && SpaceLen(r) == 0
    ensures PutChars(r, s) == r
    decreases |s|
  {
    if s != [] { FullIgnores(r, s[1..]); }
  }

  lemma {:induction false} PutCharsAppend(r: Ring, s: seq<bv8>, t: seq<bv8>)
    requires RingOk(r) && |s| <= SpaceLen(r)
    ensures RingOk(PutChars(r, s)) && PutChars(r, s + t) == PutChars(PutChars(r, s), t)
    decreases |s|
  {
    if s == [] {
      assert s + t == t;
    } else {
      PutCharQueues(r, s[0]);
      PutCharsAppend(PutChar(r, s[0]).0, s[1..], t);
      assert (s + t)[1..] == s[1..] + t;
    }
  }

  /** sk_ring_buffer_put leaves exactly the state that putting all of its bytes one by one leaves. */
  lemma PutIsPutChars(r: Ring, s: seq<bv8>)
    requires RingOk(r)
    ensures 0 <= SpaceLen(r) <= |r.buffer| && Put(r, s).0 == PutChars(r, s)
  {
    WriterAhead(r);
    var n := Min(|s|, SpaceLen(r));
    StoreQueues(r, s[..n]);
    PutCharsAppend(r, s[..n], s[n..]);
    assert s == s[..n] + s[n..];
    var r1 := PutChars(r, s[..n]);
    if n < |s| { FullIgnores(r1, s[n..]); } else { assert s[n..] == []; }
    if n == 0 { assert r1 == r; }
  }

  lemma Associate(s: seq<bv8>, t: seq<bv8>, u: seq<bv8>)
    ensures s + t + u == s + (t + u) && [] + s == s && s + [] == s
  {
  }

  /** sk_ring_buffer_put queues as many bytes as fit, in order. */
  lemma PutQueues(r: Ring, s: seq<bv8>)
    requires RingOk(r)
    ensures 0 <= SpaceLen(r) <= |r.buffer|
    ensures var (r', n) := Put(r, s); RingOk(r') && n == Min(|s|, SpaceLen(r)) && Data(r') == Data(r) + s[..n]
  {
    WriterAhead(r);
    StoreQueues(r, s[..Min(|s|, SpaceLen(r))]);
    Associate(Data(r), [], []);
  }

  lemma FetchStep(r: Ring, n: nat)
    requires RingOk(r) && 0 < n <= DataLen(r)
    ensures n <= |r.buffer|
    ensures var (r1, s1) := GetChar(r);
            r1.read < |r1.buffer| && Fetch(r, n) == (Fetch(r1, n - 1).0, s1 + Fetch(r1, n - 1).1)
  {
    var a, side := r.buffer, |r.buffer| - r.read;
    if side > n {
      assert a[r.read..r.read + n] == [a[r.read]] + a[r.read + 1..r.read + n];
    } else if side == 1 {
      assert a[r.read..] == [a[r.read]];
      assert a[..n - 1] == a[0..n - 1];
    } else {
      assert a[r.read..] + a[..n - side] == [a[r.read]] + (a[r.read + 1..] + a[..n - side]);
    }
  }

  lemma {:induction false} FetchDequeues(r: Ring, n: nat)
    requires RingOk(r) && n <= DataLen(r)
    ensures n <= |r.buffer| && |Fetch(r, n).1| == n && RingOk(Fetch(r, n).0)
    ensures Fetch(r, n).1 + Data(Fetch(r, n).0) == Data(r)
    decreases n
  {
    if n > 0 {
      FetchStep(r, n);
      GetCharDequeues(r);
      var (r1, s1) := GetChar(r);
      FetchDequeues(r1, n - 1);
      Associate(s1, Fetch(r1, n - 1).1, Data(Fetch(r1, n - 1).0));
    }
  }

  lemma {:induction false} FetchIsGetChars(r: Ring, n: nat)
    requires RingOk(r) && n <= DataLen(r)
    ensures n <= |r.buffer| && Fetch(r, n) == GetChars(r, n)
    decreases n
  {
    if n == 0 {
      assert r.buffer[r.read..r.read] == [];
    } else {
      FetchStep(r, n);
      GetCharDequeues(r);
      FetchIsGetChars(GetChar(r).0, n - 1);
    }
  }

  lemma {:induction false} EmptyGives(r: Ring, n: nat)
    requires RingOk(r) && DataLen(r) == 0
    ensures GetChars(r, n) == (r, [])
    decreases n
  {
    if n > 0 {
      EmptyGives(r, n - 1);
      Associate([], [], []);
    }
  }

  lemma {:induction false} GetCharsAppend(r: Ring, m: nat, n: nat)
    requires RingOk(r)
    ensures var (r1, s1) := GetChars(r, m);
            RingOk(r1) && GetChars(r, m + n) == (GetChars(r1, n).0, s1 + GetChars(r1, n).1)
    decreases m
  {
    var (r1, s1) := GetChars(r, m);
    if m == 0 {
      Associate(GetChars(r, n).1, [], []);
    } else {
      GetCharDequeues(r);
      var (r0, s0) := GetChar(r);
      GetCharsAppend(r0, m - 1, n);
      Associate(s0, GetChars(r0, m - 1).1, GetChars(r1, n).1);
    }
  }

  /** sk_ring_buffer_get returns the oldest bytes, in order, and leaves the others; getting one by one does the same. */
  lemma GetDequeues(r: Ring, len: nat)
    requires RingOk(r)
    ensures 0 <= DataLen(r) <= |r.buffer|
    ensures var (r', s) := Get(r, len); RingOk(r') && |s| == Min(len, DataLen(r)) && s + Data(r') == Data(r)
    ensures Get(r, len) == GetChars(r, len)
  {
    var n := Min(len, DataLen(r));
    FetchDequeues(r, n);
    FetchIsGetChars(r, n);
    GetCharsAppend(r, n, len - n);
    Associate(GetChars(r, n).1, [], []);
    if n < len { EmptyGives(GetChars(r, n).0, len - n); }
  }

  lemma GetAll(r: Ring)
    requires RingOk(r)
    ensures Get(r, |r.buffer|).1 == Data(r)
  {
    GetDequeues(r, |r.buffer|);
    Associate(Get(r, |r.buffer|).1, [], []);
    assert |Data(Get(r, |r.buffer|).0)| == 0;
  }

  /** A get for everything returns the old bytes and then those a put stored. */
  lemma RoundTrip(r: Ring, s: seq<bv8>)
    requires RingOk(r) && |s| <= SpaceLen(r)
    ensures |s| <= |r.buffer| && RingOk(Store(r, s)) && Get(Store(r, s), |r.buffer|).1 == Data(r) + s
  {
    StoreQueues(r, s);
    GetAll(Store(r, s));
  }

  // ---- the forced puts ----

  lemma FullForce(r: Ring, x: bv8)
    requires RingOk(r) && SpaceLen(r) == 0
    ensures RingOk(PutCharForce(r, x)) && Data(PutCharForce(r, x)) == Data(r)[1..] + [x]
  {
    var r', n := PutCharForce(r, x), |r.buffer|;
    Pop(r.buffer, r.read, n);
    Push(r.buffer, r'.read, n - 1, x);
    assert r'.buffer == r.buffer[Wrap(n, r'.read + (n - 1)) := x];
  }

  /** sk_ring_buffer_putchar_force always keeps the newest bytes, although over the wrap it turns the mirror twice and
      never the reader's: only whether the mirrors agree matters. */
  lemma PutCharForceKeepsNewest(r: Ring, x: bv8)
    requires RingOk(r)
    ensures RingOk(PutCharForce(r, x)) && Data(PutCharForce(r, x)) == LastN(Data(r) + [x], |r.buffer|)
  {
    if SpaceLen(r) > 0 {
      PutCharQueues(r, x);
      assert PutCharForce(r, x) == PutChar(r, x).0;
    } else {
      FullForce(r, x);
    }
  }

  /** When sk_ring_buffer_put_force works: before the end of the buffer it needs room; over the end it must not come
      around to where it started, or, with the reader on the other side of the wrap, not beyond the reader. */
  predicate ForceFits(r: Ring, len: nat)
    requires r.write < |r.buffer|
  {
    var side := |r.buffer| - r.write;
    if side > len then len <= SpaceLen(r)
    else if r.readMirror == r.writeMirror then len - side < |r.buffer|
    else len - side <= r.read
  }

  ghost predicate KeepsNewest(r: Ring, s: seq<bv8>, f: Forced)
    requires RingOk(r)
  {
    f.Done? && RingOk(f.ring) && Data(f.ring) == LastN(Data(r) + s, |r.buffer|)
  }

  /** The memory after both copies of a forced put. */
  function ForcedBuffer(r: Ring, s: seq<bv8>): (a: seq<bv8>)
    requires r.write < |r.buffer| && |r.buffer| - r.write <= |s| <= |r.buffer| - r.write + |r.buffer|
    ensures |a| == |r.buffer|
  {
    var side := |r.buffer| - r.write;
    Overwrite(Overwrite(r.buffer, r.write, s[..side]), 0, s[side..])
  }

  lemma ForcedByte(r: Ring, s: seq<bv8>, i: nat)
    requires RingOk(r) && |s| > SpaceLen(r) && |r.buffer| - r.write <= |s| && ForceFits(r, |s|) && i < |r.buffer|
    ensures |s| - (|r.buffer| - r.write) < |r.buffer| && 0 <= DataLen(r) + |s| - |r.buffer| + i < DataLen(r) + |s|
    ensures ForcedBuffer(r, s)[Wrap(|r.buffer|, |s| - (|r.buffer| - r.write) + i)]
         == (Data(r) + s)[DataLen(r) + |s| - |r.buffer| + i]
  {
    var n, w, l := |r.buffer|, r.write, DataLen(r);
    var m := |s| - (n - w);
    var j := Wrap(n, m + i);
    var d := l + |s| - n + i;
    if m + i >= n {
      assert d - l == n - w + j;
    } else if j >= w {
      assert d - l == j - w;
    } else {
      assert d == l + j - w;
      assert Data(r)[d] == r.buffer[Wrap(n, r.read + d)];
    }
  }

  lemma ForcedData(r: Ring, s: seq<bv8>, f: Ring)
    requires RingOk(r) && |s| > SpaceLen(r) && |r.buffer| - r.write <= |s| && ForceFits(r, |s|)
    requires RingOk(f) && |s| - (|r.buffer| - r.write) < |r.buffer| && f.buffer == ForcedBuffer(r, s)
    requires f.read == f.write == |s| - (|r.buffer| - r.write) && f.readMirror != f.writeMirror
    ensures Data(f) == LastN(Data(r) + s, |r.buffer|)
  {
    var n := |r.buffer|;
    var last := LastN(Data(r) + s, n);
    assert |Data(f)| == |last| == n;
    forall i | 0 <= i < n ensures Data(f)[i] == last[i] {
      ForcedByte(r, s, i);
      assert Data(f)[i] == f.buffer[Wrap(n, f.read + i)];
    }
  }

  lemma ForceWraps(r: Ring, s: seq<bv8>)
    requires RingOk(r) && |s| > SpaceLen(r) && |r.buffer| - r.write <= |s| && ForceFits(r, |s|)
    ensures KeepsNewest(r, s, PutForce(r, s))
  {
    ForcedByte(r, s, 0);
    ForcedData(r, s, PutForce(r, s).ring);
  }

  lemma ForceFails(r: Ring, s: seq<bv8>)
    requires RingOk(r) && |s| > SpaceLen(r) && !ForceFits(r, |s|)
    ensures !KeepsNewest(r, s, PutForce(r, s))
  {
    var f := PutForce(r, s);
    assert |LastN(Data(r) + s, |r.buffer|)| == |r.buffer|;
    if f.Done? && RingOk(f.ring) { assert DataLen(f.ring) != |r.buffer|; }
  }

  /** sk_ring_buffer_put_force keeps the newest bytes exactly when its length fits. */
  lemma PutForceIff(r: Ring, s: seq<bv8>)
    requires RingOk(r)
    ensures KeepsNewest(r, s, PutForce(r, s)) <==> ForceFits(r, |s|)
  {
    WriterAhead(r);
    if |s| <= SpaceLen(r) {
      StoreQueues(r, s);
      assert PutForce(r, s) == Done(Store(r, s));
    } else if ForceFits(r, |s|) {
      ForceWraps(r, s);
    } else {
      ForceFails(r, s);
    }
  }

  /** Every length up to the capacity fits over the end of the buffer. */
  lemma CapacityFits(r: Ring, len: nat)
    requires RingOk(r) && |r.buffer| - r.write <= len <= |r.buffer|
    ensures ForceFits(r, len)
  {
  }

  /** A full ring of four with both indices at 1: one byte forced in before the end leaves one byte. */
  lemma ForceLosesData(a: bv8, b: bv8, c: bv8, d: bv8, x: bv8)
    ensures var r := Ring([a, b, c, d], 1, true, 1, false);
            && RingOk(r) && |Data(r)| == 4 && !KeepsNewest(r, [x], PutForce(r, [x]))
            && PutForce(r, [x]).Done? && DataLen(PutForce(r, [x]).ring) == 1
  {
  }

  // ---- the object ----

  class RingBufferObject {
    const buffer: array<bv8>

    var read: nat
    var readMirror: bool
    var write: nat
    var writeMirror: bool

    ghost function R(): Ring
      reads this, buffer
    {
      Ring(buffer[..], read, readMirror, write, writeMirror)
    }

    ghost predicate Valid()
      reads this, buffer
    {
      RingOk(R())
    }

    /** sk_ring_buffer_init */
    constructor (buffer: array<bv8>)
      requires 1 <= buffer.Length <= CAPACITY_MAX
      ensures Valid() && Data(R()) == [] && this.buffer == buffer
    {
      this.buffer := buffer;
      read, readMirror, write, writeMirror := 0, false, 0, false;
    }

    /** sk_ring_buffer_data_len */
    method SkDataLen() returns (n: nat)
      requires Valid()
      ensures n == |Data(R())|
    {
      if read == write {
        if readMirror == writeMirror { return 0; }
        return buffer.Length;
      }
      if write > read { return write - read; }
      return buffer.Length - (read - write);
    }

    method SkSpaceLen() returns (n: nat)
      requires Valid()
      ensures n == buffer.Length - |Data(R())|
    {
      var len := SkDataLen();
      return buffer.Length - len;
    }

    /** sk_ring_buffer_putchar */
    method SkPutChar(x: bv8) returns (n: nat)
      requires Valid()
      modifies this, buffer
      ensures Valid() && (R(), n) == PutChar(old(R()), x)
    {
      PutCharQueues(R(), x);
      var space := SkSpaceLen();
      if space == 0 { return 0; }
      assert buffer[..][write := x] == buffer[..write] + [x] + buffer[write + 1..];
      buffer[write] := x;
      if write + 1 == buffer.Length {
        write := 0;
        writeMirror := !writeMirror;
      } else {
        write := write + 1;
      }
      return 1;
    }

    /** sk_ring_buffer_getchar */
    method SkGetChar() returns (s: seq<bv8>)
      requires Valid()
      modifies this
      ensures Valid() && (R(), s) == GetChar(old(R()))
    {
      GetCharDequeues(R());
      var len := SkDataLen();
      if len == 0 { return []; }
      s := [buffer[read]];
      if read + 1 == buffer.Length {
        read := 0;
        readMirror := !readMirror;
      } else {
        read := read + 1;
      }
    }

    /** The copies of a put. */
    method StoreBytes(s: seq<bv8>)
      requires write < buffer.Length && |s| <= buffer.Length
      modifies this, buffer
      ensures R() == Store(old(R()), s)
    {
      var side := buffer.Length - write;
      if side > |s| {
        CopyIn(buffer, write, s);
        write := write + |s|;
      } else {
        CopyIn(buffer, write, s[..side]);
        CopyIn(buffer, 0, s[side..]);
        writeMirror := !writeMirror;
        write := |s| - side;
      }
    }

    /** sk_ring_buffer_put */
    method SkPut(s: seq<bv8>) returns (n: nat)
      requires Valid()
      modifies this, buffer
      ensures Valid() && n == Min(|s|, old(SpaceLen(R()))) && Data(R()) == old(Data(R())) + s[..n]
      ensures R() == PutChars(old(R()), s)
    {
      PutQueues(R(), s);
      PutIsPutChars(R(), s);
      var space := SkSpaceLen();
      if space == 0 { return 0; }
      n := if space < |s| then space else |s|;
      StoreBytes(s[..n]);
    }

    /** The copies of a get. */
    method FetchBytes(n: nat) returns (s: seq<bv8>)
      requires read < buffer.Length && n <= buffer.Length
      modifies this
      ensures (R(), s) == Fetch(old(R()), n)
    {
      var side := buffer.Length - read;
      if side > n {
        s := CopyOut(buffer, read, n);
        assert s == buffer[..][read..read + n];
        read := read + n;
      } else {
        var s1 := CopyOut(buffer, read, side);
        var s2 := CopyOut(buffer, 0, n - side);
        s := s1 + s2;
        assert s == buffer[..][read..] + buffer[..][..n - side];
        readMirror := !readMirror;
        read := n - side;
      }
    }

    /** sk_ring_buffer_get */
    method SkGet(len: nat) returns (s: seq<bv8>)
      requires Valid()
      modifies this
      ensures Valid() && |s| == Min(len, old(DataLen(R()))) && s + Data(R()) == old(Data(R()))
      ensures (R(), s) == GetChars(old(R()), len)
    {
      GetDequeues(R(), len);
      var size := SkDataLen();
      if size == 0 { return []; }
      s := FetchBytes(if size < len then size else len);
    }

    /** sk_ring_buffer_putchar_force */
    method SkPutCharForce(x: bv8)
      requires Valid()
      modifies this, buffer
      ensures Valid() && R() == PutCharForce(old(R()), x) && Data(R()) == LastN(old(Data(R())) + [x], buffer.Length)
    {
      PutCharForceKeepsNewest(R(), x);
      var len := SkDataLen();
      ghost var a := buffer[..][write := x];
      buffer[write] := x;
      assert buffer[..] == a;
      if write + 1 == buffer.Length {
        write := 0;
        writeMirror := !writeMirror;
        if len == buffer.Length {
          writeMirror := !writeMirror;
          read := write;
        }
      } else {
        write := write + 1;
        if len == buffer.Length { read := write; }
      }
    }

    /** The reader follows the writer over what was overwritten. */
    method PullReader()
      modifies this`read, this`readMirror
      ensures read == write && readMirror == if write <= old(read) then !old(readMirror) else old(readMirror)
    {
      if write <= read { readMirror := !readMirror; }
      read := write;
    }

    /** sk_ring_buffer_put_force; it stops where the second copy would leave the buffer. */
    method ForceBytes(s: seq<bv8>) returns (overrun: bool)
      requires Valid()
      modifies this, buffer
      ensures if overrun then PutForce(old(R()), s) == Overrun else PutForce(old(R()), s) == Done(R())
    {
      var space := SkSpaceLen();
      var side := buffer.Length - write;
      if side > |s| {
        CopyIn(buffer, write, s);
        write := write + |s|;
        return false;
      }
      if |s| - side > buffer.Length { return true; }
      CopyIn(buffer, write, s[..side]);
      CopyIn(buffer, 0, s[side..]);
      writeMirror := !writeMirror;
      write := |s| - side;
      if |s| > space { PullReader(); }
      return false;
    }

    /** sk_ring_buffer_put_force keeps the newest bytes exactly when the length fits. */
    method SkPutForce(s: seq<bv8>) returns (overrun: bool)
      requires Valid()
      modifies this, buffer
      ensures if overrun then PutForce(old(R()), s) == Overrun else PutForce(old(R()), s) == Done(R())
      ensures !overrun && Valid() && Data(R()) == LastN(old(Data(R())) + s, buffer.Length) <==> old(ForceFits(R(), |s|))
    {
      PutForceIff(R(), s);
      overrun := ForceBytes(s);
    }
  }
}
