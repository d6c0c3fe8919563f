/** Copying bytes (include/kernel/base_def.h). */
module Memory {
  /** The memory a with s written from cell at on. */
  function Overwrite(a: seq<bv8>, at: nat, s: seq<bv8>): (a': seq<bv8>)
    requires at + |s| <= |a|
    ensures |a'| == |a|
  {
    a[..at] + s + a[at + |s|..]
  }

  lemma OverwriteStep(a: seq<bv8>, at: nat, s: seq<bv8>)
    requires s != [] && at + |s| <= |a|
    ensures Overwrite(a, at, s) == Overwrite(a[at := s[0]], at + 1, s[1..])
  {
  }

  lemma OverwriteNothing(a: seq<bv8>, at: nat)
    requires at <= |a|
    ensures Overwrite(a, at, []) == a
  {
  }

  lemma OverwriteGrows(a: seq<bv8>, at: nat, s: seq<bv8>, i: nat)
    requires i < |s| && at + |s| <= |a|
    ensures Overwrite(a, at, s[..i])[at + i := s[i]] == Overwrite(a, at, s[..i + 1])
  {
  }

  lemma OverwriteShrinks(a: seq<bv8>, at: nat, s: seq<bv8>, i: nat)
    requires 0 < i <= |s| && at + |s| <= |a|
    ensures Overwrite(a, at + i, s[i..])[at + i - 1 := s[i - 1]] == Overwrite(a, at + i - 1, s[i - 1..])
  {
  }

  /** Going up, what is written never covers what is still to be read. */
  lemma SourceAhead(a: seq<bv8>, dst: nat, src: nat, s: seq<bv8>, i: nat)
    requires dst + |s| <= |a| && src + |s| <= |a| && i < |s| && (dst <= src || dst > src + |s|)
    ensures Overwrite(a, dst, s[..i])[src + i] == a[src + i]
  {
  }

  /** Going down neither. */
  lemma SourceBehind(a: seq<bv8>, dst: nat, src: nat, s: seq<bv8>, i: nat)
    requires dst + |s| <= |a| && src + |s| <= |a| && i < |s| && src < dst
    ensures Overwrite(a, dst + i + 1, s[i + 1..])[src + i] == a[src + i]
  {
  }

  method MoveByte(a: array<bv8>, to: nat, from: nat)
    requires to < a.Length && from < a.Length
    modifies a
    ensures a[..] == old(a[..])[to := old(a[..])[from]]
  {
    a[to] := a[from];
  }

  /** The memory with the first i bytes of s written. */
  ghost function Upward(a: seq<bv8>, at: nat, s: seq<bv8>, i: nat): (a': seq<bv8>)
    requires at + |s| <= |a| && i <= |s|
    ensures |a'| == |a|
  {
    if i == 0 then a else Upward(a, at, s, i - 1)[at + i - 1 := s[i - 1]]
  }

  lemma {:induction false} UpwardIs(a: seq<bv8>, at: nat, s: seq<bv8>, i: nat)
    requires at + |s| <= |a| && i <= |s|
    ensures Upward(a, at, s, i) == Overwrite(a, at, s[..i])
    decreases i
  {
    if i == 0 {
      OverwriteNothing(a, at);
    } else {
      UpwardIs(a, at, s, i - 1);
      OverwriteGrows(a, at, s, i - 1);
    }
  }

  lemma UnreadAhead(a: seq<bv8>, dst: nat, src: nat, s: seq<bv8>, i: nat)
    requires dst + |s| <= |a| && src + |s| <= |a| && i < |s| && (dst <= src || dst > src + |s|)
    requires s == a[src..src + |s|]
    ensures Upward(a, dst, s, i)[src + i] == s[i]
  {
    UpwardIs(a, dst, s, i);
    SourceAhead(a, dst, src, s, i);
  }

  method CopyUp(a: array<bv8>, dst: nat, src: nat, count: nat, ghost s: seq<bv8>)
    requires dst + count <= a.Length && src + count <= a.Length && (dst <= src || dst > src + count)
    requires |s| == count && s == a[..][src..src + |s|]
    modifies a
    ensures a[..] == Upward(old(a[..]), dst, s, count)
  {
    ghost var was := a[..];
    for i := 0 to count
      invariant a[..] == Upward(was, dst, s, i)
    {
      UnreadAhead(was, dst, src, s, i);
      MoveByte(a, dst + i, src + i);
    }
  }

  /** The memory with the bytes i, i + 1, ... of s written, the last one first. */
  ghost function Downward(a: seq<bv8>, at: nat, s: seq<bv8>, i: nat): (a': seq<bv8>)
    requires at + |s| <= |a| && i <= |s|
    ensures |a'| == |a|
    decreases |s| - i
  {
    if i == |s| then a else Downward(a, at, s, i + 1)[at + i := s[i]]
  }

  lemma {:induction false} DownwardIs(a: seq<bv8>, at: nat, s: seq<bv8>, i: nat)
    requires at + |s| <= |a| && i <= |s|
    ensures Downward(a, at, s, i) == Overwrite(a, at + i, s[i..])
    decreases |s| - i
  {
    if i == |s| {
      OverwriteNothing(a, at + i);
    } else {
      DownwardIs(a, at, s, i + 1);
      OverwriteShrinks(a, at, s, i + 1);
    }
  }

  lemma UnreadBehind(a: seq<bv8>, dst: nat, src: nat, s: seq<bv8>, i: nat)
    requires dst + |s| <= |a| && src + |s| <= |a| && i < |s| && src < dst && s == a[src..src + |s|]
    ensures Downward(a, dst, s, i + 1)[src + i] == s[i]
  {
    DownwardIs(a, dst, s, i + 1);
    SourceBehind(a, dst, src, s, i);
  }

  method CopyDown(a: array<bv8>, dst: nat, src: nat, count: nat, ghost s: seq<bv8>)
    requires dst + count <= a.Length && src + count <= a.Length && src < dst
    requires |s| == count && s == a[..][src..src + |s|]
    modifies a
    ensures a[..] == Downward(old(a[..]), dst, s, 0)
  {
    ghost var was := a[..];
    for i := count downto 0
      invariant a[..] == Downward(was, dst, s, i)
    {
      UnreadBehind(was, dst, src, s, i);
      MoveByte(a, dst + i, src + i);
    }
  }

  lemma WholeCopy(a: seq<bv8>, at: nat, s: seq<bv8>)
    requires at + |s| <= |a|
    ensures Upward(a, at, s, |s|) == Downward(a, at, s, 0) == Overwrite(a, at, s)
  {
    UpwardIs(a, at, s, |s|);
    DownwardIs(a, at, s, 0);
    assert s[..|s|] == s == s[0..];
  }

  /** sk_memcpy within one memory: the destination gets what the source held before, however the two overlap. */
  method MemCopy(a: array<bv8>, dst: nat, src: nat, count: nat)
    requires dst + count <= a.Length && src + count <= a.Length
    modifies a
    ensures a[..] == Overwrite(old(a[..]), dst, old(a[src..src + count]))
  {
    ghost var s := a[src..src + count];
    assert s == a[..][src..src + |s|];
    WholeCopy(a[..], dst, s);
    if dst <= src || dst > src + count {
      CopyUp(a, dst, src, count, s);
    } else {
      CopyDown(a, dst, src, count, s);
    }
  }

  /** sk_memcpy from somewhere else. */
  method CopyIn(a: array<bv8>, at: nat, s: seq<bv8>)
    requires at + |s| <= a.Length
    modifies a
    ensures a[..] == Overwrite(old(a[..]), at, s)
  {
    ghost var was := a[..];
    OverwriteNothing(was, at);
    for i := 0 to |s|
      invariant a[..] == Overwrite(was, at, s[..i])
    {
      OverwriteGrows(was, at, s, i);
      a[at + i] := s[i];
    }
    assert s[..|s|] == s;
  }

  /** sk_memcpy to somewhere else. */
  method CopyOut(a: array<bv8>, at: nat, count: nat) returns (s: seq<bv8>)
    requires at + count <= a.Length
    ensures s == a[at..at + count]
  {
    s := [];
    for i := 0 to count
      invariant s == a[at..at + i]
    {
      s := s + [a[at + i]];
    }
  }
}
