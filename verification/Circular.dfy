/** Queues stored in a circular array. */
module Circular {
  /** Position i of a circle of n cells, for an i that is at most once around. */
  function Wrap(n: nat, i: nat): (j: nat)
    requires i < n + n
    ensures j < n
  {
    if i < n then i else i - n
  }

  lemma Once(n: nat, r: nat)
    requires r < n
    ensures (n + r) / n == 1 && (n + r) % n == r
  {
  }

  lemma WrapIsMod(n: nat, i: nat)
    requires i < n + n
    ensures Wrap(n, i) == i % n
  {
    if i >= n { assert i == n + (i - n); assert i / n == 1 by { Once(n, i - n); } }
  }

  /** The len elements from cell start on. */
  function Contents<T>(a: seq<T>, start: nat, len: nat): (s: seq<T>)
    requires len <= |a| && (start < |a| || len == 0)
    ensures |s| == len
  {
    seq(len, i requires 0 <= i < len => a[Wrap(|a|, start + i)])
  }

  /** Writing the cell behind the last element appends. */
  lemma Push<T>(a: seq<T>, start: nat, len: nat, x: T)
    requires len < |a| && start < |a|
    ensures Contents(a[Wrap(|a|, start + len) := x], start, len + 1) == Contents(a, start, len) + [x]
  {
    var a' := a[Wrap(|a|, start + len) := x];
    forall i | 0 <= i < len + 1
      ensures Contents(a', start, len + 1)[i] == (Contents(a, start, len) + [x])[i]
    {
      assert Contents(a', start, len + 1)[i] == a'[Wrap(|a|, start + i)];
    }
  }

  /** Moving the start on drops the first element. */
  lemma Pop<T>(a: seq<T>, start: nat, len: nat)
    requires 0 < len <= |a| && start < |a|
    ensures Contents(a, start, len) == [a[start]] + Contents(a, Wrap(|a|, start + 1), len - 1)
    ensures Wrap(|a|, Wrap(|a|, start + 1) + (len - 1)) == Wrap(|a|, start + len)
  {
    var rest := Contents(a, Wrap(|a|, start + 1), len - 1);
    forall i | 0 <= i < len
      ensures Contents(a, start, len)[i] == ([a[start]] + rest)[i]
    {
      assert Contents(a, start, len)[i] == a[Wrap(|a|, start + i)];
      if i > 0 { assert rest[i - 1] == a[Wrap(|a|, Wrap(|a|, start + 1) + (i - 1))]; }
    }
  }
}
