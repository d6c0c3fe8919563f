/** Sequences without repetition. */
module Seqs {
  ghost predicate NoDup<T>(s: seq<T>)
  {
    forall i, j :: 0 <= i < j < |s| ==> s[i] != s[j]
  }

  ghost function Elems<T>(s: seq<T>): (r: set<T>)
  {
    set x | x in s
  }

  /** Removes the first occurrence of x. */
  function Without<T(==)>(s: seq<T>, x: T): (r: seq<T>)
  {
    if s == [] then [] else if s[0] == x then s[1..] else [s[0]] + Without(s[1..], x)
  }

  lemma {:induction false} WithoutMembers<T>(s: seq<T>, x: T)
    requires NoDup(s)
    ensures NoDup(Without(s, x))
    ensures forall y :: y in Without(s, x) <==> y in s && y != x
  {
    if s != [] {
      var t := s[1..];
      assert s == [s[0]] + t;
      assert s[0] !in t;
      WithoutMembers(t, x);
    }
  }

  lemma {:induction false} WithoutSubset<T>(s: seq<T>, x: T)
    ensures forall y :: y in Without(s, x) ==> y in s
    ensures forall y :: y in s && y != x ==> y in Without(s, x)
  {
    if s != [] {
      assert s == [s[0]] + s[1..];
      WithoutSubset(s[1..], x);
    }
  }

  lemma {:induction false} WithoutLength<T>(s: seq<T>, x: T)
    ensures |Without(s, x)| == if x in s then |s| - 1 else |s|
  {
    if s != [] {
      assert s == [s[0]] + s[1..];
      WithoutLength(s[1..], x);
    }
  }

  lemma {:induction false} WithoutAbsent<T>(s: seq<T>, x: T)
    requires x !in s
    ensures Without(s, x) == s
  {
    if s != [] {
      assert s == [s[0]] + s[1..];
      WithoutAbsent(s[1..], x);
    }
  }

  /** Unlinking at the first occurrence. */
  lemma {:induction false} WithoutAt<T>(s: seq<T>, x: T, k: nat)
    requires k < |s| && s[k] == x && x !in s[..k]
    ensures Without(s, x) == s[..k] + s[k + 1..]
  {
    if k > 0 {
      assert s[..k] == [s[0]] + s[1..][..k - 1];
      WithoutAt(s[1..], x, k - 1);
    }
  }

  /** The first occurrence of a member. */
  lemma {:induction false} FirstIndex<T>(s: seq<T>, x: T) returns (k: nat)
    requires x in s
    ensures k < |s| && s[k] == x && x !in s[..k]
  {
    if s[0] == x {
      k := 0;
    } else {
      assert s == [s[0]] + s[1..];
      k := FirstIndex(s[1..], x);
      assert s[..k + 1] == [s[0]] + s[1..][..k];
      k := k + 1;
    }
  }

  lemma WithoutAppend<T>(s: seq<T>, x: T, t: T)
    requires x != t
    ensures Without(s + [x], t) == Without(s, t) + [x]
  {
    if t in s {
      var n := FirstIndex(s, t);
      WithoutAt(s, t, n);
      assert (s + [x])[..n] == s[..n] && (s + [x])[n] == t;
      WithoutAt(s + [x], t, n);
      assert (s + [x])[n + 1..] == s[n + 1..] + [x];
    } else {
      WithoutAbsent(s, t);
      WithoutAbsent(s + [x], t);
    }
  }

  lemma TailMembers<T>(s: seq<T>)
    requires NoDup(s) && s != []
    ensures NoDup(s[1..]) && forall x :: x in s[1..] <==> x in s && x != s[0]
  {
    assert s == [s[0]] + s[1..];
  }

  lemma {:induction false} CountElems<T>(s: seq<T>)
    requires NoDup(s)
    ensures |Elems(s)| == |s|
  {
    if s != [] {
      var t := s[1..];
      assert s == [s[0]] + t;
      CountElems(t);
      assert Elems(s) == {s[0]} + Elems(t);
    }
  }

  ghost predicate Inside<T>(a: seq<T>, b: seq<T>)
  {
    forall x :: x in a ==> x in b
  }

  lemma {:induction false} SubsetCount<T>(a: set<T>, b: set<T>)
    requires a <= b
    ensures |a| <= |b|
    ensures |a| == |b| ==> a == b
  {
    assert b == a + (b - a);
    assert |b| == |a| + |b - a|;
  }

  /** A sequence without repetition inside another one is no longer, and if equally long holds the same elements. */
  lemma Pigeonhole<T>(a: seq<T>, b: seq<T>)
    requires NoDup(a) && NoDup(b) && Inside(a, b)
    ensures |a| <= |b|
    ensures |a| == |b| ==> Inside(b, a)
  {
    CountElems(a);
    CountElems(b);
    assert Elems(a) <= Elems(b);
    SubsetCount(Elems(a), Elems(b));
    if |a| == |b| {
      forall x | x in b ensures x in a { assert x in Elems(b); }
    }
  }

  lemma NoMembers<T>(s: seq<T>)
    ensures (forall x :: x !in s) ==> s == []
  {
    if s != [] { assert s[0] in s; }
  }
}
