/** The page free list of mem/slab.c as a sequence of runs, and the set of free pages it stands for. */
module PageRuns {
  /** A free stretch: `struct sk_page_head` at page `start` with `page == len`. */
  datatype Run = Run(start: nat, len: nat) {
    function End(): (e: nat)
    {
      start + len
    }
  }

  /** Address-sorted, disjoint and fully coalesced: between two runs lies at least one page in use. */
  ghost predicate Canonical(s: seq<Run>)
  {
    && (forall i: int :: 0 <= i < |s| ==> s[i].len > 0)
    && (forall i: int, j: int :: 0 <= i < j < |s| ==> s[i].End() < s[j].start)
  }

  ghost predicate Covers(s: seq<Run>, p: int)
  {
    exists i: int :: 0 <= i < |s| && s[i].start <= p < s[i].End()
  }

  predicate Within(p: int, lo: int, hi: int)
  {
    lo <= p < hi
  }

  /** The pages lo, ..., hi - 1. */
  function Span(lo: int, hi: int): (r: set<int>)
    ensures forall p: int :: p in r <==> lo <= p < hi
  {
    var r := set p | lo <= p < hi && Within(p, lo, hi);
    assert forall p: int :: Within(p, lo, hi) ==> p in r;
    r
  }

  /** The set of free pages. */
  ghost function Pages(s: seq<Run>): (r: set<int>)
  {
    if s == [] then {} else Span(s[0].start, s[0].End()) + Pages(s[1..])
  }

  lemma CoversCons(s: seq<Run>, p: int)
    requires s != []
    ensures Covers(s, p) <==> s[0].start <= p < s[0].End() || Covers(s[1..], p)
  {
    if Covers(s[1..], p) {
      var i :| 0 <= i < |s[1..]| && s[1..][i].start <= p < s[1..][i].End();
      assert s[i + 1].start <= p < s[i + 1].End();
    }
    if Covers(s, p) && !(s[0].start <= p < s[0].End()) {
      var i :| 0 <= i < |s| && s[i].start <= p < s[i].End();
      assert s[1..][i - 1] == s[i];
    }
  }

  lemma {:induction false} InPages(s: seq<Run>, p: int)
    ensures p in Pages(s) <==> Covers(s, p)
  {
    if s != [] {
      CoversCons(s, p);
      InPages(s[1..], p);
    }
  }

  /** A page of the list, with the run that holds it. */
  lemma RunOf(s: seq<Run>, p: int) returns (i: nat)
    requires p in Pages(s)
    ensures i < |s| && s[i].start <= p < s[i].End()
  {
    InPages(s, p);
    i :| 0 <= i < |s| && s[i].start <= p < s[i].End();
  }

  lemma RunPages(s: seq<Run>, i: nat, p: int)
    requires i < |s| && s[i].start <= p < s[i].End()
    ensures p in Pages(s)
  {
    InPages(s, p);
  }

  lemma PagesOne(r: Run)
    ensures Pages([r]) == Span(r.start, r.End())
  {
    assert Pages([r][1..]) == {};
  }

  lemma {:induction false} PagesConcat(a: seq<Run>, b: seq<Run>)
    ensures Pages(a + b) == Pages(a) + Pages(b)
  {
    if a == [] {
      assert a + b == b;
    } else {
      assert (a + b)[1..] == a[1..] + b;
      PagesConcat(a[1..], b);
    }
  }

  lemma PagesThree(a: seq<Run>, b: seq<Run>, c: seq<Run>)
    ensures Pages(a + b + c) == Pages(a) + Pages(b) + Pages(c)
  {
    PagesConcat(a + b, c);
    PagesConcat(a, b);
  }

  lemma SplitPages(s: seq<Run>, i: nat, j: nat)
    requires i <= j <= |s|
    ensures Pages(s) == Pages(s[..i]) + Pages(s[i..j]) + Pages(s[j..])
  {
    var a, b, c := s[..i], s[i..j], s[j..];
    assert s == a + b + c;
    PagesThree(a, b, c);
  }

  /** All of the pages p, ..., p + n - 1 are free. */
  ghost predicate Contiguous(free: set<int>, p: int, n: nat)
  {
    forall q: int :: p <= q < p + n ==> q in free
  }

  ghost predicate IsFirstFit(free: set<int>, n: nat, p: int)
  {
    && Contiguous(free, p, n)
    && forall q: int :: q < p ==> !Contiguous(free, q, n)
  }

  lemma FirstFitUnique(free: set<int>, n: nat, p: int, q: int)
    requires IsFirstFit(free, n, p) && IsFirstFit(free, n, q)
    ensures p == q
  {
  }

  /** A contiguous free stretch lies in one run. */
  lemma {:induction false} ContiguousInOneRun(s: seq<Run>, p: int, n: nat, i: nat)
    requires Canonical(s) && Contiguous(Pages(s), p, n) && n > 0
    requires i < |s| && s[i].start <= p < s[i].End()
    ensures p + n <= s[i].End()
    decreases n
  {
    if n > 1 {
      ContiguousInOneRun(s, p, n - 1, i);
      var j := RunOf(s, p + n - 1);
    }
  }

  lemma NoRunsNoPages(s: seq<Run>)
    requires Canonical(s)
    ensures s == [] <==> Pages(s) == {}
  {
    if s != [] { RunPages(s, 0, s[0].start); }
  }

  lemma TailPages(s: seq<Run>)
    requires Canonical(s) && s != []
    ensures Canonical(s[1..])
    ensures Pages(s[1..]) == Pages(s) - Span(s[0].start, s[0].End())
  {
    forall p: int | p in Pages(s[1..]) ensures p >= s[0].End() {
      var i := RunOf(s[1..], p);
      assert s[1..][i] == s[i + 1];
    }
  }

  /** Two lists of the same pages start at the same page, and the first run of `a` reaches no further. */
  lemma SameFirst(a: seq<Run>, b: seq<Run>)
    requires Canonical(a) && Canonical(b) && a != [] && b != []
    requires Pages(a) == Pages(b)
    ensures b[0].start == a[0].start && a[0].End() <= b[0].End()
  {
    var p := a[0].start;
    RunPages(a, 0, p);
    var i := RunOf(b, p);
    RunPages(b, 0, b[0].start);
    var j := RunOf(a, b[0].start);
    forall q: int | p <= q < p + a[0].len ensures q in Pages(b) { RunPages(a, 0, q); }
    ContiguousInOneRun(b, p, a[0].len, 0);
  }

  /** The list is determined by the set of free pages alone. */
  lemma {:induction false} CanonicalUnique(a: seq<Run>, b: seq<Run>)
    requires Canonical(a) && Canonical(b)
    requires Pages(a) == Pages(b)
    ensures a == b
  {
    NoRunsNoPages(a);
    NoRunsNoPages(b);
    if a != [] {
      SameFirst(a, b);
      SameFirst(b, a);
      assert a[0] == b[0];
      TailPages(a);
      TailPages(b);
      CanonicalUnique(a[1..], b[1..]);
      assert a == [a[0]] + a[1..] && b == [b[0]] + b[1..];
    }
  }

  /** The first run with at least n pages starts at the lowest address with n contiguous free pages. */
  lemma FirstFitRun(s: seq<Run>, n: nat, i: nat)
    requires Canonical(s) && n > 0 && i < |s| && s[i].len >= n
    requires forall j: int :: 0 <= j < i ==> s[j].len < n
    ensures IsFirstFit(Pages(s), n, s[i].start)
  {
    var p := s[i].start;
    forall q: int | p <= q < p + n ensures q in Pages(s) { RunPages(s, i, q); }
    forall q: int | q < p ensures !Contiguous(Pages(s), q, n) {
      if Contiguous(Pages(s), q, n) {
        var j := RunOf(s, q);
        ContiguousInOneRun(s, q, n, j);
        assert false;
      }
    }
  }

  /** When every run is too short there are no n contiguous free pages at all. */
  lemma NoFit(s: seq<Run>, n: nat)
    requires Canonical(s) && n > 0
    requires forall j: int :: 0 <= j < |s| ==> s[j].len < n
    ensures forall q: int :: !Contiguous(Pages(s), q, n)
  {
    forall q: int ensures !Contiguous(Pages(s), q, n) {
      if Contiguous(Pages(s), q, n) {
        var j := RunOf(s, q);
        ContiguousInOneRun(s, q, n, j);
        assert false;
      }
    }
  }

  lemma OthersApart(s: seq<Run>, i: nat)
    requires Canonical(s) && i < |s|
    ensures Pages(s[..i]) !! Span(s[i].start, s[i].End())
    ensures Pages(s[i + 1..]) !! Span(s[i].start, s[i].End())
  {
    var a, c := s[..i], s[i + 1..];
    forall p: int | p in Pages(a) ensures p < s[i].start {
      var j := RunOf(a, p);
      assert a[j] == s[j];
    }
    forall p: int | p in Pages(c) ensures p >= s[i].End() {
      var j := RunOf(c, p);
      assert c[j] == s[i + 1 + j];
    }
  }

  /** A run of the list and a run in use do not overlap. */
  lemma RunApart(s: seq<Run>, n: nat, k: nat, i: nat)
    requires Canonical(s) && i < |s| && k > 0 && Pages(s) !! Span(n, n + k)
    ensures s[i].End() <= n || n + k <= s[i].start
  {
    var p := if s[i].start <= n then n else s[i].start;
    if p < s[i].End() { RunPages(s, i, p); }
  }

  lemma SpliceCanonical(s: seq<Run>, i: nat, j: nat, run: Run)
    requires Canonical(s) && i <= j <= |s| && run.len > 0
    requires i > 0 ==> s[i - 1].End() < run.start
    requires j < |s| ==> run.End() < s[j].start
    ensures Canonical(s[..i] + [run] + s[j..])
  {
    var r := s[..i] + [run] + s[j..];
    forall k: int | 0 <= k < i ensures s[k].End() < run.start { if k < i - 1 { assert s[k].End() < s[i - 1].start; } }
    forall k: int | j <= k < |s| ensures run.End() < s[k].start { if j < k { assert s[j].End() < s[k].start; } }
    assert forall k: int :: 0 <= k < i ==> r[k] == s[k];
    assert forall k: int :: i < k < |r| ==> r[k] == s[k - i - 1 + j];
  }

  lemma SplicePages(s: seq<Run>, i: nat, j: nat, run: Run)
    requires i <= j <= |s|
    ensures Pages(s[..i] + [run] + s[j..]) == Pages(s[..i]) + Span(run.start, run.End()) + Pages(s[j..])
  {
    PagesConcat(s[..i] + [run], s[j..]);
    PagesConcat(s[..i], [run]);
    PagesOne(run);
  }
}
