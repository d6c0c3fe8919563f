/** sk_page_init, sk_page_free and sk_page_alloc: the free list threaded through the free pages themselves.
    A pointer is the number of the page it points to; struct sk_page_head is exactly one page long,
    so C's `b + b->page` is the sum of two page numbers. */
module PageAllocator {
  import opened PageRuns

  /** SK_NULL as a page number. */
  const NULL := -1

  /** Outcome of sk_page_free. */
  ghost predicate Freed(s: seq<Run>, n: nat, k: nat, r: seq<Run>)
  {
    Canonical(r) && Pages(r) == Pages(s) + Span(n, n + k)
  }

  /** Outcome of sk_page_alloc when it returns page p. */
  ghost predicate Taken(s: seq<Run>, n: nat, p: nat, r: seq<Run>)
  {
    && IsFirstFit(Pages(s), n, p)
    && Canonical(r) && Pages(r) == Pages(s) - Span(p, p + n)
  }

  /** Freeing what sk_page_alloc just returned restores the identical list. */
  lemma FreeUndoesAlloc(s: seq<Run>, n: nat, p: nat, t: seq<Run>, u: seq<Run>)
    requires Canonical(s) && Taken(s, n, p, t) && Freed(t, p, n, u)
    ensures u == s
  {
    assert Span(p, p + n) <= Pages(s);
    CanonicalUnique(u, s);
  }

  /** Two frees of any runs commute. */
  lemma FreesCommute(s: seq<Run>, n: nat, k: nat, m: nat, l: nat,
                     t: seq<Run>, u: seq<Run>, v: seq<Run>, w: seq<Run>)
    requires Freed(s, n, k, t) && Freed(t, m, l, u)
    requires Freed(s, m, l, v) && Freed(v, n, k, w)
    ensures u == w
  {
    CanonicalUnique(u, w);
  }

  /** `run` fits between the nodes before i and those from j on. */
  ghost predicate Fits(s: seq<Run>, i: nat, j: nat, run: Run)
  {
    && Canonical(s) && i <= j <= |s| && run.len > 0
    && (i > 0 ==> s[i - 1].End() < run.start)
    && (j < |s| ==> run.End() < s[j].start)
  }

  /** Putting `run` in the place of s[i..j]. */
  lemma Replaced(s: seq<Run>, i: nat, j: nat, run: Run, n: nat, k: nat)
    requires Fits(s, i, j, run)
    requires Span(run.start, run.End()) == Pages(s[i..j]) + Span(n, n + k)
    ensures Freed(s, n, k, s[..i] + [run] + s[j..])
  {
    SpliceCanonical(s, i, j, run);
    SplitPages(s, i, j);
    SplicePages(s, i, j, run);
  }

  /** The three ways the freed pages n, ..., n + k - 1 join neighbours of the list. */
  lemma GrownUp(s: seq<Run>, i: nat, n: nat, k: nat)
    requires Canonical(s) && k > 0 && Pages(s) !! Span(n, n + k) && i < |s| && s[i].End() == n
    requires i + 1 < |s| ==> s[i + 1].start != n + k
    ensures var run := Run(s[i].start, s[i].len + k);
            Fits(s, i, i + 1, run) && Freed(s, n, k, s[..i] + [run] + s[i + 1..])
  {
    assert s[i..i + 1] == [s[i]];
    PagesOne(s[i]);
    if i + 1 < |s| { RunApart(s, n, k, i + 1); }
    Replaced(s, i, i + 1, Run(s[i].start, s[i].len + k), n, k);
  }

  lemma GapClosed(s: seq<Run>, i: nat, n: nat, k: nat)
    requires Canonical(s) && k > 0 && i + 1 < |s| && s[i].End() == n && s[i + 1].start == n + k
    ensures var run := Run(s[i].start, s[i].len + k + s[i + 1].len);
            Fits(s, i, i + 2, run) && Freed(s, n, k, s[..i] + [run] + s[i + 2..])
  {
    assert s[i..i + 2] == [s[i]] + [s[i + 1]];
    PagesConcat([s[i]], [s[i + 1]]);
    PagesOne(s[i]);
    PagesOne(s[i + 1]);
    Replaced(s, i, i + 2, Run(s[i].start, s[i].len + k + s[i + 1].len), n, k);
  }

  lemma GrownDown(s: seq<Run>, i: nat, n: nat, k: nat)
    requires Canonical(s) && k > 0 && i < |s| && s[i].start == n + k
    requires i > 0 ==> s[i - 1].End() < n
    ensures var run := Run(n, s[i].len + k);
            Fits(s, i, i + 1, run) && Freed(s, n, k, s[..i] + [run] + s[i + 1..])
  {
    assert s[i..i + 1] == [s[i]];
    PagesOne(s[i]);
    Replaced(s, i, i + 1, Run(n, s[i].len + k), n, k);
  }

  lemma ShortenedPages(s: seq<Run>, i: nat, n: nat)
    requires Canonical(s) && i < |s| && 0 < n < s[i].len
    ensures Pages(s[..i]) + Span(s[i].start + n, s[i].End()) + Pages(s[i + 1..]) ==
            Pages(s) - Span(s[i].start, s[i].start + n)
  {
    SplitPages(s, i, i + 1);
    assert s[i..i + 1] == [s[i]];
    PagesOne(s[i]);
    OthersApart(s, i);
  }

  lemma Shortened(s: seq<Run>, i: nat, n: nat)
    requires Canonical(s) && i < |s| && 0 < n < s[i].len
    ensures var r := s[..i] + [Run(s[i].start + n, s[i].len - n)] + s[i + 1..];
            Canonical(r) && Pages(r) == Pages(s) - Span(s[i].start, s[i].start + n)
  {
    var run := Run(s[i].start + n, s[i].len - n);
    SpliceCanonical(s, i, i + 1, run);
    SplicePages(s, i, i + 1, run);
    ShortenedPages(s, i, n);
  }

  lemma GapCanonical(s: seq<Run>, i: nat)
    requires Canonical(s) && i < |s|
    ensures Canonical(s[..i] + s[i + 1..])
  {
    var r := s[..i] + s[i + 1..];
    assert forall k :: 0 <= k < |r| ==> r[k] == s[if k < i then k else k + 1];
  }

  lemma Removed(s: seq<Run>, i: nat)
    requires Canonical(s) && i < |s|
    ensures var r := s[..i] + s[i + 1..];
            Canonical(r) && Pages(r) == Pages(s) - Span(s[i].start, s[i].End())
  {
    GapCanonical(s, i);
    SplitPages(s, i, i + 1);
    PagesConcat(s[..i], s[i + 1..]);
    assert s[i..i + 1] == [s[i]];
    PagesOne(s[i]);
    OthersApart(s, i);
  }

  ghost function StartAt(s: seq<Run>, i: nat): (p: int)
    requires i <= |s|
  {
    if i == |s| then NULL else s[i].start
  }

  ghost predicate Node(next: map<int, int>, page: map<int, nat>, s: seq<Run>, i: nat)
    requires i < |s|
  {
    && s[i].start in next && next[s[i].start] == StartAt(s, i + 1)
    && s[i].start in page && page[s[i].start] == s[i].len
  }

  /** The words in memory spell out the list `s`. */
  ghost predicate Links(head: int, next: map<int, int>, page: map<int, nat>, s: seq<Run>)
  {
    && head == StartAt(s, 0)
    && forall i {:trigger Node(next, page, s, i)} :: 0 <= i < |s| ==> Node(next, page, s, i)
  }

  /** `*prev` for the pointer-to-pointer that walks the list; a prev of NULL stands for &sys_page_list. */
  ghost function PrevAt(s: seq<Run>, i: nat): (p: int)
    requires i <= |s|
  {
    if i == 0 then NULL else s[i - 1].start
  }

  lemma FitsApart(s: seq<Run>, i: nat, j: nat, run: Run, k: nat)
    requires Fits(s, i, j, run) && k < |s| && (k < i || j <= k)
    ensures s[k].start != run.start
    ensures i > 0 && k != i - 1 ==> s[k].start != s[i - 1].start
  {
    assert k < i - 1 ==> s[k].End() < s[i - 1].start;
    assert j < k ==> s[j].End() < s[k].start;
    assert i > 0 && i - 1 < k ==> s[i - 1].End() < s[k].start;
  }

  ghost function StoreNext(next: map<int, int>, s: seq<Run>, i: nat, v: int): map<int, int>
    requires i <= |s|
  {
    if i == 0 then next else next[PrevAt(s, i) := v]
  }

  lemma NodeBefore(next: map<int, int>, page: map<int, nat>, s: seq<Run>, i: nat, j: nat, run: Run, k: nat)
    requires Fits(s, i, j, run) && k < i && Node(next, page, s, k)
    ensures Node(StoreNext(next[run.start := StartAt(s, j)], s, i, run.start),
                 page[run.start := run.len], s[..i] + [run] + s[j..], k)
  {
    var r := s[..i] + [run] + s[j..];
    assert r[k] == s[k] && (k < i - 1 ==> r[k + 1] == s[k + 1]) && r[i] == run;
    FitsApart(s, i, j, run, k);
  }

  lemma NodeAfter(next: map<int, int>, page: map<int, nat>, s: seq<Run>, i: nat, j: nat, run: Run, k: nat)
    requires Fits(s, i, j, run) && i < k < i + 1 + |s| - j && Node(next, page, s, k - i - 1 + j)
    ensures Node(StoreNext(next[run.start := StartAt(s, j)], s, i, run.start),
                 page[run.start := run.len], s[..i] + [run] + s[j..], k)
  {
    var r := s[..i] + [run] + s[j..];
    var k' := k - i - 1 + j;
    assert r[k] == s[k'] && (k + 1 < |r| ==> r[k + 1] == s[k' + 1]);
    FitsApart(s, i, j, run, k');
  }

  /** Memory after `run` took the place of the nodes i, ..., j - 1 and *prev was pointed at it. */
  lemma Relinked(head: int, next: map<int, int>, page: map<int, nat>, s: seq<Run>, i: nat, j: nat, run: Run)
    requires Links(head, next, page, s) && Fits(s, i, j, run)
    ensures Links(if i == 0 then run.start else head, StoreNext(next[run.start := StartAt(s, j)], s, i, run.start),
                  page[run.start := run.len], s[..i] + [run] + s[j..])
  {
    var r := s[..i] + [run] + s[j..];
    var n2 := StoreNext(next[run.start := StartAt(s, j)], s, i, run.start);
    var p2 := page[run.start := run.len];
    forall k | 0 <= k < |r| ensures Node(n2, p2, r, k) {
      if k < i {
        NodeBefore(next, page, s, i, j, run, k);
      } else if k > i {
        NodeAfter(next, page, s, i, j, run, k);
      } else {
        assert k + 1 < |r| ==> r[k + 1] == s[j];
      }
    }
  }

  /** Memory after run i grew over the nodes up to j: the node before still points at it. */
  lemma Regrown(head: int, next: map<int, int>, page: map<int, nat>, s: seq<Run>, i: nat, j: nat, run: Run)
    requires Links(head, next, page, s) && Fits(s, i, j, run) && i < |s| && run.start == s[i].start
    ensures Links(head, next[run.start := StartAt(s, j)], page[run.start := run.len], s[..i] + [run] + s[j..])
  {
    Relinked(head, next, page, s, i, j, run);
    if i > 0 {
      assert Node(next, page, s, i - 1);
      assert s[i - 1].start != run.start;
      assert next[run.start := StartAt(s, j)][s[i - 1].start := run.start] == next[run.start := StartAt(s, j)];
    }
  }

  /** Run i grew over the freed pages behind it, and over run i + 1 when that leaves no gap. */
  lemma MergedGap(head: int, next: map<int, int>, page: map<int, nat>, s: seq<Run>, i: nat, n: nat, numPages: nat)
    requires Links(head, next, page, s) && Canonical(s) && numPages > 0 && Pages(s) !! Span(n, n + numPages)
    requires i + 1 < |s| && s[i].End() == n && n + numPages == s[i + 1].start
    ensures var run := Run(s[i].start, s[i].len + numPages + s[i + 1].len);
            var r := s[..i] + [run] + s[i + 2..];
            && Links(head, next[run.start := StartAt(s, i + 2)], page[run.start := run.len], r)
            && Canonical(r) && Freed(s, n, numPages, r)
  {
    GapClosed(s, i, n, numPages);
    Regrown(head, next, page, s, i, i + 2, Run(s[i].start, s[i].len + numPages + s[i + 1].len));
  }

  lemma MergedUp(head: int, next: map<int, int>, page: map<int, nat>, s: seq<Run>, i: nat, n: nat, numPages: nat)
    requires Links(head, next, page, s) && Canonical(s) && numPages > 0 && Pages(s) !! Span(n, n + numPages)
    requires i < |s| && s[i].End() == n && (i + 1 < |s| ==> n + numPages != s[i + 1].start)
    ensures var run := Run(s[i].start, s[i].len + numPages);
            var r := s[..i] + [run] + s[i + 1..];
            && Links(head, next[run.start := StartAt(s, i + 1)], page[run.start := run.len], r)
            && Canonical(r) && Freed(s, n, numPages, r)
  {
    GrownUp(s, i, n, numPages);
    Regrown(head, next, page, s, i, i + 1, Run(s[i].start, s[i].len + numPages));
  }

  /** Run i grew downwards over the freed pages before it, and *prev was pointed at its new start. */
  lemma MergedDown(head: int, next: map<int, int>, page: map<int, nat>, s: seq<Run>, i: nat, n: nat, numPages: nat)
    requires Links(head, next, page, s) && Canonical(s) && numPages > 0 && i < |s| && s[i].start == n + numPages
    requires i > 0 ==> s[i - 1].End() < n
    ensures var run := Run(n, s[i].len + numPages);
            var r := s[..i] + [run] + s[i + 1..];
            && Links(if i == 0 then n else head, StoreNext(next[n := StartAt(s, i + 1)], s, i, n),
                     page[n := run.len], r)
            && Canonical(r) && Freed(s, n, numPages, r)
  {
    GrownDown(s, i, n, numPages);
    Relinked(head, next, page, s, i, i + 1, Run(n, s[i].len + numPages));
  }

  /** Memory after the front of run i was cut off and *prev was pointed at the rest. */
  lemma FrontCut(head: int, next: map<int, int>, page: map<int, nat>, s: seq<Run>, i: nat, n: nat, run: Run)
    requires Links(head, next, page, s) && Canonical(s) && i < |s| && 0 < n < s[i].len
    requires run == Run(s[i].start + n, s[i].len - n)
    ensures Links(if i == 0 then run.start else head, StoreNext(next[run.start := StartAt(s, i + 1)], s, i, run.start),
                  page[run.start := run.len], s[..i] + [run] + s[i + 1..])
  {
    assert i > 0 ==> s[i - 1].End() < s[i].start;
    assert i + 1 < |s| ==> s[i].End() < s[i + 1].start;
    Relinked(head, next, page, s, i, i + 1, run);
  }

  lemma StartsApart(s: seq<Run>, i: nat, j: nat)
    requires Canonical(s) && i < |s| && j < |s| && i != j
    ensures s[i].start != s[j].start
  {
    assert i < j ==> s[i].End() < s[j].start;
    assert j < i ==> s[j].End() < s[i].start;
  }

  lemma UnlinkedNode(next: map<int, int>, page: map<int, nat>, s: seq<Run>, i: nat, k: nat)
    requires Canonical(s) && i < |s| && k < |s| - 1 && Node(next, page, s, if k < i then k else k + 1)
    ensures Node(if i == 0 then next else next[PrevAt(s, i) := StartAt(s, i + 1)], page, s[..i] + s[i + 1..], k)
  {
    var r := s[..i] + s[i + 1..];
    var k' := if k < i then k else k + 1;
    assert r[k] == s[k'];
    assert k' + 1 < |s| && k' + 1 != i ==> r[k + 1] == s[k' + 1];
    assert k + 1 == i && i + 1 < |s| ==> r[k + 1] == s[i + 1];
    if i > 0 && k' != i - 1 { StartsApart(s, i - 1, k'); }
  }

  /** Memory after *prev was pointed past node i. */
  lemma Unlinked(head: int, next: map<int, int>, page: map<int, nat>, s: seq<Run>, i: nat)
    requires Links(head, next, page, s) && Canonical(s) && i < |s|
    ensures Links(if i == 0 then StartAt(s, 1) else head,
                  if i == 0 then next else next[PrevAt(s, i) := StartAt(s, i + 1)],
                  page, s[..i] + s[i + 1..])
  {
    var r := s[..i] + s[i + 1..];
    var n2 := if i == 0 then next else next[PrevAt(s, i) := StartAt(s, i + 1)];
    forall k | 0 <= k < |r| ensures Node(n2, page, r, k) { UnlinkedNode(next, page, s, i, k); }
  }

  class PageAllocator {
    var head: int             // sys_page_list
    var next: map<int, int>   // the `next` words stored in pages
    var page: map<int, nat>   // the `page` words stored in pages

    ghost var runs: seq<Run>

    ghost predicate Valid()
      reads this
    {
      Links(head, next, page, runs) && Canonical(runs)
    }

    /** sk_page_init; the rest of memory is arbitrary. */
    constructor (addr: nat, npages: nat, next0: map<int, int>, page0: map<int, nat>)
      requires npages > 0
      ensures Valid() && runs == [Run(addr, npages)]
    {
      page := page0[addr := npages];
      next := next0[addr := NULL];
      head := addr;
      runs := [Run(addr, npages)];
    }

    method Store(prev: int, v: int)
      modifies this`head, this`next
      ensures prev == NULL ==> head == v && next == old(next)
      ensures prev != NULL ==> head == old(head) && next == old(next)[prev := v]
    {
      if prev == NULL { head := v; } else { next := next[prev := v]; }
    }

    /** The grown run b reaches the next one: it takes that one's pages and its place. */
    method CloseGap(b: int, n: nat, numPages: nat, ghost i: nat, ghost page0: map<int, nat>)
      requires Links(head, next, page0, runs) && Canonical(runs) && numPages > 0 && Pages(runs) !! Span(n, n + numPages)
      requires i + 1 < |runs| && runs[i].start == b && runs[i].End() == n && n + numPages == runs[i + 1].start
      requires page == page0[b := runs[i].len + numPages]
      modifies this
      ensures Valid() && Freed(old(runs), n, numPages, runs)
    {
      ghost var s, next0 := runs, next;
      assert Node(next, page0, s, i) && Node(next, page0, s, i + 1);
      var c := next[b];
      page := page[b := page[b] + page[c]];
      next := next[b := next[c]];
      ghost var run := Run(b, s[i].len + numPages + s[i + 1].len);
      runs := s[..i] + [run] + s[i + 2..];
      MergedGap(head, next0, page0, s, i, n, numPages);
      assert page == page0[b := run.len] && next == next0[b := StartAt(s, i + 2)];
    }

    /** The branch of sk_page_free that grows the run before the freed pages, and closes a gap after it. */
    method MergeAfter(b: int, n: nat, numPages: nat, ghost i: nat)
      requires Valid() && numPages > 0 && Pages(runs) !! Span(n, n + numPages)
      requires i < |runs| && runs[i].start == b && runs[i].End() == n
      modifies this
      ensures Valid() && Freed(old(runs), n, numPages, runs)
    {
      ghost var s, page0 := runs, page;
      assert Node(next, page, s, i);
      page := page[b := page[b] + numPages];
      if b + page[b] == next[b] {
        CloseGap(b, n, numPages, i, page0);
      } else {
        runs := s[..i] + [Run(b, s[i].len + numPages)] + s[i + 1..];
        MergedUp(head, next, page0, s, i, n, numPages);
        assert next == next[b := StartAt(s, i + 1)];
      }
    }

    method MoveDown(prev: int, b: int, n: nat, numPages: nat)
      requires b in page && b in next
      modifies this`head, this`next, this`page
      ensures page == old(page)[n := old(page)[b] + numPages]
      ensures prev == NULL ==> head == n && next == old(next)[n := old(next)[b]]
      ensures prev != NULL ==> head == old(head) && next == old(next)[n := old(next)[b]][prev := n]
    {
      page := page[n := page[b] + numPages];
      next := next[n := next[b]];
      Store(prev, n);
    }

    /** The branch of sk_page_free that extends the run after the freed pages downwards. */
    method MergeBefore(prev: int, b: int, n: nat, numPages: nat, ghost i: nat)
      requires Valid() && numPages > 0
      requires i < |runs| && runs[i].start == b == n + numPages && prev == PrevAt(runs, i)
      requires i > 0 ==> runs[i - 1].End() < n
      modifies this
      ensures Valid() && Freed(old(runs), n, numPages, runs)
    {
      ghost var s := runs;
      assert Node(next, page, s, i);
      MergedDown(head, next, page, s, i, n, numPages);
      MoveDown(prev, b, n, numPages);
      runs := s[..i] + [Run(n, s[i].len + numPages)] + s[i + 1..];
    }

    /** The end of sk_page_free: no neighbour touches the freed pages. */
    method Insert(prev: int, b: int, n: nat, numPages: nat, ghost i: nat)
      requires Valid() && numPages > 0 && Pages(runs) !! Span(n, n + numPages)
      requires i <= |runs| && b == StartAt(runs, i) && prev == PrevAt(runs, i)
      requires i > 0 ==> runs[i - 1].End() < n
      requires i < |runs| ==> n + numPages < runs[i].start
      modifies this
      ensures Valid() && Freed(old(runs), n, numPages, runs)
    {
      ghost var s := runs;
      page := page[n := numPages];
      next := next[n := b];
      Store(prev, n);
      runs := s[..i] + [Run(n, numPages)] + s[i..];
      assert s[i..i] == [];
      Replaced(s, i, i, Run(n, numPages), n, numPages);
      Relinked(old(head), old(next), old(page), s, i, i, Run(n, numPages));
    }

    method Free(n: nat, numPages: nat)
      requires Valid() && numPages > 0
      requires Pages(runs) !! Span(n, n + numPages)
      modifies this
      ensures Valid()
      ensures Freed(old(runs), n, numPages, runs)
    {
      ghost var s := runs;
      ghost var i := 0;
      var prev, b := NULL, head;
      while b != NULL
        invariant 0 <= i <= |s| && runs == s && Links(head, next, page, s)
        invariant b == StartAt(s, i) && prev == PrevAt(s, i)
        invariant i > 0 ==> s[i - 1].End() < n
        decreases |s| - i
      {
        assert Node(next, page, s, i);
        RunApart(s, n, numPages, i);
        if b + page[b] == n {
          MergeAfter(b, n, numPages, i);
          return;
        }
        if b == n + numPages {
          MergeBefore(prev, b, n, numPages, i);
          return;
        }
        if b > n + numPages {
          break;
        }
        prev, b := b, next[b];
        i := i + 1;
      }
      Insert(prev, b, n, numPages, i);
    }

    /** The branch of sk_page_alloc that leaves the back of run i. */
    method CutFront(prev: int, b: int, npages: nat, ghost i: nat)
      requires Valid() && i < |runs| && runs[i].start == b && prev == PrevAt(runs, i)
      requires 0 < npages < runs[i].len
      modifies this
      ensures Valid() && Pages(runs) == Pages(old(runs)) - Span(b, b + npages)
    {
      ghost var s := runs;
      assert Node(next, page, s, i);
      var n := b + npages;
      ghost var run := Run(n, s[i].len - npages);
      FrontCut(head, next, page, s, i, npages, run);
      Shortened(s, i, npages);
      next := next[n := next[b]];
      page := page[n := page[b] - npages];
      Store(prev, n);
      assert i > 0 ==> Node(old(next), old(page), s, i - 1);
      assert next == StoreNext(old(next)[n := StartAt(s, i + 1)], s, i, n) && head == if i == 0 then n else old(head);
      assert page == old(page)[n := run.len];
      runs := s[..i] + [run] + s[i + 1..];
      assert Links(head, next, page, runs);
    }

    /** The two branches of sk_page_alloc that take `npages` from the front of run i. */
    method Cut(prev: int, b: int, npages: nat, ghost i: nat)
      requires Valid() && i < |runs| && runs[i].start == b && prev == PrevAt(runs, i)
      requires 0 < npages <= runs[i].len
      modifies this
      ensures Valid() && Pages(runs) == Pages(old(runs)) - Span(b, b + npages)
    {
      ghost var s := runs;
      assert Node(next, page, s, i);
      if page[b] > npages {
        CutFront(prev, b, npages, i);
      } else {
        Store(prev, next[b]);
        runs := s[..i] + s[i + 1..];
        Removed(s, i);
        Unlinked(old(head), old(next), old(page), s, i);
      }
    }

    method Alloc(npages: nat) returns (b: int)
      requires Valid()
      modifies this
      ensures Valid()
      ensures b == NULL ==> runs == old(runs)
      ensures b == NULL <==> npages == 0 || forall p: int :: !Contiguous(Pages(old(runs)), p, npages)
      ensures b != NULL ==> b >= 0 && Taken(old(runs), npages, b, runs)
    {
      if npages == 0 { return NULL; }
      ghost var s := runs;
      ghost var i := 0;
      var prev := NULL;
      b := head;
      while b != NULL
        invariant 0 <= i <= |s| && runs == s && Links(head, next, page, s)
        invariant b == StartAt(s, i) && prev == PrevAt(s, i)
        invariant forall j :: 0 <= j < i ==> s[j].len < npages
        decreases |s| - i
      {
        assert Node(next, page, s, i);
        if page[b] >= npages {
          FirstFitRun(s, npages, i);
          Cut(prev, b, npages, i);
          return;
        }
        prev, b := b, next[b];
        i := i + 1;
      }
      NoFit(s, npages);
    }
  }
}
