/**
  The page allocator under the slab: an address-ordered list of runs of free pages.
 */
module PagesSpec {
  import opened Sequences

  datatype Run = Run(start: nat, count: nat) {
    function End(): nat { start + count }
    predicate Has(p: nat) { start <= p < start + count }
  }

  /** Page `p` is free. */
  ghost predicate IsFree(list: seq<Run>, p: nat) {
    exists i :: 0 <= i < |list| && list[i].Has(p)
  }

  /** Sorted runs with a used page between any two: each run is as long as it can be. */
  ghost predicate Canonical(list: seq<Run>) {
    && (forall i | 0 <= i < |list| :: list[i].count > 0)
    && (forall i, j | 0 <= i < j < |list| :: list[i].End() < list[j].start)
  }

  /** All pages from `a` up to `a + n` are free. */
  ghost predicate AllFree(list: seq<Run>, a: nat, n: nat) {
    forall p: nat | a <= p < a + n :: IsFree(list, p)
  }

  /** No page from `a` up to `a + n` is free. */
  ghost predicate NoneFree(list: seq<Run>, a: nat, n: nat) {
    forall p: nat | a <= p < a + n :: !IsFree(list, p)
  }

  // ---------------------------------------------------------------------------------
  // Operations
  // ---------------------------------------------------------------------------------

  /** Index of the first run with at least `n` pages, or `|list|` */
  function FirstFit(list: seq<Run>, n: nat, i: nat := 0): (r: nat)
    requires i <= |list|
    ensures i <= r <= |list|
    ensures r < |list| ==> n <= list[r].count
    ensures forall k | i <= k < r :: list[k].count < n
    decreases |list| - i
  {
    if i == |list| || n <= list[i].count then i else FirstFit(list, n, i + 1)
  }

  datatype Grant = Nothing | Got(page: nat)

  /** rt_page_alloc */
  function Alloc(list: seq<Run>, n: nat): (seq<Run>, Grant) {
    if n == 0 then (list, Nothing)
    else
      var i := FirstFit(list, n);
      if i == |list| then (list, Nothing)
      else
        var b := list[i];
        (Splice(list, i, i + 1, if b.count > n then [Run(b.start + n, b.count - n)] else []), Got(b.start))
  }

  /** Index of the first run that ends at `a` or lies beyond it, where rt_page_free stops */
  function Stop(list: seq<Run>, a: nat, n: nat, i: nat := 0): (r: nat)
    requires i <= |list|
    ensures i <= r <= |list|
    ensures forall k | i <= k < r :: list[k].End() != a && list[k].start < a + n
    ensures r < |list| ==> list[r].End() == a || a + n <= list[r].start
    decreases |list| - i
  {
    if i == |list| || list[i].End() == a || a + n <= list[i].start then i else Stop(list, a, n, i + 1)
  }

  /** The run that rt_page_free makes, and the runs from `lo` to `hi - 1` that it replaces */
  datatype Merge = Merge(lo: nat, hi: nat, run: Run)

  function MergeOf(list: seq<Run>, a: nat, n: nat): (m: Merge)
    ensures m.lo <= m.hi <= |list|
  {
    var i := Stop(list, a, n);
    if i < |list| && list[i].End() == a then
      if i + 1 < |list| && list[i + 1].start == a + n then
        Merge(i, i + 2, Run(list[i].start, list[i].count + n + list[i + 1].count))
      else Merge(i, i + 1, Run(list[i].start, list[i].count + n))
    else if i < |list| && list[i].start == a + n then
      Merge(i, i + 1, Run(a, list[i].count + n))
    else Merge(i, i, Run(a, n))
  }

  /** rt_page_free */
  function Free(list: seq<Run>, a: nat, n: nat): seq<Run> {
    var m := MergeOf(list, a, n);
    Splice(list, m.lo, m.hi, [m.run])
  }

  // ---------------------------------------------------------------------------------
  // The list is a canonical form
  // ---------------------------------------------------------------------------------

  /** A page between two runs, or before the first, is not free. */
  lemma {:induction false} GapNotFree(list: seq<Run>, i: nat, p: nat)
    requires Canonical(list) && i <= |list|
    requires i < |list| ==> p < list[i].start
    requires i > 0 ==> list[i - 1].End() <= p
    ensures !IsFree(list, p)
  {
    forall k | 0 <= k < |list| ensures !list[k].Has(p) {
      if k < i - 1 {
        assert list[k].End() < list[i - 1].start;
      } else if k > i {
        assert list[i].End() < list[k].start;
      }
    }
  }

  /** Free pages in a row lie in one run. */
  lemma {:induction false} InOneRun(list: seq<Run>, a: nat, n: nat) returns (i: nat)
    requires Canonical(list) && n > 0 && AllFree(list, a, n)
    ensures i < |list| && list[i].start <= a && a + n <= list[i].End()
  {
    assert IsFree(list, a);
    i :| 0 <= i < |list| && list[i].Has(a);
    if list[i].End() < a + n {
      GapNotFree(list, i + 1, list[i].End());
      assert false;
    }
  }

  /** rt_page_alloc returns null exactly when no `n` pages in a row are free. */
  lemma {:induction false} AllocFailsIff(list: seq<Run>, n: nat)
    requires Canonical(list) && n > 0
    ensures Alloc(list, n).1 == Nothing <==> forall a: nat :: !AllFree(list, a, n)
  {
    var i := FirstFit(list, n);
    if i < |list| {
      forall p: nat | list[i].start <= p < list[i].start + n ensures IsFree(list, p) {
        assert list[i].Has(p);
      }
      assert AllFree(list, list[i].start, n);
    } else {
      forall a: nat ensures !AllFree(list, a, n) {
        if AllFree(list, a, n) {
          var k := InOneRun(list, a, n);
          assert false;
        }
      }
    }
  }

  lemma {:induction false} FreeConcat(a: seq<Run>, b: seq<Run>, p: nat)
    ensures IsFree(a + b, p) <==> IsFree(a, p) || IsFree(b, p)
  {
    if IsFree(a, p) {
      var i :| 0 <= i < |a| && a[i].Has(p);
      assert (a + b)[i].Has(p);
    }
    if IsFree(b, p) {
      var i :| 0 <= i < |b| && b[i].Has(p);
      assert (a + b)[|a| + i].Has(p);
    }
  }

  lemma {:induction false} FreeOne(r: Run, p: nat)
    ensures IsFree([r], p) <==> r.Has(p)
  {
    if r.Has(p) {
      assert [r][0].Has(p);
    }
  }

  /** A splice changes the free pages of its own stretch only. */
  lemma {:induction false} FreeSplice(list: seq<Run>, lo: nat, hi: nat, mid: seq<Run>, p: nat)
    requires lo <= hi <= |list|
    ensures IsFree(Splice(list, lo, hi, mid), p) <==> IsFree(list[..lo], p) || IsFree(mid, p) || IsFree(list[hi..], p)
    ensures IsFree(list, p) <==> IsFree(list[..lo], p) || IsFree(list[lo..hi], p) || IsFree(list[hi..], p)
  {
    hide IsFree;
    FreeConcat(list[..lo] + mid, list[hi..], p);
    FreeConcat(list[..lo], mid, p);
    FreeConcat(list[..lo] + list[lo..hi], list[hi..], p);
    FreeConcat(list[..lo], list[lo..hi], p);
    assert list == list[..lo] + list[lo..hi] + list[hi..];
  }

  lemma {:induction false} RemoveCanonical(list: seq<Run>, i: nat)
    requires Canonical(list) && i < |list|
    ensures Canonical(Splice(list, i, i + 1, []))
  {
    var r := Splice(list, i, i + 1, []);
    assert forall k | 0 <= k < |r| :: r[k] == if k < i then list[k] else list[k + 1];
  }

  lemma {:induction false} SpliceCanonical(list: seq<Run>, lo: nat, hi: nat, x: Run)
    requires Canonical(list) && lo <= hi <= |list| && x.count > 0
    requires lo > 0 ==> list[lo - 1].End() < x.start
    requires hi < |list| ==> x.End() < list[hi].start
    ensures Canonical(Splice(list, lo, hi, [x]))
  {
    var r := Splice(list, lo, hi, [x]);
    forall k | 0 <= k < lo ensures list[k].End() < x.start && r[k] == list[k] {
      assert k < lo - 1 ==> list[k].End() < list[lo - 1].start;
    }
    forall k | hi <= k < |list| ensures x.End() < list[k].start {
      assert hi < k ==> list[hi].End() < list[k].start;
    }
    assert r[lo] == x;
    assert forall k | lo < k < |r| :: r[k] == list[k - lo - 1 + hi];
  }

  lemma {:induction false} HasOutside(list: seq<Run>, i: nat, p: nat)
    requires Canonical(list) && i < |list|
    ensures IsFree(list[..i], p) ==> p < list[i].start
    ensures IsFree(list[i + 1..], p) ==> list[i].End() < p
  {
    if IsFree(list[..i], p) {
      var k :| 0 <= k < |list[..i]| && list[..i][k].Has(p);
      assert list[k].End() < list[i].start;
    }
    if IsFree(list[i + 1..], p) {
      var k :| 0 <= k < |list[i + 1..]| && list[i + 1..][k].Has(p);
      assert list[i].End() < list[i + 1 + k].start;
    }
  }

  /** rt_page_alloc takes exactly the pages it returns out of the free set. */
  lemma {:induction false} AllocTakes(list: seq<Run>, n: nat)
    requires Canonical(list) && Alloc(list, n).1 != Nothing
    ensures
      var (r, g) := Alloc(list, n);
      && n > 0 && Canonical(r) && AllFree(list, g.page, n)
      && (forall p: nat :: IsFree(r, p) <==> IsFree(list, p) && !(g.page <= p < g.page + n))
  {
    hide IsFree, Canonical, AllFree, Splice, FirstFit;
    AllocCanonical(list, n);
    AllocWasFree(list, n);
    forall p: nat ensures IsFree(Alloc(list, n).0, p) <==>
                          IsFree(list, p) && !(Alloc(list, n).1.page <= p < Alloc(list, n).1.page + n) {
      AllocAt(list, n, p);
    }
  }

  lemma {:induction false} AllocWasFree(list: seq<Run>, n: nat)
    requires Alloc(list, n).1 != Nothing
    ensures AllFree(list, Alloc(list, n).1.page, n)
  {
    var i := FirstFit(list, n);
    forall p: nat | list[i].start <= p < list[i].start + n ensures IsFree(list, p) {
      assert list[i].Has(p);
    }
  }

  lemma {:induction false} AroundRun(list: seq<Run>, i: nat)
    requires Canonical(list) && i < |list|
    ensures i > 0 ==> list[i - 1].End() < list[i].start
    ensures i + 1 < |list| ==> list[i].End() < list[i + 1].start
  {
  }

  lemma {:induction false} AllocCanonical(list: seq<Run>, n: nat)
    requires Canonical(list) && Alloc(list, n).1 != Nothing
    ensures Canonical(Alloc(list, n).0)
  {
    hide Canonical, Splice;
    var i := FirstFit(list, n);
    var b := list[i];
    AroundRun(list, i);
    if b.count > n {
      SpliceCanonical(list, i, i + 1, Run(b.start + n, b.count - n));
    } else {
      RemoveCanonical(list, i);
    }
  }

  lemma {:induction false} AllocAt(list: seq<Run>, n: nat, p: nat)
    requires Canonical(list) && Alloc(list, n).1 != Nothing
    ensures
      var (r, g) := Alloc(list, n);
      IsFree(r, p) <==> IsFree(list, p) && !(g.page <= p < g.page + n)
  {
    var i := FirstFit(list, n);
    var b := list[i];
    var mid := if b.count > n then [Run(b.start + n, b.count - n)] else [];
    FreeSplice(list, i, i + 1, mid, p);
    assert list[i..i + 1] == [b];
    FreeOne(b, p);
    FreeOne(Run(b.start + n, b.count - n), p);
    HasOutside(list, i, p);
  }

  // ---------------------------------------------------------------------------------
  // rt_page_free
  // ---------------------------------------------------------------------------------

  /** Where the freed pages fall: between the runs before and after index `i` */
  lemma {:induction false} StopPlace(list: seq<Run>, a: nat, n: nat)
    requires Canonical(list) && n > 0 && NoneFree(list, a, n)
    ensures
      var i := Stop(list, a, n);
      && (i > 0 ==> list[i - 1].End() < a)
      && (i < |list| && list[i].End() != a ==> a + n <= list[i].start)
      && (i < |list| && list[i].End() == a && i + 1 < |list| ==> a + n <= list[i + 1].start)
  {
    var i := Stop(list, a, n);
    forall k | 0 <= k < |list| ensures list[k].End() <= a || a + n <= list[k].start {
      var p := if list[k].start <= a then a else list[k].start;
      assert list[k].Has(p) ==> IsFree(list, p);
    }
  }

  lemma {:induction false} MergePlace(list: seq<Run>, a: nat, n: nat)
    requires Canonical(list) && n > 0 && NoneFree(list, a, n)
    ensures
      var m := MergeOf(list, a, n);
      && m.run.count > 0
      && (m.lo > 0 ==> list[m.lo - 1].End() < m.run.start)
      && (m.hi < |list| ==> m.run.End() < list[m.hi].start)
  {
    hide IsFree, NoneFree;
    StopPlace(list, a, n);
  }

  /** The new run holds the pages of the runs it replaces and the freed ones. */
  lemma {:induction false} MergeCovers(list: seq<Run>, a: nat, n: nat, p: nat)
    requires Canonical(list) && n > 0
    ensures
      var m := MergeOf(list, a, n);
      m.run.Has(p) <==> IsFree(list[m.lo..m.hi], p) || a <= p < a + n
  {
    hide IsFree, Canonical;
    var m, i := MergeOf(list, a, n), Stop(list, a, n);
    if m.hi == m.lo {
      assert list[m.lo..m.hi] == [];
      FreeNone(p);
    } else {
      FreeOne(list[i], p);
      if m.hi == m.lo + 1 {
        assert list[m.lo..m.hi] == [list[i]];
      } else {
        assert list[m.lo..m.hi] == [list[i]] + [list[i + 1]];
        FreeConcat([list[i]], [list[i + 1]], p);
        FreeOne(list[i + 1], p);
      }
    }
  }

  lemma {:induction false} FreeCanonical(list: seq<Run>, a: nat, n: nat)
    requires Canonical(list) && n > 0 && NoneFree(list, a, n)
    ensures Canonical(Free(list, a, n))
  {
    hide IsFree, NoneFree, Canonical;
    MergePlace(list, a, n);
    var m := MergeOf(list, a, n);
    SpliceCanonical(list, m.lo, m.hi, m.run);
  }

  lemma {:induction false} FreeAt(list: seq<Run>, a: nat, n: nat, p: nat)
    requires Canonical(list) && n > 0
    ensures IsFree(Free(list, a, n), p) <==> IsFree(list, p) || a <= p < a + n
  {
    hide IsFree, Canonical, MergeOf;
    var m := MergeOf(list, a, n);
    MergeCovers(list, a, n, p);
    FreeSplice(list, m.lo, m.hi, [m.run], p);
    FreeOne(m.run, p);
  }

  lemma {:induction false} FreeNone(p: nat)
    ensures !IsFree([], p)
  {
  }

  /** rt_page_free adds exactly the pages it is given to the free set. */
  lemma {:induction false} FreeGives(list: seq<Run>, a: nat, n: nat)
    requires Canonical(list) && n > 0 && NoneFree(list, a, n)
    ensures Canonical(Free(list, a, n))
    ensures forall p: nat :: IsFree(Free(list, a, n), p) <==> IsFree(list, p) || a <= p < a + n
  {
    FreeCanonical(list, a, n);
    forall p: nat ensures IsFree(Free(list, a, n), p) <==> IsFree(list, p) || a <= p < a + n {
      FreeAt(list, a, n, p);
    }
  }

  // ---------------------------------------------------------------------------------
  // Uniqueness and round trip
  // ---------------------------------------------------------------------------------

  ghost predicate SameFree(l: seq<Run>, m: seq<Run>) {
    forall p: nat :: IsFree(l, p) <==> IsFree(m, p)
  }

  /** The first run of one canonical list is the first run of any other with the same free pages. */
  lemma {:induction false} SameFirst(l: seq<Run>, m: seq<Run>)
    requires Canonical(l) && Canonical(m) && SameFree(l, m) && l != []
    ensures m != [] && m[0].start <= l[0].start && (m[0].start == l[0].start ==> m[0].count <= l[0].count)
  {
    var r := l[0];
    assert r.Has(r.start) && IsFree(l, r.start);
    assert IsFree(m, r.start);
    var k :| 0 <= k < |m| && m[k].Has(r.start);
    assert k == 0 || m[0].End() < m[k].start;
    if m[0].start == r.start {
      GapNotFree(l, 1, r.End());
      assert !IsFree(m, r.End());
      assert !m[0].Has(r.End());
    }
  }

  lemma {:induction false} TailSameFree(l: seq<Run>, m: seq<Run>)
    requires Canonical(l) && Canonical(m) && SameFree(l, m) && l != [] && m != [] && l[0] == m[0]
    ensures Canonical(l[1..]) && Canonical(m[1..]) && SameFree(l[1..], m[1..])
  {
    forall p: nat ensures IsFree(l[1..], p) <==> IsFree(m[1..], p) {
      TailFree(l, p);
      TailFree(m, p);
    }
  }

  lemma {:induction false} TailFree(l: seq<Run>, p: nat)
    requires Canonical(l) && l != []
    ensures IsFree(l[1..], p) <==> IsFree(l, p) && !l[0].Has(p)
  {
    assert l == [l[0]] + l[1..];
    FreeConcat([l[0]], l[1..], p);
    FreeOne(l[0], p);
    HasOutside(l, 0, p);
  }

  /** There is only one canonical list for a set of free pages. */
  lemma {:induction false} Unique(l: seq<Run>, m: seq<Run>)
    requires Canonical(l) && Canonical(m) && SameFree(l, m)
    ensures l == m
  {
    hide IsFree, SameFree, Canonical;
    if l != [] {
      SameFirst(l, m);
      SameFreeSym(l, m);
      SameFirst(m, l);
      assert l[0] == m[0];
      TailSameFree(l, m);
      Unique(l[1..], m[1..]);
      assert l == [l[0]] + l[1..] && m == [m[0]] + m[1..];
    } else if m != [] {
      SameFreeSym(l, m);
      SameFirst(m, l);
    }
  }

  lemma {:induction false} SameFreeSym(l: seq<Run>, m: seq<Run>)
    requires SameFree(l, m)
    ensures SameFree(m, l)
  {
  }

  /** Freeing what was just allocated restores the list exactly. */
  lemma {:induction false} AllocThenFree(list: seq<Run>, n: nat)
    requires Canonical(list) && Alloc(list, n).1 != Nothing
    ensures var (r, g) := Alloc(list, n); Free(r, g.page, n) == list
  {
    hide IsFree, Canonical;
    AllocTakes(list, n);
    var (r, g) := Alloc(list, n);
    assert NoneFree(r, g.page, n);
    FreeGives(r, g.page, n);
    assert SameFree(Free(r, g.page, n), list);
    Unique(Free(r, g.page, n), list);
  }

  /** rt_page_init: freeing all pages of an empty list makes one run. */
  lemma {:induction false} InitIsOneRun(a: nat, n: nat)
    requires n > 0
    ensures Free([], a, n) == [Run(a, n)] && Canonical([Run(a, n)])
  {
    assert NoneFree([], a, n);
  }
}

/** The page list in place: its heads lie in the free pages themselves. */
module Pages {
  import opened Sequences
  import opened Rings
  import opened Chains
  import opened PagesSpec

  function Starts(list: seq<Run>): seq<nat> {
    seq(|list|, i requires 0 <= i < |list| => list[i].start)
  }

  /** The heads of the runs hold their lengths. */
  ghost predicate Counts(count: seq<nat>, list: seq<Run>) {
    forall r | r in list :: r.start < |count| && r.End() <= |count| && count[r.start] == r.count
  }

  lemma {:induction false} StartsSplice(list: seq<Run>, lo: nat, hi: nat, mid: seq<Run>)
    requires lo <= hi <= |list|
    ensures Starts(Splice(list, lo, hi, mid)) == Respliced(Starts(list), lo, hi, Starts(mid))
  {
  }

  lemma {:induction false} StartsDistinct(list: seq<Run>)
    requires Canonical(list)
    ensures NoDup(Starts(list))
  {
    forall i, j | 0 <= i < j < |list| ensures list[i].start != list[j].start {
      assert list[i].End() < list[j].start;
    }
  }

  class PageList {
    const next: array<int>
    const count: array<nat>
    var first: int                  // rt_page_list
    ghost var list: seq<Run>

    /** The links and lengths in memory are those of the list. */
    ghost predicate Stored()
      reads this, next, count
    {
      next.Length == count.Length && Linked(next[..], first, Starts(list)) && Counts(count[..], list)
    }

    ghost predicate Valid()
      reads this, next, count
    {
      Canonical(list) && Stored()
    }

    /** rt_page_init: all pages are freed into an empty list. */
    constructor (start: nat, npages: nat)
      requires npages != 0
      ensures Valid() && list == [Run(start, npages)] && fresh(next) && fresh(count) && next.Length == start + npages
    {
      next := new int[start + npages];
      count := new nat[start + npages];
      first, list := NULL, [];
      new;
      InitIsOneRun(start, npages);
      EmptyList(start, npages);
      Free(start, npages);
    }

    /** `*prev = v`: the link before position `i`, or the start of the list */
    method SetLink(prev: int, v: int)
      requires prev == NULL || 0 <= prev < next.Length
      modifies next, `first
      ensures prev == NULL ==> first == v && next[..] == old(next[..])
      ensures prev != NULL ==> first == old(first) && next[..] == old(next[..])[prev := v]
    {
      if prev == NULL {
        first := v;
      } else {
        next[prev] := v;
      }
    }

    /** The head of run `i`, or null behind the last */
    ghost function Head(i: nat): int
      reads this
      requires i <= |list|
    {
      if i < |list| then list[i].start else NULL
    }

    ghost function Before(i: nat): int
      reads this
      requires i <= |list|
    {
      if i > 0 then list[i - 1].start else NULL
    }

    /** Step from one run to the next. */
    method Step(b: nat, ghost i: nat) returns (c: int)
      requires Stored() && i < |list| && b == list[i].start
      ensures c == Head(i + 1) && b < next.Length
    {
      LinkAt(next[..], first, list, i);
      c := next[b];
    }

    /** The search loop of rt_page_alloc */
    method FindFit(npages: nat) returns (prev: int, b: int, ghost i: nat)
      requires Stored()
      ensures i == FirstFit(list, npages) && b == Head(i) && prev == Before(i)
    {
      StartAt(next[..], first, list);
      hide Linked, Counts;
      prev, b, i := NULL, first, 0;
      while b != NULL
        invariant i <= |list| && FirstFit(list, npages) == FirstFit(list, npages, i)
        invariant b == Head(i) && prev == Before(i)
        decreases |list| - i
      {
        CountAt(count[..], list, i);
        if count[b] > npages || count[b] == npages {
          break;
        }
        prev := b;
        b := Step(b, i);
        i := i + 1;
      }
    }

    /** rt_page_alloc */
    method Alloc(npages: nat) returns (g: Grant)
      requires Valid()
      modifies this, next, count
      ensures Valid() && list == PagesSpec.Alloc(old(list), npages).0 && g == PagesSpec.Alloc(old(list), npages).1
    {
      hide IsFree, Canonical, AllFree, FirstFit, Linked, Counts, NoneFree;
      if npages == 0 {
        return Nothing;
      }
      var prev, b, i := FindFit(npages);
      if b == NULL {
        return Nothing;
      }
      AllocTakes(list, npages);
      g := Got(b);
      TakeFrom(prev, b, npages, i);
    }

    /** rt_page_alloc cuts the pages off the front of a run, or takes all of it. */
    method TakeFrom(prev: int, b: nat, npages: nat, ghost i: nat)
      requires Valid() && i < |list| && b == list[i].start && prev == Before(i) && 0 < npages <= list[i].count
      modifies next, count, `first, `list
      ensures Stored()
      ensures
        var r := old(list)[i];
        list == Splice(old(list), i, i + 1, if r.count > npages then [Run(r.start + npages, r.count - npages)] else [])
    {
      hide Linked, Counts, Canonical, Splice, Starts;
      ghost var nx, ct := next[..], count[..];
      CountAt(ct, list, i);
      PrevInside(next[..], first, list, i);
      LinkAt(nx, first, list, i);
      if count[b] > npages {
        var n := b + npages;
        CutLinks(nx, first, list, i, npages);
        CutCounts(ct, list, i, npages);
        next[n] := next[b];
        count[n] := count[b] - npages;
        SetLink(prev, n);
        list := Splice(list, i, i + 1, [Run(n, count[n])]);
      } else {
        DropLinks(nx, first, list, i);
        DropCounts(ct, list, i, i + 1);
        SetLink(prev, next[b]);
        list := Splice(list, i, i + 1, []);
      }
    }

    /** The search loop of rt_page_free */
    method FindStop(a: nat, npages: nat) returns (prev: int, b: int, ghost i: nat)
      requires Stored()
      ensures i == Stop(list, a, npages) && b == Head(i) && prev == Before(i)
    {
      StartAt(next[..], first, list);
      hide Linked, Counts;
      prev, b, i := NULL, first, 0;
      while b != NULL
        invariant i <= |list| && Stop(list, a, npages) == Stop(list, a, npages, i)
        invariant b == Head(i) && prev == Before(i)
        decreases |list| - i
      {
        CountAt(count[..], list, i);
        if b + count[b] == a || b == a + npages || b > a + npages {
          break;
        }
        prev := b;
        b := Step(b, i);
        i := i + 1;
      }
    }

    /** rt_page_free; its assertions ask for pages that are not free */
    method Free(a: nat, npages: nat)
      requires Valid() && npages != 0 && NoneFree(list, a, npages) && a + npages <= next.Length
      modifies this, next, count
      ensures Valid() && list == PagesSpec.Free(old(list), a, npages)
    {
      hide Canonical, NoneFree, Stop, Splice, Linked, Counts, IsFree;
      FreeCanonical(list, a, npages);
      NotAHead(list, a, npages);
      var prev, b, i := FindStop(a, npages);
      var touches := false;
      if b != NULL {
        CountAt(count[..], list, i);
        touches := b + count[b] == a;
      }
      if touches {
        Extend(b, npages, i);
      } else if b != NULL && b == a + npages {
        PutInFront(prev, b, a, npages, i);
      } else {
        PutBefore(prev, b, a, npages, i);
      }
    }

    /** The run before the freed pages grows, and swallows the one behind them if it touches it. */
    method Extend(b: nat, npages: nat, ghost i: nat)
      requires Valid() && i < |list| && b == list[i].start && list[i].End() + npages <= next.Length
      requires i + 1 < |list| ==> list[i].End() + npages <= list[i + 1].start
      modifies next, count, `list
      ensures Stored()
      ensures
        var l, r := old(list), Run(old(list)[i].start, old(list)[i].count + npages);
        list == if i + 1 < |l| && l[i + 1].start == r.End() then Splice(l, i, i + 2, [Run(r.start, r.count + l[i + 1].count)])
                else Splice(l, i, i + 1, [r])
    {
      hide Linked, Counts, Canonical, Splice, Starts;
      ghost var nx, ct, r := next[..], count[..], Run(list[i].start, list[i].count + npages);
      CountAt(ct, list, i);
      var c := Step(b, i);
      count[b] := count[b] + npages;
      if b + count[b] == c {
        CountAt(ct, list, i + 1);
        LinkAt(nx, first, list, i + 1);
        ghost var x := Run(r.start, r.count + list[i + 1].count);
        MergeLinks(nx, first, list, i, x.count);
        StartsApart(list, i);
        GrowCounts(ct, list, i, i + 2, x);
        next[b] := next[c];
        count[b] := count[b] + count[c];
        assert next[..] == nx[b := nx[c]] && count[..] == ct[b := x.count];
        list := Splice(list, i, i + 2, [x]);
      } else {
        SameLinks(nx, first, list, i, r);
        StartsApart(list, i);
        GrowCounts(ct, list, i, i + 1, r);
        list := Splice(list, i, i + 1, [r]);
      }
    }

    /** The run behind the freed pages starts with them. */
    method PutInFront(prev: int, b: nat, a: nat, npages: nat, ghost i: nat)
      requires Valid() && i < |list| && b == list[i].start == a + npages && prev == Before(i) && npages > 0
      requires forall k | 0 <= k < |list| :: list[k].start != a
      modifies next, count, `first, `list
      ensures Stored() && list == Splice(old(list), i, i + 1, [Run(a, old(list)[i].count + npages)])
    {
      hide Linked, Counts, Canonical, Splice, Starts;
      ghost var nx, ct := next[..], count[..];
      CountAt(ct, list, i);
      PrevInside(nx, first, list, i);
      LinkAt(nx, first, list, i);
      ReplaceLinks(nx, first, list, i, Run(a, list[i].count + npages));
      GrowCounts(ct, list, i, i + 1, Run(a, list[i].count + npages));
      count[a] := count[b] + npages;
      next[a] := next[b];
      SetLink(prev, a);
      list := Splice(list, i, i + 1, [Run(a, list[i].count + npages)]);
    }

    /** The freed pages are a run of their own. */
    method PutBefore(prev: int, b: int, a: nat, npages: nat, ghost i: nat)
      requires Valid() && i <= |list| && b == Head(i) && prev == Before(i) && a + npages <= next.Length && npages > 0
      requires forall k | 0 <= k < |list| :: list[k].start != a
      modifies next, count, `first, `list
      ensures Stored() && list == Splice(old(list), i, i, [Run(a, npages)])
    {
      hide Linked, Counts, Canonical, Splice, Starts;
      ghost var nx, ct := next[..], count[..];
      PrevInside(nx, first, list, i);
      InsertLinks(nx, first, list, i, Run(a, npages));
      GrowCounts(ct, list, i, i, Run(a, npages));
      count[a] := npages;
      next[a] := b;
      SetLink(prev, a);
      list := Splice(list, i, i, [Run(a, npages)]);
    }
  }

  // ---------------------------------------------------------------------------------
  // Links and lengths of a list of runs
  // ---------------------------------------------------------------------------------

  lemma {:induction false} EmptyList(start: nat, npages: nat)
    ensures Canonical([]) && NoneFree([], start, npages) && Starts([]) == []
  {
  }

  lemma {:induction false} StartAt(next: seq<int>, first: int, list: seq<Run>)
    requires Linked(next, first, Starts(list))
    ensures first == if list == [] then NULL else list[0].start
  {
    SegNodes(next, first, Starts(list), NULL);
  }

  lemma {:induction false} LinkAt(next: seq<int>, first: int, list: seq<Run>, i: nat)
    requires Linked(next, first, Starts(list)) && i < |list|
    ensures list[i].start < |next|
    ensures next[list[i].start] == if i + 1 < |list| then list[i + 1].start else NULL
  {
    var s := Starts(list);
    SegParts(next, first, s, 0, i);
    assert s[i..][0] == list[i].start && s[i..][1..] == s[i + 1..];
    SegNodes(next, next[list[i].start], s[i + 1..], NULL);
    hide Seg;
    assert i + 1 < |list| ==> s[i + 1..][0] == list[i + 1].start;
  }

  lemma {:induction false} CountAt(count: seq<nat>, list: seq<Run>, i: nat)
    requires Counts(count, list) && i < |list|
    ensures list[i].End() <= |count| && (list[i].count > 0 ==> list[i].start < |count|)
    ensures list[i].start < |count| && count[list[i].start] == list[i].count
  {
    assert list[i] in list;
  }

  lemma {:induction false} PrevInside(next: seq<int>, first: int, list: seq<Run>, i: nat)
    requires Linked(next, first, Starts(list)) && i <= |list|
    ensures i > 0 ==> list[i - 1].start < |next|
  {
    if i > 0 {
      LinkAt(next, first, list, i - 1);
    }
  }

  lemma {:induction false} NotAHead(list: seq<Run>, a: nat, n: nat)
    requires Canonical(list) && n > 0 && NoneFree(list, a, n)
    ensures forall k | 0 <= k < |list| :: list[k].start != a
    ensures
      var i := Stop(list, a, n);
      i < |list| && list[i].End() == a && i + 1 < |list| ==> list[i].End() + n <= list[i + 1].start
  {
    forall k | 0 <= k < |list| ensures list[k].start != a {
      assert list[k].Has(list[k].start);
      assert IsFree(list, list[k].start);
    }
    StopPlace(list, a, n);
  }

  lemma {:induction false} StartsApart(list: seq<Run>, i: nat)
    requires Canonical(list) && i < |list|
    ensures forall k | 0 <= k < |list| && k != i :: list[k].start != list[i].start
  {
    forall k | 0 <= k < |list| && k != i ensures list[k].start != list[i].start {
      assert k < i ==> list[k].End() < list[i].start;
      assert i < k ==> list[i].End() < list[k].start;
    }
  }

  /** What the pointer-to-pointer update does to the links of a list of runs */
  lemma {:induction false} SpliceLinks(next: seq<int>, m: seq<int>, first: int, list: seq<Run>, lo: nat, hi: nat, mid: seq<Run>)
    requires Canonical(list) && Linked(next, first, Starts(list)) && lo <= hi <= |list| && |m| == |next|
    requires forall k | 0 <= k < |list| && !(lo <= k < hi) && list[k].start < |next| :: m[list[k].start] == next[list[k].start]
    requires forall r, k | r in mid && 0 <= k < |list| && !(lo <= k < hi) :: r.start != list[k].start
    requires Seg(m, HeadOf(Starts(mid), if hi < |list| then list[hi].start else NULL), Starts(mid), if hi < |list| then list[hi].start else NULL)
    ensures
      var v := HeadOf(Starts(mid), if hi < |list| then list[hi].start else NULL);
      var result := Starts(Splice(list, lo, hi, mid));
      if lo == 0 then Linked(m, v, result)
      else list[lo - 1].start < |m| && Linked(m[list[lo - 1].start := v], first, result)
  {
    var s := Starts(list);
    StartsDistinct(list);
    StartsSplice(list, lo, hi, mid);
    assert HeadOf(s[hi..], NULL) == if hi < |list| then list[hi].start else NULL;
    forall n | n in s[..lo] + s[hi..] && n < |next| ensures m[n] == next[n] {
      var k := FindHead(list, lo, hi, n);
    }
    forall n | n in Starts(mid) ensures n !in s[..lo] {
      var r := RunOf(mid, n);
    }
    hide Seg, Linked, Splice, Canonical;
    Relinked(next, m, first, s, lo, hi, Starts(mid));
  }

  lemma {:induction false} RunOf(mid: seq<Run>, n: nat) returns (r: Run)
    requires n in Starts(mid)
    ensures r in mid && r.start == n
  {
    var k :| 0 <= k < |Starts(mid)| && Starts(mid)[k] == n;
    r := mid[k];
  }

  lemma {:induction false} FindHead(list: seq<Run>, lo: nat, hi: nat, n: nat) returns (k: nat)
    requires lo <= hi <= |list| && n in Starts(list)[..lo] + Starts(list)[hi..]
    ensures k < |list| && !(lo <= k < hi) && list[k].start == n
  {
    var s := Starts(list);
    if n in s[..lo] {
      var j :| 0 <= j < lo && s[..lo][j] == n;
      k := j;
    } else {
      var j :| 0 <= j < |s[hi..]| && s[hi..][j] == n;
      k := hi + j;
    }
  }

  lemma {:induction false} OneSeg(m: seq<int>, n: nat, end: int)
    requires n < |m| && m[n] == end
    ensures Seg(m, n, [n], end)
  {
    assert [n][1..] == [];
  }

  lemma {:induction false} StartsOne(r: Run)
    ensures Starts([r]) == [r.start] && Starts([]) == []
  {
  }

  /** The state of the links that SetLink leaves */
  ghost predicate LinkedAs(m: seq<int>, first: int, prev: int, v: int, ns: seq<nat>) {
    if prev == NULL then Linked(m, v, ns) else 0 <= prev < |m| && Linked(m[prev := v], first, ns)
  }

  function PrevOf(list: seq<Run>, i: nat): int
    requires i <= |list|
  {
    if i > 0 then list[i - 1].start else NULL
  }

  lemma {:induction false} CutLinks(next: seq<int>, first: int, list: seq<Run>, i: nat, n: nat)
    requires Canonical(list) && Linked(next, first, Starts(list)) && i < |list| && 0 < n < list[i].count && list[i].start + n < |next|
    ensures list[i].start < |next|
    ensures
      var c := list[i].start + n;
      LinkedAs(next[c := next[list[i].start]], first, PrevOf(list, i), c, Starts(Splice(list, i, i + 1, [Run(c, list[i].count - n)])))
  {
    var b, c := list[i].start, list[i].start + n;
    LinkAt(next, first, list, i);
    var m := next[c := next[b]];
    forall k | 0 <= k < |list| && k != i ensures list[k].start != c {
      assert k < i ==> list[k].End() < list[i].start;
      assert i < k ==> list[i].End() < list[k].start;
    }
    StartsOne(Run(c, list[i].count - n));
    OneSeg(m, c, next[b]);
    hide Seg, Linked, Canonical, Splice;
    SpliceLinks(next, m, first, list, i, i + 1, [Run(c, list[i].count - n)]);
  }

  lemma {:induction false} DropLinks(next: seq<int>, first: int, list: seq<Run>, i: nat)
    requires Canonical(list) && Linked(next, first, Starts(list)) && i < |list|
    ensures list[i].start < |next|
    ensures LinkedAs(next, first, PrevOf(list, i), next[list[i].start], Starts(Splice(list, i, i + 1, [])))
  {
    LinkAt(next, first, list, i);
    StartsOne(list[i]);
    hide Linked, Canonical, Splice;
    SpliceLinks(next, next, first, list, i, i + 1, []);
  }

  lemma {:induction false} ReplaceLinks(next: seq<int>, first: int, list: seq<Run>, i: nat, r: Run)
    requires Canonical(list) && Linked(next, first, Starts(list)) && i < |list| && r.start < |next|
    requires forall k | 0 <= k < |list| :: list[k].start != r.start
    ensures list[i].start < |next|
    ensures LinkedAs(next[r.start := next[list[i].start]], first, PrevOf(list, i), r.start, Starts(Splice(list, i, i + 1, [r])))
  {
    LinkAt(next, first, list, i);
    var m := next[r.start := next[list[i].start]];
    StartsOne(r);
    OneSeg(m, r.start, next[list[i].start]);
    hide Seg, Linked, Canonical, Splice;
    SpliceLinks(next, m, first, list, i, i + 1, [r]);
  }

  lemma {:induction false} InsertLinks(next: seq<int>, first: int, list: seq<Run>, i: nat, r: Run)
    requires Canonical(list) && Linked(next, first, Starts(list)) && i <= |list| && r.start < |next|
    requires forall k | 0 <= k < |list| :: list[k].start != r.start
    ensures
      var b := if i < |list| then list[i].start else NULL;
      LinkedAs(next[r.start := b], first, PrevOf(list, i), r.start, Starts(Splice(list, i, i, [r])))
  {
    var b := if i < |list| then list[i].start else NULL;
    var m := next[r.start := b];
    StartsOne(r);
    OneSeg(m, r.start, b);
    hide Seg, Linked, Canonical, Splice;
    SpliceLinks(next, m, first, list, i, i, [r]);
  }

  lemma {:induction false} MergeLinks(next: seq<int>, first: int, list: seq<Run>, i: nat, n: nat)
    requires Canonical(list) && Linked(next, first, Starts(list)) && i + 1 < |list|
    ensures list[i + 1].start < |next| && list[i].start < |next|
    ensures Linked(next[list[i].start := next[list[i + 1].start]], first, Starts(Splice(list, i, i + 2, [Run(list[i].start, n)])))
  {
    LinkAt(next, first, list, i);
    LinkAt(next, first, list, i + 1);
    StartsOne(list[i + 1]);
    SpliceLinks(next, next, first, list, i + 1, i + 2, []);
    MergedStarts(list, i, n);
  }

  lemma {:induction false} MergedStarts(list: seq<Run>, i: nat, n: nat)
    requires i + 1 < |list|
    ensures Starts(Splice(list, i, i + 2, [Run(list[i].start, n)])) == Starts(Splice(list, i + 1, i + 2, []))
  {
  }

  lemma {:induction false} SameLinks(next: seq<int>, first: int, list: seq<Run>, i: nat, r: Run)
    requires Linked(next, first, Starts(list)) && i < |list| && r.start == list[i].start
    ensures Linked(next, first, Starts(Splice(list, i, i + 1, [r])))
  {
    assert Starts(Splice(list, i, i + 1, [r])) == Starts(list);
  }

  lemma {:induction false} SpliceRuns(list: seq<Run>, lo: nat, hi: nat, mid: seq<Run>, r: Run)
    requires lo <= hi <= |list| && r in Splice(list, lo, hi, mid)
    ensures r in mid || exists k :: 0 <= k < |list| && !(lo <= k < hi) && list[k] == r
  {
    if r in list[..lo] {
      var k :| 0 <= k < lo && list[..lo][k] == r;
      assert list[k] == r;
    } else if r in list[hi..] {
      var k :| 0 <= k < |list[hi..]| && list[hi..][k] == r;
      assert list[hi + k] == r;
    }
  }

  /** The new run's length is written; no other head is. */
  lemma {:induction false} GrowCounts(count: seq<nat>, list: seq<Run>, lo: nat, hi: nat, x: Run)
    requires Canonical(list) && Counts(count, list) && lo <= hi <= |list| && x.End() <= |count| && x.start < |count|
    requires forall k | 0 <= k < |list| && !(lo <= k < hi) :: list[k].start != x.start
    ensures Counts(count[x.start := x.count], Splice(list, lo, hi, [x]))
  {
    var l := Splice(list, lo, hi, [x]);
    forall r | r in l ensures r.start < |count| && r.End() <= |count| && count[x.start := x.count][r.start] == r.count {
      SpliceRuns(list, lo, hi, [x], r);
      if r !in [x] {
        assert r in list;
      }
    }
  }

  lemma {:induction false} CutCounts(count: seq<nat>, list: seq<Run>, i: nat, n: nat)
    requires Canonical(list) && Counts(count, list) && i < |list| && 0 < n < list[i].count
    ensures list[i].start + n < |count|
    ensures
      var c := list[i].start + n;
      Counts(count[c := list[i].count - n], Splice(list, i, i + 1, [Run(c, list[i].count - n)]))
  {
    CountAt(count, list, i);
    forall k | 0 <= k < |list| && k != i ensures list[k].start != list[i].start + n {
      assert k < i ==> list[k].End() < list[i].start;
      assert i < k ==> list[i].End() < list[k].start;
    }
    GrowCounts(count, list, i, i + 1, Run(list[i].start + n, list[i].count - n));
  }

  lemma {:induction false} DropCounts(count: seq<nat>, list: seq<Run>, lo: nat, hi: nat)
    requires Counts(count, list) && lo <= hi <= |list|
    ensures Counts(count, Splice(list, lo, hi, []))
  {
    forall r | r in Splice(list, lo, hi, []) ensures r in list {
      SpliceRuns(list, lo, hi, [], r);
    }
  }
}
