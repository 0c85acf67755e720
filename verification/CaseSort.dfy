/** The case labels of a switch: an in-place quicksort with a stack of 32 entries, and the binary search
    and duplicate check that rely on its order. */
module CaseSort {
  import opened Arithmetic
  import opened Options

  /** Label number `caseIndex` of switch group number `blockIndex`, with its constant. */
  datatype CaseElement = CaseElement(blockIndex: nat, caseIndex: nat, value: int)

  predicate Less(a: CaseElement, b: CaseElement) {
    || a.value < b.value
    || (a.value == b.value && a.blockIndex < b.blockIndex)
    || (a.value == b.value && a.blockIndex == b.blockIndex && a.caseIndex < b.caseIndex)
  }

  predicate AtMost(a: CaseElement, b: CaseElement) {
    !Less(b, a)
  }

  /** Elements lo to hi, both included, are in order. */
  predicate Sorted(s: seq<CaseElement>, lo: nat, hi: nat)
    requires hi < |s|
  {
    forall p, q :: lo <= p < q <= hi ==> AtMost(s[p], s[q])
  }

  // ---- Cuts: places no element has to cross any more

  /** Among elements 1 to n, those before position k are at most those from k on. */
  ghost predicate Cut(s: seq<CaseElement>, n: nat, k: int)
    requires n < |s|
  {
    forall p, q :: 1 <= p < k <= q <= n ==> AtMost(s[p], s[q])
  }

  /** A section still to be sorted, both ends included; empty if hi == lo - 1. */
  datatype Section = Section(lo: int, hi: int)

  function Size(c: Section): int {
    c.hi - c.lo + 1
  }

  predicate Within(c: Section, n: nat) {
    1 <= c.lo <= c.hi + 1 <= n + 1
  }

  predicate Apart(c: Section, d: Section) {
    c.hi < d.lo || d.hi < c.lo
  }

  predicate Inside(k: int, c: Section) {
    c.lo < k <= c.hi
  }

  /** The sections of the work list are apart, no element has to leave its section, and whatever lies in
      no section is in place. */
  ghost predicate Pending(s: seq<CaseElement>, n: nat, work: seq<Section>)
    requires n < |s|
  {
    && (forall c :: c in work ==> Within(c, n) && Cut(s, n, c.lo) && Cut(s, n, c.hi + 1))
    && (forall i, j :: 0 <= i < j < |work| ==> Apart(work[i], work[j]))
    && (forall k :: 1 <= k <= n ==> Cut(s, n, k) || exists c :: c in work && Inside(k, c))
  }

  lemma {:induction false} PendingStart(s: seq<CaseElement>, n: nat)
    requires n < |s|
    ensures Pending(s, n, [Section(1, n)])
  {
    var c := Section(1, n);
    forall k | 1 <= k <= n ensures Cut(s, n, k) || exists c :: c in [Section(1, n)] && Inside(k, c) {
      assert c in [Section(1, n)] && (k == 1 || Inside(k, c));
    }
  }

  lemma {:induction false} PendingEnd(s: seq<CaseElement>, n: nat)
    requires n < |s| && Pending(s, n, [])
    ensures Sorted(s, 1, n)
  {
    forall p, q | 1 <= p < q <= n ensures AtMost(s[p], s[q]) {
      assert Cut(s, n, q);
    }
  }

  /** A section of at most one element is done. */
  lemma {:induction false} PendingDrop(s: seq<CaseElement>, n: nat, work: seq<Section>, c: Section)
    requires n < |s| && Pending(s, n, work + [c]) && Size(c) <= 1
    ensures Pending(s, n, work)
  {
    var all := work + [c];
    forall d | d in work ensures Within(d, n) && Cut(s, n, d.lo) && Cut(s, n, d.hi + 1) {
      assert d in all;
    }
    forall i, j | 0 <= i < j < |work| ensures Apart(work[i], work[j]) {
      assert all[i] == work[i] && all[j] == work[j];
    }
    forall k | 1 <= k <= n ensures Cut(s, n, k) || exists d :: d in work && Inside(k, d) {
      if d :| d in all && Inside(k, d) {
        assert d in work;
      }
    }
  }

  // ---- One partition

  /** Element m of section c has found its place. */
  ghost predicate Partitioned(s: seq<CaseElement>, t: seq<CaseElement>, c: Section, m: int)
    requires |s| == |t| && 0 <= c.lo <= m <= c.hi < |t|
  {
    && t[..c.lo] == s[..c.lo] && t[c.hi + 1..] == s[c.hi + 1..] && multiset(t) == multiset(s)
    && (forall k :: c.lo <= k < m ==> Less(t[k], t[m]))
    && (forall k :: m < k <= c.hi ==> AtMost(t[m], t[k]))
  }

  lemma {:induction false} SectionElements(s: seq<CaseElement>, t: seq<CaseElement>, lo: nat, hi: nat)
    requires |s| == |t| && lo <= hi < |s| && multiset(s) == multiset(t)
    requires t[..lo] == s[..lo] && t[hi + 1..] == s[hi + 1..]
    ensures multiset(t[lo..hi + 1]) == multiset(s[lo..hi + 1])
  {
    var a, b := s[..lo], s[hi + 1..];
    assert s == a + s[lo..hi + 1] + b && t == a + t[lo..hi + 1] + b;
    Cancel(multiset(a), multiset(s[lo..hi + 1]), multiset(t[lo..hi + 1]), multiset(b));
  }

  lemma {:induction false} Cancel<T>(a: multiset<T>, x: multiset<T>, y: multiset<T>, b: multiset<T>)
    requires a + x + b == a + y + b
    ensures x == y
  {
    forall e | e in x + y ensures x[e] == y[e] {
      assert (a + x + b)[e] == (a + y + b)[e];
    }
  }

  lemma {:induction false} FromSection(s: seq<CaseElement>, t: seq<CaseElement>, c: Section, m: int, k: int)
    returns (j: int)
    requires |s| == |t| && 0 <= c.lo <= m <= c.hi < |t| && Partitioned(s, t, c, m)
    requires c.lo <= k <= c.hi
    ensures c.lo <= j <= c.hi && s[j] == t[k]
  {
    SectionElements(s, t, c.lo, c.hi);
    assert t[c.lo..c.hi + 1][k - c.lo] == t[k];
    assert t[k] in multiset(t[c.lo..c.hi + 1]);
    assert t[k] in s[c.lo..c.hi + 1];
    j :| c.lo <= j <= c.hi && s[j] == t[k];
  }

  /** Reordering one section keeps the cuts outside it. */
  lemma {:induction false} CutStays(s: seq<CaseElement>, t: seq<CaseElement>, n: nat, c: Section, m: int, k: int)
    requires |s| == |t| && n < |t| && Within(c, n) && c.lo <= m <= c.hi && Partitioned(s, t, c, m)
    requires Cut(s, n, k) && !Inside(k, c)
    ensures Cut(t, n, k)
  {
    forall p, q | 1 <= p < k <= q <= n ensures AtMost(t[p], t[q]) {
      var p1, q1 := p, q;
      if c.lo <= p <= c.hi { p1 := FromSection(s, t, c, m, p); } else { OutsideSection(s, t, c, m, p); }
      if c.lo <= q <= c.hi { q1 := FromSection(s, t, c, m, q); } else { OutsideSection(s, t, c, m, q); }
      assert AtMost(s[p1], s[q1]);
    }
  }

  lemma {:induction false} OutsideSection(s: seq<CaseElement>, t: seq<CaseElement>, c: Section, m: int, k: int)
    requires |s| == |t| && 0 <= c.lo <= m <= c.hi < |t| && Partitioned(s, t, c, m)
    requires 0 <= k < |t| && !(c.lo <= k <= c.hi)
    ensures t[k] == s[k]
  {
    if k < c.lo {
      assert t[..c.lo][k] == s[..c.lo][k];
    } else {
      assert t[c.hi + 1..][k - c.hi - 1] == s[c.hi + 1..][k - c.hi - 1];
    }
  }

  /** The pivot makes two more cuts. */
  lemma {:induction false} PivotCuts(s: seq<CaseElement>, t: seq<CaseElement>, n: nat, c: Section, m: int)
    requires |s| == |t| && n < |t| && Within(c, n) && c.lo <= m <= c.hi && Partitioned(s, t, c, m)
    requires Cut(s, n, c.lo) && Cut(s, n, c.hi + 1)
    ensures Cut(t, n, m) && Cut(t, n, m + 1)
  {
    CutStays(s, t, n, c, m, c.lo);
    CutStays(s, t, n, c, m, c.hi + 1);
    forall p, q | 1 <= p < q <= n && (q == m || p == m || p < m < q) ensures AtMost(t[p], t[q]) {
      if p < c.lo {
      } else if c.hi < q {
      } else if p < m {
        assert Less(t[p], t[m]);
      }
    }
  }

  /** Partitioning section c leaves the parts on either side of the pivot to do. */
  lemma {:induction false} PendingSplit(s: seq<CaseElement>, t: seq<CaseElement>, n: nat, work: seq<Section>,
                                        c: Section, m: int, first: Section, second: Section)
    requires |s| == |t| && n < |t| && Within(c, n) && c.lo <= m <= c.hi && Partitioned(s, t, c, m)
    requires Pending(s, n, work + [c])
    requires var l, r := Section(c.lo, m - 1), Section(m + 1, c.hi);
             (first == l && second == r) || (first == r && second == l)
    ensures Pending(t, n, work + [first] + [second])
  {
    var all, next := work + [c], work + [first] + [second];
    assert c in all;
    PivotCuts(s, t, n, c, m);
    CutStays(s, t, n, c, m, c.lo);
    CutStays(s, t, n, c, m, c.hi + 1);
    forall i | 0 <= i < |work| ensures Apart(work[i], c) && work[i] in all {
      assert all[i] == work[i] && all[|work|] == c;
    }
    forall d | d in next ensures Within(d, n) && Cut(t, n, d.lo) && Cut(t, n, d.hi + 1) {
      if d in work {
        CutStays(s, t, n, c, m, d.lo);
        CutStays(s, t, n, c, m, d.hi + 1);
      }
    }
    forall i, j | 0 <= i < j < |next| ensures Apart(next[i], next[j]) {
      if j < |work| { assert all[i] == work[i] && all[j] == work[j]; }
    }
    forall k | 1 <= k <= n ensures Cut(t, n, k) || exists d :: d in next && Inside(k, d) {
      if Inside(k, c) {
        assert first in next && second in next;
        assert k == m || k == m + 1 || Inside(k, first) || Inside(k, second);
      } else if Cut(s, n, k) {
        CutStays(s, t, n, c, m, k);
      } else {
        var d :| d in all && Inside(k, d);
        assert d in next;
      }
    }
  }

  // ---- The work stack

  /** Work left in a list of sections; each partition and each finished section lowers it. */
  function Work(work: seq<Section>): int {
    if work == [] then 0 else Work(work[..|work| - 1]) + 2 * Size(work[|work| - 1]) + 1
  }

  /** The entry at depth k is at most n / 2^k long, as the larger part is stacked and the smaller one is
      worked on. */
  ghost predicate Halving(work: seq<Section>, n: nat) {
    forall k :: 0 <= k < |work| ==> Size(work[k]) * Pow2(k) <= n
  }

  /** A section of two or more elements lies at a depth below 30 of the stack of n < 2^31 cases. */
  lemma {:induction false} DepthBound(n: nat, size: int, k: nat)
    requires n < 0x8000_0000 && size * Pow2(k) <= n
    ensures size < 2 || k < 30
  {
    if k >= 30 {
      Pow2Values();
      Pow2Grows(30, k);
      hide Pow2;
      AtLeastTwice(size, Pow2(k));
    }
  }

  lemma {:induction false} AtLeastTwice(size: int, p: nat)
    ensures size >= 2 ==> 2 * p <= size * p
  {
  }

  // ---- The loop of a partition: element `lower` is a hole for the pivot

  ghost predicate Splitting(s: seq<CaseElement>, t: seq<CaseElement>, pivot: CaseElement, c: Section, i: int, j: int) {
    && |s| == |t| && 0 <= c.lo <= i < j <= c.hi + 1 <= |t|
    && t[..c.lo] == s[..c.lo] && t[c.hi + 1..] == s[c.hi + 1..]
    && multiset(t[c.lo := pivot]) == multiset(s) && Split(t, pivot, c.lo, i, j)
  }

  /** Past the hole, elements to i are below the pivot, and from there to j they are not. */
  ghost predicate Split(t: seq<CaseElement>, pivot: CaseElement, lo: int, i: int, j: int) {
    && 0 <= lo <= i < j <= |t|
    && (forall k :: lo < k <= i ==> Less(t[k], pivot))
    && (forall k :: i < k < j ==> AtMost(pivot, t[k]))
  }

  function Swapped<T>(s: seq<T>, i: nat, j: nat): seq<T>
    requires i < |s| && j < |s|
  {
    s[i := s[j]][j := s[i]]
  }

  lemma {:induction false} SwappedKeeps<T>(s: seq<T>, i: nat, j: nat)
    requires i < |s| && j < |s|
    ensures multiset(Swapped(s, i, j)) == multiset(s)
  {
  }

  lemma {:induction false} SplittingStarts(s: seq<CaseElement>, c: Section, m: int)
    requires 0 <= c.lo < c.hi < |s| && c.lo <= m <= c.hi
    ensures Splitting(s, s[m := s[c.lo]], s[m], c, c.lo, c.lo + 1)
  {
    SwappedKeeps(s, m, c.lo);
    assert s[m := s[c.lo]][c.lo := s[m]] == Swapped(s, m, c.lo);
  }

  lemma {:induction false} SplittingRange(s: seq<CaseElement>, t: seq<CaseElement>, pivot: CaseElement, c: Section,
                                          i: int, j: int)
    requires Splitting(s, t, pivot, c, i, j)
    ensures |s| == |t| && 0 <= c.lo <= i < j <= c.hi + 1 <= |t|
  {
  }

  lemma {:induction false} SplittingSwap(s: seq<CaseElement>, t: seq<CaseElement>, pivot: CaseElement, c: Section,
                                         i: int, j: int)
    requires Splitting(s, t, pivot, c, i, j) && j <= c.hi && Less(t[j], pivot)
    ensures Splitting(s, Swapped(t, i + 1, j), pivot, c, i + 1, j + 1)
  {
    hide Swapped, Split, Less;
    HoleSwapped(t, c.lo, pivot, i + 1, j);
    SwappedOutside(t, c.lo, c.hi + 1, i + 1, j);
    SplitSwap(t, pivot, c.lo, i, j);
  }

  lemma {:induction false} SplitSwap(t: seq<CaseElement>, pivot: CaseElement, lo: int, i: int, j: int)
    requires Split(t, pivot, lo, i, j) && j < |t| && Less(t[j], pivot)
    ensures Split(Swapped(t, i + 1, j), pivot, lo, i + 1, j + 1)
  {
  }

  lemma {:induction false} HoleSwapped<T>(t: seq<T>, hole: nat, x: T, i: nat, j: nat)
    requires hole < i < |t| && hole < j < |t|
    ensures multiset(Swapped(t, i, j)[hole := x]) == multiset(t[hole := x])
  {
    SwappedKeeps(t[hole := x], i, j);
    assert Swapped(t, i, j)[hole := x] == Swapped(t[hole := x], i, j);
  }

  lemma {:induction false} SwappedOutside<T>(t: seq<T>, lo: nat, hi: nat, i: nat, j: nat)
    requires lo <= i < hi <= |t| && lo <= j < hi
    ensures |Swapped(t, i, j)| == |t|
    ensures Swapped(t, i, j)[..lo] == t[..lo] && Swapped(t, i, j)[hi..] == t[hi..]
  {
  }

  lemma {:induction false} SplittingSkip(s: seq<CaseElement>, t: seq<CaseElement>, pivot: CaseElement, c: Section,
                                         i: int, j: int)
    requires Splitting(s, t, pivot, c, i, j) && j <= c.hi && !Less(t[j], pivot)
    ensures Splitting(s, t, pivot, c, i, j + 1)
  {
  }

  lemma {:induction false} SplittingPlace(s: seq<CaseElement>, t: seq<CaseElement>, pivot: CaseElement, c: Section,
                                          i: int)
    requires Splitting(s, t, pivot, c, i, c.hi + 1)
    ensures 0 <= c.lo <= i <= c.hi < |t|
    ensures t[c.lo := pivot][..c.lo] == t[..c.lo] && t[c.lo := pivot][c.hi + 1..] == t[c.hi + 1..]
  {
  }

  lemma {:induction false} SplitEnds(t: seq<CaseElement>, pivot: CaseElement, lo: int, i: int, j: int)
    requires Split(t, pivot, lo, i, j)
    ensures var u := t[lo := t[i]][i := pivot];
            && (forall k :: lo <= k < i ==> Less(u[k], u[i])) && (forall k :: i < k < j ==> AtMost(u[i], u[k]))
  {
    hide Less;
  }

  lemma {:induction false} SwappedIs(t: seq<CaseElement>, pivot: CaseElement, lo: nat, i: nat)
    requires lo <= i < |t|
    ensures t[lo := t[i]][i := pivot] == Swapped(t[lo := pivot], lo, i)
  {
  }

  lemma {:induction false} SplittingEnds(s: seq<CaseElement>, t: seq<CaseElement>, pivot: CaseElement, c: Section,
                                         i: int)
    requires Splitting(s, t, pivot, c, i, c.hi + 1)
    ensures Partitioned(s, t[c.lo := t[i]][i := pivot], c, i)
  {
    hide Split, Swapped, Less, AtMost;
    var hole := t[c.lo := pivot];
    SplittingPlace(s, t, pivot, c, i);
    SwappedKeeps(hole, c.lo, i);
    SwappedOutside(hole, c.lo, c.hi + 1, c.lo, i);
    SplitEnds(t, pivot, c.lo, i, c.hi + 1);
    SwappedIs(t, pivot, c.lo, i);
  }

  /** Elements 1 to n have been reordered and nothing else has changed. */
  ghost predicate Reordered(s: seq<CaseElement>, t: seq<CaseElement>, n: nat) {
    n < |s| == |t| && multiset(t) == multiset(s) && t[0] == s[0] && t[n + 1..] == s[n + 1..]
  }

  lemma {:induction false} StillReordered(s: seq<CaseElement>, t: seq<CaseElement>, u: seq<CaseElement>, n: nat,
                                          c: Section, m: int)
    requires Reordered(s, t, n) && |t| == |u| && 1 <= c.lo <= m <= c.hi <= n && Partitioned(t, u, c, m)
    ensures Reordered(s, u, n)
  {
    assert u[..c.lo][0] == t[..c.lo][0];
    assert u[n + 1..] == u[c.hi + 1..][n - c.hi..] && t[n + 1..] == t[c.hi + 1..][n - c.hi..];
  }

  /** The two arrays of the stack hold the work list. */
  ghost predicate Stacked(los: seq<int>, his: seq<int>, top: int, work: seq<Section>) {
    |work| == top + 1 && top < |los| == |his| && forall k :: 0 <= k <= top ==> work[k] == Section(los[k], his[k])
  }

  lemma {:induction false} PendingLast(s: seq<CaseElement>, n: nat, work: seq<Section>, c: Section)
    requires n < |s| && Pending(s, n, work + [c])
    ensures Within(c, n)
  {
    assert c in work + [c];
  }

  lemma {:induction false} HalvingStart(n: nat)
    ensures Halving([Section(1, n)], n)
  {
  }

  lemma {:induction false} HalvingDepth(work: seq<Section>, c: Section, n: nat)
    requires n < 0x8000_0000 && Halving(work + [c], n) && Size(c) >= 2
    ensures |work| < 30
  {
    assert (work + [c])[|work|] == c;
    DepthBound(n, Size(c), |work|);
  }

  lemma {:induction false} HalvingDrop(work: seq<Section>, c: Section, n: nat)
    requires Halving(work + [c], n)
    ensures Halving(work, n)
  {
    forall k | 0 <= k < |work| ensures Size(work[k]) * Pow2(k) <= n {
      assert (work + [c])[k] == work[k];
    }
  }

  lemma {:induction false} WorkDrop(s: seq<CaseElement>, n: nat, work: seq<Section>, c: Section)
    requires n < |s| && Size(c) >= 0 && Pending(s, n, work)
    ensures 0 <= Work(work) < Work(work + [c])
  {
    assert (work + [c])[..|work|] == work;
    WorkPositive(s, n, work);
  }

  lemma {:induction false} WorkPositive(s: seq<CaseElement>, n: nat, work: seq<Section>)
    requires n < |s| && Pending(s, n, work)
    ensures Work(work) >= 0
  {
    assert forall c :: c in work ==> Size(c) >= 0;
    WorkOfSizes(work);
  }

  lemma {:induction false} WorkOfSizes(work: seq<Section>)
    requires forall c :: c in work ==> Size(c) >= 0
    ensures Work(work) >= 0
  {
    if work != [] { WorkOfSizes(work[..|work| - 1]); }
  }

  /** Stacking the larger part and going on with the smaller one. */
  lemma {:induction false} HalvingSplit(work: seq<Section>, c: Section, larger: Section, smaller: Section, n: nat)
    requires Halving(work + [c], n) && Size(larger) + Size(smaller) == Size(c) - 1 && 0 <= Size(smaller) <= Size(larger)
    ensures Halving(work + [larger] + [smaller], n)
  {
    var next := work + [larger] + [smaller];
    assert (work + [c])[|work|] == c && Pow2(|work| + 1) == 2 * Pow2(|work|);
    HalfSize(Size(c), Size(larger), Size(smaller), Pow2(|work|));
    forall k | 0 <= k < |next| ensures Size(next[k]) * Pow2(k) <= n {
      if k < |work| { assert (work + [c])[k] == work[k]; }
    }
  }

  lemma {:induction false} WorkSplit(work: seq<Section>, c: Section, larger: Section, smaller: Section)
    requires Size(larger) + Size(smaller) == Size(c) - 1
    ensures Work(work + [larger] + [smaller]) < Work(work + [c])
  {
    var next := work + [larger] + [smaller];
    assert next[..|work| + 1] == work + [larger] && (work + [larger])[..|work|] == work
           && (work + [c])[..|work|] == work;
  }

  lemma {:induction false} SplitStep(s: seq<CaseElement>, t: seq<CaseElement>, n: nat, work: seq<Section>, c: Section,
                                     m: int, larger: Section, smaller: Section)
    requires |s| == |t| && n < |t| && Within(c, n) && c.lo <= m <= c.hi && Partitioned(s, t, c, m)
    requires Pending(s, n, work + [c]) && Halving(work + [c], n)
    requires var l, r := Section(c.lo, m - 1), Section(m + 1, c.hi);
             (larger == l && smaller == r) || (larger == r && smaller == l)
    requires Size(smaller) <= Size(larger)
    ensures Pending(t, n, work + [larger] + [smaller]) && Halving(work + [larger] + [smaller], n)
    ensures Work(work + [larger] + [smaller]) < Work(work + [c])
  {
    hide Pending, Partitioned, Halving;
    PendingSplit(s, t, n, work, c, m, larger, smaller);
    HalvingSplit(work, c, larger, smaller, n);
    WorkSplit(work, c, larger, smaller);
  }

  lemma {:induction false} HalfSize(size: int, larger: int, smaller: int, p: nat)
    requires size == larger + smaller + 1 && 0 <= smaller <= larger
    ensures larger * p <= size * p && smaller * (2 * p) <= size * p
  {
  }

  /** The state of the sort of s, now t: the sections on the stack, and the section taken from it, if any,
      are what is left to do. */
  ghost predicate Progress(s: seq<CaseElement>, t: seq<CaseElement>, n: nat, los: seq<int>, his: seq<int>, top: int,
                           work: seq<Section>, taken: seq<Section>) {
    && n < 0x8000_0000 && Reordered(s, t, n) && Stacked(los, his, top, work)
    && Pending(t, n, work + taken) && Halving(work + taken, n)
  }

  lemma {:induction false} ProgressStart(s: seq<CaseElement>, n: nat, los: seq<int>, his: seq<int>)
    requires n < 0x8000_0000 && n < |s| && 0 < |los| == |his| && los[0] == 1 && his[0] == n
    ensures Progress(s, s, n, los, his, 0, [Section(1, n)], [])
  {
    hide Pending, Halving;
    assert [Section(1, n)] + [] == [Section(1, n)];
    PendingStart(s, n);
    HalvingStart(n);
  }

  lemma {:induction false} ProgressPop(s: seq<CaseElement>, t: seq<CaseElement>, n: nat, los: seq<int>, his: seq<int>,
                                       top: nat, work: seq<Section>)
    requires top < |los| == |his| && Progress(s, t, n, los, his, top, work, [])
    ensures |work| == top + 1 && work[top] == Section(los[top], his[top])
    ensures work[..top] + [work[top]] == work
    ensures Progress(s, t, n, los, his, top - 1, work[..top], [work[top]])
  {
    hide Pending, Halving;
    assert work[..top] + [work[top]] == work == work + [];
  }

  lemma {:induction false} ProgressRange(s: seq<CaseElement>, t: seq<CaseElement>, n: nat, los: seq<int>, his: seq<int>,
                                         top: int, work: seq<Section>, c: Section)
    requires Progress(s, t, n, los, his, top, work, [c])
    ensures Within(c, n) && 1 <= c.lo && c.hi <= n && (Size(c) < 2 || top < 29)
  {
    hide Halving;
    assert c in work + [c];
    if Size(c) >= 2 { HalvingDepth(work, c, n); }
  }

  lemma {:induction false} ProgressSplit(s: seq<CaseElement>, t: seq<CaseElement>, u: seq<CaseElement>, n: nat,
                                         los: seq<int>, his: seq<int>, top: nat, work: seq<Section>, c: Section, m: int,
                                         larger: Section, smaller: Section)
    requires |t| == |u| && n < |t| && Within(c, n) && c.lo <= m <= c.hi && Partitioned(t, u, c, m)
    requires top < |los| == |his| && Progress(s, t, n, los, his, top - 1, work, [c])
    requires var l, r := Section(c.lo, m - 1), Section(m + 1, c.hi);
             (larger == l && smaller == r) || (larger == r && smaller == l)
    requires Size(smaller) <= Size(larger)
    ensures Progress(s, u, n, los[top := larger.lo], his[top := larger.hi], top, work + [larger], [smaller])
    ensures Work(work + [larger] + [smaller]) < Work(work + [c])
  {
    hide Pending, Halving, Partitioned, Reordered, Work;
    SplitStep(t, u, n, work, c, m, larger, smaller);
    StillReordered(s, t, u, n, c, m);
  }

  lemma {:induction false} ProgressDrop(s: seq<CaseElement>, t: seq<CaseElement>, n: nat, los: seq<int>, his: seq<int>,
                                        top: int, work: seq<Section>, c: Section)
    requires Progress(s, t, n, los, his, top, work, [c]) && Size(c) <= 1
    ensures Progress(s, t, n, los, his, top, work, [])
    ensures 0 <= Work(work) < Work(work + [c])
  {
    hide Pending, Halving, Work;
    assert work + [] == work;
    PendingLast(t, n, work, c);
    PendingDrop(t, n, work, c);
    HalvingDrop(work, c, n);
    WorkDrop(t, n, work, c);
  }

  lemma {:induction false} ProgressEnd(s: seq<CaseElement>, t: seq<CaseElement>, n: nat, los: seq<int>, his: seq<int>,
                                       work: seq<Section>)
    requires Progress(s, t, n, los, his, -1, work, [])
    ensures n < |t| && Sorted(t, 1, n) && Reordered(s, t, n)
  {
    assert work + [] == [];
    PendingEnd(t, n);
  }

  // ---- Look-up

  predicate HasValue(s: seq<CaseElement>, value: int) {
    exists c :: c in s && c.value == value
  }

  predicate DistinctValues(s: seq<CaseElement>) {
    forall i, j :: 0 <= i < j < |s| ==> s[i].value != s[j].value
  }

  /** The first case with this value, or the default. */
  function Scan(s: seq<CaseElement>, value: int, default_: Option<CaseElement>): Option<CaseElement> {
    if s == [] then default_
    else if s[0].value == value then Some(s[0])
    else Scan(s[1..], value, default_)
  }

  lemma {:induction false} ScanFinds(s: seq<CaseElement>, k: nat, default_: Option<CaseElement>)
    requires k < |s|
    ensures DistinctValues(s) ==> Scan(s, s[k].value, default_) == Some(s[k])
    decreases k
  {
    if k > 0 {
      ScanFinds(s[1..], k - 1, default_);
    }
  }

  lemma {:induction false} ScanMisses(s: seq<CaseElement>, value: int, default_: Option<CaseElement>)
    requires !HasValue(s, value)
    ensures Scan(s, value, default_) == default_
  {
    if s != [] {
      assert s[0] in s;
      ScanMisses(s[1..], value, default_);
    }
  }

  // ---- The sections the sort visits

  /** Cases after a partition, and where the pivot went. */
  datatype Parted = Parted(cases: seq<CaseElement>, at: int)

  /** The loop of a partition, from place j on. */
  function Shift(t: seq<CaseElement>, pivot: CaseElement, i: int, j: int, hi: int): (r: Parted)
    requires 0 <= i < j <= hi + 1 <= |t|
    ensures |r.cases| == |t| && i <= r.at <= hi
    decreases hi - j
  {
    if j > hi then Parted(t, i)
    else if Less(t[j], pivot) then Shift(Swapped(t, i + 1, j), pivot, i + 1, j + 1, hi)
    else Shift(t, pivot, i, j + 1, hi)
  }

  function Middle(c: Section): int {
    (c.lo + c.hi) / 2
  }

  function PartitionOf(s: seq<CaseElement>, c: Section): (r: Parted)
    requires 0 <= c.lo < c.hi < |s|
    ensures |r.cases| == |s| && c.lo <= r.at <= c.hi
  {
    var pivot := s[Middle(c)];
    var p := Shift(s[Middle(c) := s[c.lo]], pivot, c.lo, c.lo + 1, c.hi);
    Parted(p.cases[c.lo := p.cases[p.at]][p.at := pivot], p.at)
  }

  /** The two parts, the larger one first. */
  function Halves(c: Section, m: int): seq<Section> {
    var left, right := Section(c.lo, m - 1), Section(m + 1, c.hi);
    if m - c.lo < c.hi - m then [right, left] else [left, right]
  }

  function Weight(work: seq<Section>): nat {
    if work == [] then 0 else
      var c := work[|work| - 1];
      Weight(work[..|work| - 1]) + if c.lo < c.hi then 2 * Size(c) + 1 else 1
  }

  lemma {:induction false} WeightMore(work: seq<Section>, c: Section)
    ensures Weight(work + [c]) == Weight(work) + if c.lo < c.hi then 2 * Size(c) + 1 else 1
  {
    assert (work + [c])[..|work|] == work;
  }

  lemma {:induction false} WeightHalves(work: seq<Section>, c: Section, m: int)
    requires c.lo < c.hi && c.lo <= m <= c.hi
    ensures Weight(work + Halves(c, m)) < Weight(work + [c])
  {
    var h := Halves(c, m);
    assert work + h == work + [h[0]] + [h[1]];
    WeightMore(work, h[0]);
    WeightMore(work + [h[0]], h[1]);
    WeightMore(work, c);
  }

  /** The sections partitioned from here on, in order, when the last one of `work` is taken next. */
  function Trace(s: seq<CaseElement>, work: seq<Section>): seq<Section>
    decreases Weight(work)
  {
    if work == [] then [] else
      var c, rest := work[|work| - 1], work[..|work| - 1];
      if 0 <= c.lo < c.hi < |s| then
        var p := PartitionOf(s, c);
        WeightHalves(rest, c, p.at);
        assert rest + [c] == work;
        [c] + Trace(p.cases, rest + Halves(c, p.at))
      else Trace(s, rest)
  }

  lemma {:induction false} TraceStep(s: seq<CaseElement>, work: seq<Section>, c: Section)
    ensures Trace(s, work + [c]) ==
            if 0 <= c.lo < c.hi < |s|
            then [c] + Trace(PartitionOf(s, c).cases, work + Halves(c, PartitionOf(s, c).at)) else Trace(s, work)
  {
    assert (work + [c])[..|work|] == work;
  }

  // ---- The sum of the ends of a section

  /** The most cases for which `lower + upper` is an int whatever the cases. */
  const MAX_CASES: nat := 0x4000_0000

  /** No midpoint overflows while cases 1 to n are sorted. */
  ghost predicate SumsAreInts(s: seq<CaseElement>, n: nat) {
    forall c :: c in Trace(s, [Section(1, n)]) ==> c.lo + c.hi < 0x8000_0000
  }

  ghost predicate DistinctCases(s: seq<CaseElement>) {
    forall i, j :: 0 <= i < j < |s| ==> s[i] != s[j]
  }

  lemma {:induction false} TraceWithin(s: seq<CaseElement>, work: seq<Section>, n: nat)
    requires forall c :: c in work ==> 1 <= c.lo && c.hi <= n
    ensures forall c :: c in Trace(s, work) ==> 1 <= c.lo < c.hi <= n
    decreases Weight(work)
  {
    if work != [] {
      var c, rest := work[|work| - 1], work[..|work| - 1];
      assert rest + [c] == work;
      TraceStep(s, rest, c);
      WeightMore(rest, c);
      if 0 <= c.lo < c.hi < |s| {
        var p := PartitionOf(s, c);
        WeightHalves(rest, c, p.at);
        TraceWithin(p.cases, rest + Halves(c, p.at), n);
      } else {
        TraceWithin(s, rest, n);
      }
    }
  }

  /** Up to 2^30 cases can be sorted whatever they are. */
  lemma {:induction false} SmallSums(s: seq<CaseElement>, n: nat)
    requires n <= MAX_CASES
    ensures SumsAreInts(s, n)
  {
    TraceWithin(s, [Section(1, n)], n);
  }

  lemma {:induction false} NothingLeft(s: seq<CaseElement>, t: seq<CaseElement>, n: nat, los: seq<int>, his: seq<int>,
                                       work: seq<Section>)
    requires Progress(s, t, n, los, his, -1, work, [])
    ensures work == [] && Trace(t, work) == []
  {
  }

  ghost predicate Ascending(s: seq<CaseElement>) {
    forall p, q :: 0 <= p < q < |s| ==> Less(s[p], s[q])
  }

  /** The loop over a section that is in order moves nothing. */
  lemma {:induction false} AscendingShift(s: seq<CaseElement>, c: Section, j: int)
    requires Ascending(s) && 0 <= c.lo < c.hi < |s| && c.lo < j <= c.hi + 1
    ensures var m := Middle(c);
            Shift(s[m := s[c.lo]], s[m], if j - 1 < m then j - 1 else m, j, c.hi) == Parted(s[m := s[c.lo]], m)
    decreases c.hi - j
  {
    var m := Middle(c);
    var t := s[m := s[c.lo]];
    if j <= c.hi {
      AscendingShift(s, c, j + 1);
      if j <= m {
        assert Less(t[j], s[m]) && Swapped(t, j, j) == t;
      } else {
        assert Less(s[m], t[j]);
      }
    }
  }

  lemma {:induction false} AscendingPartition(s: seq<CaseElement>, c: Section)
    requires Ascending(s) && 0 <= c.lo < c.hi < |s|
    ensures PartitionOf(s, c) == Parted(s, Middle(c))
  {
    AscendingShift(s, c, c.lo + 1);
    var m := Middle(c);
    assert s[m := s[c.lo]][c.lo := s[m := s[c.lo]][m]][m := s[m]] == s;
  }

  /** Cases in order: of a section that ends with case n, the right part is visited too, down to the last two
      or three cases. */
  lemma {:induction false} LastVisited(s: seq<CaseElement>, work: seq<Section>, c: Section, n: nat) returns (d: Section)
    requires Ascending(s) && n < |s| && c in work && 0 <= c.lo < c.hi == n
    ensures d in Trace(s, work) && n - 2 <= d.lo < d.hi == n
    decreases Weight(work)
  {
    hide Trace, PartitionOf, Ascending, Weight;
    var e, rest := work[|work| - 1], work[..|work| - 1];
    assert rest + [e] == work;
    TraceStep(s, rest, e);
    WeightMore(rest, e);
    if e == c && n - 2 <= c.lo {
      d := c;
    } else if 0 <= e.lo < e.hi < |s| {
      AscendingPartition(s, e);
      WeightHalves(rest, e, Middle(e));
      var next := rest + Halves(e, Middle(e));
      var right := Section(Middle(e) + 1, e.hi);
      assert right in Halves(e, Middle(e));
      d := LastVisited(s, next, if e == c then right else c, n);
    } else {
      d := LastVisited(s, rest, c, n);
    }
  }

  function InOrderCases(n: nat): seq<CaseElement> {
    seq(n + 1, i requires 0 <= i <= n => CaseElement(0, i, i))
  }

  /** In every sort of n different cases all sums of the ends of a section are ints exactly if n is at most
      2^30: with more, cases that are in order already lead to a section of the last two or three. */
  lemma {:induction false} MidpointExact(n: nat)
    ensures (forall s :: |s| == n + 1 && DistinctCases(s) ==> SumsAreInts(s, n)) <==> n <= MAX_CASES
  {
    if n <= MAX_CASES {
      forall s | |s| == n + 1 && DistinctCases(s) ensures SumsAreInts(s, n) {
        SmallSums(s, n);
      }
    } else {
      var s, c := InOrderCases(n), Section(1, n);
      assert DistinctCases(s);
      var d := LastVisited(s, [c], c, n);
      assert d.lo + d.hi >= 0x8000_0000;
    }
  }

  class Switch {
    /** Element 0 is the slot of the default label and not used here; elements 1 to numCases are the case
        labels. */
    var cases: array<CaseElement>
    var numCases: nat
    var defaultCase: Option<CaseElement>

    ghost predicate Valid()
      reads this
    {
      numCases < cases.Length
    }

    /** Room for `estimate` labels besides the default. */
    constructor (estimate: nat)
      ensures Valid() && fresh(cases) && cases.Length == estimate + 1 && numCases == 0 && defaultCase == None
    {
      cases := new CaseElement[estimate + 1];
      numCases, defaultCase := 0, None;
    }

    method AddCase(c: CaseElement)
      requires Valid() && numCases + 1 < cases.Length
      modifies this`numCases, cases
      ensures Valid() && numCases == old(numCases) + 1
      ensures cases[1..numCases + 1] == old(cases[1..numCases + 1]) + [c]
    {
      numCases := numCases + 1;
      cases[numCases] := c;
    }

    /** The middle element as pivot; its old place is filled from `lower`, which is the hole until the
        pivot drops into its final place. */
    method Partition(lower: int, upper: int) returns (i: int)
      requires Valid() && 1 <= lower < upper <= numCases && lower + upper < 0x8000_0000
      modifies cases
      ensures lower <= i <= upper && Partitioned(old(cases[..]), cases[..], Section(lower, upper), i)
      ensures PartitionOf(old(cases[..]), Section(lower, upper)) == Parted(cases[..], i)
    {
      hide Splitting, Partitioned;
      ghost var s, c := cases[..], Section(lower, upper);
      i := (lower + upper) / 2;
      SplittingStarts(s, c, i);
      SplittingRange(s, s[i := s[lower]], s[i], c, lower, lower + 1);
      var pivot := cases[i];
      cases[i] := cases[lower];
      ghost var p := Shift(cases[..], pivot, lower, lower + 1, upper);
      i := lower;
      for j := lower + 1 to upper + 1
        invariant lower <= i < j && Splitting(s, cases[..], pivot, c, i, j)
        invariant Shift(cases[..], pivot, i, j, upper) == p
      {
        ghost var t := cases[..];
        if Less(cases[j], pivot) {
          SplittingSwap(s, t, pivot, c, i, j);
          i := i + 1;
          var temp := cases[i];
          cases[i] := cases[j];
          cases[j] := temp;
          assert cases[..] == Swapped(t, i, j);
        } else {
          SplittingSkip(s, t, pivot, c, i, j);
        }
      }
      SplittingEnds(s, cases[..], pivot, c, i);
      cases[lower] := cases[i];
      cases[i] := pivot;
    }

    /** Partitions a section, stacks the larger part and returns the smaller one. */
    method Divide(lostack: array<int>, histack: array<int>, top: int, lower: int, upper: int, ghost s: seq<CaseElement>,
                  ghost work: seq<Section>)
      returns (newTop: int, lo: int, hi: int, ghost rest: seq<Section>)
      requires Valid() && lower < upper && lostack != histack && lostack.Length == histack.Length == 32
      requires forall d :: d in Trace(cases[..], work + [Section(lower, upper)]) ==> d.lo + d.hi < 0x8000_0000
      requires -1 <= top < 31
      requires Progress(s, cases[..], numCases, lostack[..], histack[..], top, work, [Section(lower, upper)])
      modifies cases, lostack, histack
      ensures newTop == top + 1 && newTop < 31 && lo >= lower && hi <= upper && hi - lo < upper - lower
      ensures Progress(s, cases[..], numCases, lostack[..], histack[..], newTop, rest, [Section(lo, hi)])
      ensures Work(rest + [Section(lo, hi)]) < Work(work + [Section(lower, upper)])
      ensures Trace(old(cases[..]), work + [Section(lower, upper)]) ==
              [Section(lower, upper)] + Trace(cases[..], rest + [Section(lo, hi)])
    {
      hide Progress, Work, Partitioned, Sorted, Reordered, Trace, PartitionOf;
      ghost var c, t, los, his := Section(lower, upper), cases[..], lostack[..], histack[..];
      ProgressRange(s, t, numCases, los, his, top, work, c);
      TraceStep(t, work, c);
      assert c in Trace(t, work + [c]);
      var i := Partition(lower, upper);
      ghost var left, right := Section(lower, i - 1), Section(i + 1, upper);
      newTop := top + 1;
      if i - lower < upper - i {
        ProgressSplit(s, t, cases[..], numCases, los, his, newTop, work, c, i, right, left);
        rest := work + [right];
        assert rest + [left] == work + Halves(c, i);
        lostack[newTop] := i + 1;
        histack[newTop] := upper;
        lo, hi := lower, i - 1;
      } else {
        ProgressSplit(s, t, cases[..], numCases, los, his, newTop, work, c, i, left, right);
        rest := work + [left];
        assert rest + [right] == work + Halves(c, i);
        histack[newTop] := i - 1;
        lostack[newTop] := lower;
        lo, hi := i + 1, upper;
      }
    }

    /** Sorts by value, then by place in the source; 32 stack entries are always enough. The default label's
        slot is left alone. The sections partitioned are those of the trace. */
    method SortCases() returns (ghost visited: seq<Section>)
      requires Valid() && numCases < 0x8000_0000 && SumsAreInts(cases[..], numCases)
      modifies cases
      ensures Sorted(cases[..], 1, numCases) && Reordered(old(cases[..]), cases[..], numCases)
      ensures visited == Trace(old(cases[..]), [Section(1, numCases)])
    {
      hide Progress, Work, Partitioned, Sorted, Reordered, Within, Trace;
      ghost var s := cases[..];
      var lostack, histack := new int[32], new int[32];
      var top := 0;
      lostack[top], histack[top] := 1, numCases;
      ghost var work := [Section(1, numCases)];
      ghost var all := Trace(s, work);
      visited := [];
      ProgressStart(s, numCases, lostack[..], histack[..]);
      while top >= 0
        invariant -1 <= top < 32 && Progress(s, cases[..], numCases, lostack[..], histack[..], top, work, [])
        invariant visited + Trace(cases[..], work) == all
        decreases Work(work)
      {
        var lower, upper := lostack[top], histack[top];
        ProgressPop(s, cases[..], numCases, lostack[..], histack[..], top, work);
        ghost var before := work;
        top := top - 1;
        work := work[..|work| - 1];
        while upper > lower
          invariant -1 <= top < 31
          invariant Progress(s, cases[..], numCases, lostack[..], histack[..], top, work, [Section(lower, upper)])
          invariant visited + Trace(cases[..], work + [Section(lower, upper)]) == all
          invariant Work(work + [Section(lower, upper)]) <= Work(before)
          decreases upper - lower
        {
          ghost var c := Section(lower, upper);
          top, lower, upper, work := Divide(lostack, histack, top, lower, upper, s, work);
          visited := visited + [c];
        }
        ProgressDrop(s, cases[..], numCases, lostack[..], histack[..], top, work, Section(lower, upper));
        TraceStep(cases[..], work, Section(lower, upper));
      }
      ProgressEnd(s, cases[..], numCases, lostack[..], histack[..], work);
      NothingLeft(s, cases[..], numCases, lostack[..], histack[..], work);
    }

    /** The case for a constant: the result of a linear scan over the cases, the default slot if there is
        none. The unsigned indices never pass 0 or the end. */
    method CaseForValue(value: int) returns (found: Option<CaseElement>)
      requires Valid() && numCases < 0x8000_0000 && Sorted(cases[..], 1, numCases)
      ensures if HasValue(cases[1..numCases + 1], value)
              then found.Some? && found.value in cases[1..numCases + 1] && found.value.value == value
              else found == defaultCase
      ensures DistinctValues(cases[1..numCases + 1]) ==> found == Scan(cases[1..numCases + 1], value, defaultCase)
    {
      ghost var s := cases[1..numCases + 1];
      var lower, upper := 1, numCases;
      while lower <= upper
        invariant 1 <= lower <= upper + 1 <= numCases + 1
        invariant forall k :: 1 <= k < lower ==> cases[k].value < value
        invariant forall k :: upper < k <= numCases ==> value < cases[k].value
        decreases upper - lower
      {
        assert lower + upper < 0x1_0000_0000;
        var mid := (lower + upper) / 2;
        var elt := cases[mid];
        if elt.value == value {
          assert s[mid - 1] == elt;
          ScanFinds(s, mid - 1, defaultCase);
          return Some(elt);
        }
        if elt.value > value {
          upper := mid - 1;
        } else {
          lower := mid + 1;
        }
      }
      assert !HasValue(s, value) by {
        assert forall k :: 0 <= k < |s| ==> s[k] == cases[k + 1];
      }
      ScanMisses(s, value, defaultCase);
      return defaultCase;
    }
  }
}
