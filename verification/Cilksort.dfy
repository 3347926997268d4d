/** cilksort: quicksort below a threshold, above it a merge sort. */
module Cilksort {
  // Above the threshold there are four recursive sorts and three merges that split the larger range in the middle and
  // the other by binary search. A pointer into an array is an index; ranges are inclusive, as in the program. Spawned
  // calls are made one after the other: the parts of the arrays they write do not overlap.

  const INSERTIONSIZE := 20
  const MERGESIZE := 1024
  const QUICKSIZE := 1024

  ghost predicate Sorted(s: seq<int>) {
    forall i, j | 0 <= i < j < |s| :: s[i] <= s[j]
  }

  ghost predicate AtMost(s: seq<int>, v: int) {
    forall i | 0 <= i < |s| :: s[i] <= v
  }

  ghost predicate AtLeast(s: seq<int>, v: int) {
    forall i | 0 <= i < |s| :: v <= s[i]
  }

  /** t is s with the part [lo, hi) rearranged. */
  ghost predicate Rearranged(s: seq<int>, t: seq<int>, lo: int, hi: int) {
    && 0 <= lo <= hi <= |s| == |t|
    && t[..lo] == s[..lo] && t[hi..] == s[hi..]
    && multiset(t[lo..hi]) == multiset(s[lo..hi])
  }

  // ---------------------------------------------------------------------------------------------
  // Rearranging
  // ---------------------------------------------------------------------------------------------

  lemma SameMembers(s: seq<int>, t: seq<int>)
    requires multiset(s) == multiset(t)
    ensures forall v :: AtMost(s, v) ==> AtMost(t, v)
    ensures forall v :: AtLeast(s, v) ==> AtLeast(t, v)
  {
    forall i | 0 <= i < |t| ensures t[i] in s {
      assert t[i] in multiset(t);
    }
  }

  lemma Unmoved(s: seq<int>, lo: int, hi: int)
    requires 0 <= lo <= hi <= |s|
    ensures Rearranged(s, s, lo, hi)
  {
  }

  lemma RearrangedTwice(s: seq<int>, t: seq<int>, u: seq<int>, lo: int, hi: int)
    requires Rearranged(s, t, lo, hi) && Rearranged(t, u, lo, hi)
    ensures Rearranged(s, u, lo, hi)
  {
  }

  /** What is rearranged in part is rearranged in the whole. */
  lemma RearrangedWider(s: seq<int>, t: seq<int>, lo: int, hi: int, lo': int, hi': int)
    requires Rearranged(s, t, lo, hi) && 0 <= lo' <= lo && hi <= hi' <= |s|
    ensures Rearranged(s, t, lo', hi')
  {
    assert s[lo'..hi'] == s[lo'..lo] + s[lo..hi] + s[hi..hi'];
    assert t[lo'..hi'] == t[lo'..lo] + t[lo..hi] + t[hi..hi'];
    assert t[lo'..lo] == t[..lo][lo'..] == s[..lo][lo'..] == s[lo'..lo];
    assert t[hi..hi'] == t[hi..][..hi' - hi] == s[hi..][..hi' - hi] == s[hi..hi'];
    assert t[..lo'] == t[..lo][..lo'] == s[..lo][..lo'] == s[..lo'];
    assert t[hi'..] == t[hi..][hi' - hi..] == s[hi..][hi' - hi..] == s[hi'..];
  }

  lemma SwapRearranges(s: seq<int>, i: int, j: int, lo: int, hi: int)
    requires 0 <= lo <= i < j < hi <= |s|
    ensures Rearranged(s, s[i := s[j]][j := s[i]], lo, hi)
  {
    SlicesOfSwap(s, i, j, lo, hi);
    ElementsOfSwap(s[lo..i], s[i], s[i + 1..j], s[j], s[j + 1..hi]);
  }

  lemma SlicesOfSwap(s: seq<int>, i: int, j: int, lo: int, hi: int)
    requires 0 <= lo <= i < j < hi <= |s|
    ensures s[lo..hi] == s[lo..i] + [s[i]] + s[i + 1..j] + [s[j]] + s[j + 1..hi]
    ensures s[i := s[j]][j := s[i]][lo..hi] == s[lo..i] + [s[j]] + s[i + 1..j] + [s[i]] + s[j + 1..hi]
    ensures s[i := s[j]][j := s[i]][..lo] == s[..lo] && s[i := s[j]][j := s[i]][hi..] == s[hi..]
  {
  }

  lemma ElementsOfSwap(a: seq<int>, x: int, b: seq<int>, y: int, c: seq<int>)
    ensures multiset(a + [x] + b + [y] + c) == multiset(a + [y] + b + [x] + c)
  {
  }

  // ---------------------------------------------------------------------------------------------
  // Quicksort
  // ---------------------------------------------------------------------------------------------

  /** One of three that two of them do not exceed and that does not exceed two of them. */
  predicate IsMedian(a: int, b: int, c: int, m: int) {
    && (m == a || m == b || m == c)
    && (if a <= m then 1 else 0) + (if b <= m then 1 else 0) + (if c <= m then 1 else 0) >= 2
    && (if m <= a then 1 else 0) + (if m <= b then 1 else 0) + (if m <= c then 1 else 0) >= 2
  }

  function Med3(a: int, b: int, c: int): (m: int)
    ensures IsMedian(a, b, c, m)
  {
    if a < b then
      if b < c then b
      else if a < c then c
      else a
    else
      if b > c then b
      else if a > c then c
      else a
  }

  /** The high scan of seqpart: it stops inside the range because it meets an element that is not too large. */
  method ScanDown(a: array<int>, from: int, v: int, ghost bottom: int) returns (i: int)
    requires 0 <= bottom <= from < a.Length && a[bottom] <= v
    ensures bottom <= i <= from && a[i] <= v
    ensures forall j | i < j <= from :: v < a[j]
  {
    i := from;
    while a[i] > v
      invariant bottom <= i <= from
      invariant forall j | i < j <= from :: v < a[j]
      decreases i
    {
      i := i - 1;
    }
  }

  method ScanUp(a: array<int>, from: int, v: int, ghost top: int) returns (i: int)
    requires 0 <= from <= top < a.Length && v <= a[top]
    ensures from <= i <= top && v <= a[i]
    ensures forall j | from <= j < i :: a[j] < v
  {
    i := from;
    while a[i] < v
      invariant from <= i <= top
      invariant forall j | from <= j < i :: a[j] < v
      decreases top - i
    {
      i := i + 1;
    }
  }

  /** Everything left of currLow is at most v, everything right of currHigh at least v. */
  ghost predicate Parted(s: seq<int>, low: int, high: int, currLow: int, currHigh: int, v: int)
    requires 0 <= low <= high < |s|
  {
    && low <= currLow <= high + 1 && low - 1 <= currHigh <= high
    && (forall i | low <= i < currLow :: s[i] <= v)
    && (forall i | currHigh < i <= high :: v <= s[i])
  }

  lemma PartStep(s0: seq<int>, s: seq<int>, low: int, high: int, l: int, h: int, v: int)
    requires 0 <= low <= l < h <= high < |s| && Rearranged(s0, s, low, high + 1)
    requires Parted(s, low, high, l, h, v) && s[h] <= v <= s[l]
    ensures var t := s[l := s[h]][h := s[l]];
            Rearranged(s0, t, low, high + 1) && Parted(t, low, high, l + 1, h - 1, v) && t[l] <= v <= t[h]
  {
    SwapRearranges(s, l, h, low, high + 1);
  }

  /** t is s with [lo, hi) rearranged so that v separates [lo, mid) from [mid, hi). */
  ghost predicate Cut(s: seq<int>, t: seq<int>, lo: int, mid: int, hi: int, v: int) {
    lo <= mid <= hi && Rearranged(s, t, lo, hi) && AtMost(t[lo..mid], v) && AtLeast(t[mid..hi], v)
  }

  lemma PartDone(s0: seq<int>, s: seq<int>, low: int, high: int, l: int, h: int, p: int, v: int)
    requires 0 <= low < high < |s| && Parted(s, low, high, l, h, v) && low <= h <= l <= high
    requires s[h] <= v <= s[l] && p == (if h < high then h else h - 1) && Rearranged(s0, s, low, high + 1)
    ensures low <= p < high && Cut(s0, s, low, p + 1, high + 1, v)
  {
    hide Rearranged;
  }

  function Half(low: int, high: int): (mid: int)
    requires low <= high
    ensures low <= mid <= high && 0 <= low + high - 2 * mid <= 1
  {
    low + (high - low) / 2
  }

  /** choose_pivot, with an element that stops the first high scan and one that stops the first low scan. */
  method ChoosePivot(a: array<int>, low: int, high: int) returns (v: int, ghost bottom: int, ghost top: int)
    requires 0 <= low < high < a.Length
    ensures low <= bottom <= high && a[bottom] <= v && low <= top <= high && v <= a[top]
    ensures IsMedian(a[low], a[high], a[Half(low, high)], v)
  {
    var mid := Half(low, high);
    v := Med3(a[low], a[high], a[mid]);
    bottom := if a[low] <= v then low else mid;
    top := if a[high] >= v then high else mid;
  }

  method Exchange(a: array<int>, i: int, j: int)
    requires 0 <= i < j < a.Length
    modifies a
    ensures a[..] == old(a[..])[i := old(a[j])][j := old(a[i])]
  {
    a[i], a[j] := a[j], a[i];
  }

  /** The scans of the partition around v: they stay inside the range, and the cut p leaves an element on either
      side. */
  method PartAround(a: array<int>, low: int, high: int, v: int, ghost b: int, ghost t: int) returns (p: int)
    requires 0 <= low < high < a.Length && low <= b <= high && a[b] <= v && low <= t <= high && v <= a[t]
    modifies a
    ensures low <= p < high && Cut(old(a[..]), a[..], low, p + 1, high + 1, v)
  {
    hide Cut, Rearranged;
    ghost var s0, s := a[..], a[..];
    Unmoved(s, low, high + 1);
    var currLow, currHigh := low, high;
    ghost var bottom, top := b, t;
    while true
      invariant s == a[..] && Rearranged(s0, s, low, high + 1)
      invariant Parted(s, low, high, currLow, currHigh, v) && currLow <= currHigh + 1
      invariant low <= bottom <= currHigh && s[bottom] <= v
      invariant currLow <= top <= high && v <= s[top]
      decreases currHigh - currLow
    {
      currHigh := ScanDown(a, currHigh, v, bottom);
      currLow := ScanUp(a, currLow, v, top);
      if currLow >= currHigh { break; }
      PartStep(s0, s, low, high, currLow, currHigh, v);
      Exchange(a, currLow, currHigh);
      s := s[currLow := s[currHigh]][currHigh := s[currLow]];
      bottom, top := currLow, currHigh;
      currHigh, currLow := currHigh - 1, currLow + 1;
    }
    if currHigh < high {
      p := currHigh;
    } else {
      p := currHigh - 1;
    }
    PartDone(s0, s, low, high, currLow, currHigh, p, v);
  }

  /** The partition: every element up to p is at most, every element after p at least the pivot, which is
      the median of the first, the last and the middle element. */
  method SeqPart(a: array<int>, low: int, high: int) returns (p: int, ghost pivot: int)
    requires 0 <= low < high < a.Length
    modifies a
    ensures low <= p < high && Cut(old(a[..]), a[..], low, p + 1, high + 1, pivot)
    ensures IsMedian(old(a[low]), old(a[high]), old(a[Half(low, high)]), pivot)
  {
    hide Cut, IsMedian, Half;
    var v;
    ghost var bottom, top;
    v, bottom, top := ChoosePivot(a, low, high);
    p := PartAround(a, low, high, v, bottom, top);
    pivot := v;
  }

  // ---------------------------------------------------------------------------------------------
  // Insertion sort
  // ---------------------------------------------------------------------------------------------

  /** Taking the element at q out and putting it in at p, with those in between moved up. */
  function Inserted(s: seq<int>, p: int, q: int): (t: seq<int>)
    requires 0 <= p <= q < |s|
    ensures |t| == |s|
  {
    s[..p] + [s[q]] + s[p..q] + s[q + 1..]
  }

  lemma InsertedParts(s: seq<int>, p: int, q: int, lo: int, hi: int)
    requires 0 <= lo <= p <= q < hi <= |s|
    ensures var t := Inserted(s, p, q);
            && t[..lo] == s[..lo] && t[hi..] == s[hi..]
            && t[lo..hi] == s[lo..p] + ([s[q]] + s[p..q]) + s[q + 1..hi]
  {
    var t := Inserted(s, p, q);
    var u := s[lo..p] + ([s[q]] + s[p..q]) + s[q + 1..hi];
    forall k | lo <= k < hi ensures t[k] == u[k - lo] {
    }
  }

  lemma InsertedRearranges(s: seq<int>, p: int, q: int, lo: int, hi: int)
    requires 0 <= lo <= p <= q < hi <= |s|
    ensures Rearranged(s, Inserted(s, p, q), lo, hi)
  {
    hide Inserted;
    InsertedParts(s, p, q, lo, hi);
    assert s[lo..hi] == s[lo..p] + (s[p..q] + [s[q]]) + s[q + 1..hi];
  }

  /** One pass of insertion_sort: the element at q moves down past those greater than it. */
  method Insert(a: array<int>, low: int, q: int) returns (ghost at: int)
    requires 0 <= low <= q < a.Length
    modifies a
    ensures low <= at <= q && a[..] == Inserted(old(a[..]), at, q)
    ensures forall i | at < i <= q :: a[i] > a[at]
    ensures low < at ==> a[at - 1] <= a[at]
  {
    ghost var s := a[..];
    var e := a[q];
    var p := q - 1;
    while p >= low && a[p] > e
      invariant low - 1 <= p < q
      invariant forall i | 0 <= i <= p || q < i < a.Length :: a[i] == s[i]
      invariant forall i | p + 1 < i <= q :: a[i] == s[i - 1]
      invariant forall i | p + 1 < i <= q :: a[i] > e
      invariant p == q - 1 ==> a[q] == e
      decreases p
    {
      assert a[p] == s[p];
      a[p + 1] := a[p];
      p := p - 1;
    }
    a[p + 1] := e;
    at := p + 1;
    assert forall i | 0 <= i < a.Length :: a[i] == Inserted(s, at, q)[i];
  }

  /** One round of insertion_sort. */
  method InsertNext(a: array<int>, low: int, q: int, high: int, ghost s0: seq<int>)
    requires 0 <= low < q <= high < a.Length && Rearranged(s0, a[..], low, high + 1) && Sorted(a[..][low..q])
    modifies a
    ensures Rearranged(s0, a[..], low, high + 1) && Sorted(a[..][low..q + 1])
  {
    ghost var s := a[..];
    ghost var at := Insert(a, low, q);
    InsertedRearranges(s, at, q, low, high + 1);
    InsertedIsSorted(s, at, low, q);
  }

  method InsertionSort(a: array<int>, low: int, high: int)
    requires 0 <= low <= high + 1 <= a.Length
    modifies a
    ensures Rearranged(old(a[..]), a[..], low, high + 1)
    ensures Sorted(a[..][low..high + 1])
  {
    ghost var s0 := a[..];
    var q := low + 1;
    while q <= high
      invariant low + 1 <= q && (q <= high + 1 || q == low + 1)
      invariant Rearranged(s0, a[..], low, high + 1)
      invariant q <= high + 1 ==> Sorted(a[..][low..q])
    {
      InsertNext(a, low, q, high, s0);
      q := q + 1;
    }
  }

  lemma InsertedAt(s: seq<int>, p: int, q: int, i: int)
    requires 0 <= p <= q < |s| && 0 <= i <= q
    ensures Inserted(s, p, q)[i] == if i < p then s[i] else if i == p then s[q] else s[i - 1]
  {
  }

  lemma SortedPairs(s: seq<int>, lo: int, hi: int)
    requires 0 <= lo <= hi <= |s|
    ensures Sorted(s[lo..hi]) <==> forall i, j | lo <= i < j < hi :: s[i] <= s[j]
  {
    if Sorted(s[lo..hi]) {
      forall i, j | lo <= i < j < hi ensures s[i] <= s[j] {
        assert s[i] == s[lo..hi][i - lo] && s[j] == s[lo..hi][j - lo];
      }
    } else {
      var i, j :| 0 <= i < j < hi - lo && s[lo..hi][i] > s[lo..hi][j];
      assert s[lo + i] > s[lo + j];
    }
  }

  lemma InsertedIsSorted(s: seq<int>, p: int, low: int, q: int)
    requires 0 <= low <= p <= q < |s| && Sorted(s[low..q])
    requires var t := Inserted(s, p, q);
             (forall i | p < i <= q :: t[i] > t[p]) && (low < p ==> t[p - 1] <= t[p])
    ensures Sorted(Inserted(s, p, q)[low..q + 1])
  {
    hide Inserted, Sorted;
    var t := Inserted(s, p, q);
    SortedPairs(s, low, q);
    SortedPairs(t, low, q + 1);
    if low < p {
      InsertedAt(s, p, q, p - 1);
    }
    forall i, j | low <= i < j <= q ensures t[i] <= t[j] {
      InsertedAt(s, p, q, i);
      InsertedAt(s, p, q, j);
    }
  }

  // ---------------------------------------------------------------------------------------------
  // Quicksort
  // ---------------------------------------------------------------------------------------------

  /** No element of [lo, mid) exceeds one of [mid, hi). */
  ghost predicate Below(s: seq<int>, lo: int, mid: int, hi: int)
    requires 0 <= lo <= mid <= hi <= |s|
  {
    forall i, j | lo <= i < mid <= j < hi :: s[i] <= s[j]
  }

  lemma AllAbove(s: seq<int>, lo: int, mid: int, hi: int, i: int)
    requires 0 <= lo <= i < mid <= hi <= |s| && Below(s, lo, mid, hi)
    ensures AtLeast(s[mid..hi], s[i])
  {
    forall k | 0 <= k < hi - mid ensures s[mid..hi][k] >= s[i] {
      assert s[mid..hi][k] == s[mid + k];
    }
  }

  lemma BelowKept(s: seq<int>, t: seq<int>, lo: int, mid: int, hi: int)
    requires 0 <= lo <= mid && Rearranged(s, t, mid, hi) && Below(s, lo, mid, hi)
    ensures Below(t, lo, mid, hi)
  {
    forall i, j | lo <= i < mid <= j < hi ensures t[i] <= t[j] {
      assert t[i] == t[..mid][i] == s[..mid][i] == s[i];
      AllAbove(s, lo, mid, hi, i);
      SameMembers(s[mid..hi], t[mid..hi]);
      assert t[j] == t[mid..hi][j - mid];
    }
  }

  /** A sorted stretch grows to the right by one that is sorted and lies above it. */
  lemma SortedGrows(s: seq<int>, t: seq<int>, lo: int, mid: int, hi: int, top: int)
    requires 0 <= lo <= mid <= hi <= top && Rearranged(s, t, mid, hi) && top <= |s|
    requires Sorted(s[lo..mid]) && Below(s, lo, mid, top) && Sorted(t[mid..hi])
    ensures Sorted(t[lo..hi]) && Below(t, lo, mid, top)
  {
    RearrangedWider(s, t, mid, hi, mid, top);
    BelowKept(s, t, lo, mid, top);
    assert t[lo..mid] == t[..mid][lo..] == s[..mid][lo..] == s[lo..mid];
    forall i, j | lo <= i < j < hi ensures t[i] <= t[j] {
      if j < mid {
        assert t[i] == t[lo..mid][i - lo] && t[j] == t[lo..mid][j - lo];
      } else if i >= mid {
        assert t[i] == t[mid..hi][i - mid] && t[j] == t[mid..hi][j - mid];
      }
    }
  }

  lemma PartsStayApart(s: seq<int>, t: seq<int>, lo: int, mid: int, hi: int, v: int)
    requires Rearranged(s, t, lo, mid) && mid <= hi <= |s|
    requires AtMost(s[lo..mid], v) && AtLeast(s[mid..hi], v)
    ensures Below(t, lo, mid, hi)
  {
    SameMembers(s[lo..mid], t[lo..mid]);
    forall i, j | lo <= i < mid <= j < hi ensures t[i] <= t[j] {
      assert t[i] == t[lo..mid][i - lo];
      assert t[j] == t[mid..][j - mid] == s[mid..][j - mid] == s[mid..hi][j - mid];
    }
  }

  /** [low, lo) is sorted and lies below [lo, hi), and all of it is s0 rearranged. */
  ghost predicate SortedUpTo(s0: seq<int>, s: seq<int>, low: int, lo: int, hi: int) {
    && 0 <= low <= lo <= hi && Rearranged(s0, s, low, hi)
    && Sorted(s[low..lo]) && Below(s, low, lo, hi)
  }

  /** One round of seqquick: partition [lo, hi), then sort its left part [lo, mid). */
  lemma QuickRound(s0: seq<int>, s: seq<int>, s1: seq<int>, s2: seq<int>, low: int, lo: int, mid: int, hi: int, v: int)
    requires SortedUpTo(s0, s, low, lo, hi) && Cut(s, s1, lo, mid, hi, v)
    requires Rearranged(s1, s2, lo, mid) && Sorted(s2[lo..mid])
    ensures SortedUpTo(s0, s2, low, mid, hi)
  {
    RearrangedWider(s, s1, lo, hi, low, hi);
    RearrangedWider(s1, s2, lo, mid, low, hi);
    assert s1[low..lo] == s1[..lo][low..] == s[..lo][low..] == s[low..lo];
    BelowKept(s, s1, low, lo, hi);
    SortedGrows(s1, s2, low, lo, mid, hi);
    PartsStayApart(s1, s2, lo, mid, hi, v);
  }

  /** One round of seqquick: partition, then sort the left part. */
  method SortLeft(a: array<int>, low: int, lo: int, high: int, ghost s0: seq<int>) returns (next: int)
    requires 0 <= lo && high < a.Length && INSERTIONSIZE <= high - lo && SortedUpTo(s0, a[..], low, lo, high + 1)
    modifies a
    ensures lo < next <= high && SortedUpTo(s0, a[..], low, next, high + 1)
    decreases high - lo, 0
  {
    hide Cut, SortedUpTo, Sorted, Rearranged, IsMedian, Half, Below;
    ghost var s := a[..];
    var p;
    ghost var v;
    p, v := SeqPart(a, lo, high);
    ghost var s1 := a[..];
    SeqQuick(a, lo, p);
    QuickRound(s0, s, s1, a[..], low, lo, p + 1, high + 1, v);
    next := p + 1;
  }

  method SeqQuick(a: array<int>, low: int, high: int)
    requires 0 <= low <= high + 1 <= a.Length
    modifies a
    ensures Rearranged(old(a[..]), a[..], low, high + 1)
    ensures Sorted(a[..][low..high + 1])
    decreases high - low, 1
  {
    ghost var s0 := a[..];
    var lo := low;
    assert SortedUpTo(s0, s0, low, lo, high + 1);
    while high - lo >= INSERTIONSIZE
      invariant low <= lo <= high + 1 && SortedUpTo(s0, a[..], low, lo, high + 1)
      decreases high - lo
    {
      lo := SortLeft(a, low, lo, high, s0);
    }

    ghost var s := a[..];
    InsertionSort(a, lo, high);
    QuickEnd(s0, s, a[..], low, lo, high + 1);
  }

  lemma QuickEnd(s0: seq<int>, s: seq<int>, t: seq<int>, low: int, lo: int, hi: int)
    requires 0 <= low <= lo <= hi && Rearranged(s0, s, low, hi) && Sorted(s[low..lo]) && Below(s, low, lo, hi)
    requires Rearranged(s, t, lo, hi) && Sorted(t[lo..hi])
    ensures Rearranged(s0, t, low, hi) && Sorted(t[low..hi])
  {
    SortedGrows(s, t, low, lo, hi, hi);
    RearrangedWider(s, t, lo, hi, low, hi);
  }

  // ---------------------------------------------------------------------------------------------
  // Merging
  // ---------------------------------------------------------------------------------------------

  /** The merge of two sequences as the sequential loop takes them. */
  function Merge(s: seq<int>, t: seq<int>): (m: seq<int>)
    ensures |m| == |s| + |t|
  {
    if s == [] then t
    else if t == [] then s
    else if s[0] < t[0] then [s[0]] + Merge(s[1..], t)
    else [t[0]] + Merge(s, t[1..])
  }

  lemma {:induction false} MergeKeepsElements(s: seq<int>, t: seq<int>)
    ensures multiset(Merge(s, t)) == multiset(s) + multiset(t)
  {
    if s != [] && t != [] {
      if s[0] < t[0] {
        MergeKeepsElements(s[1..], t);
        FirstAndRest(s, s[0], s[1..]);
        FirstAndRest(Merge(s, t), s[0], Merge(s[1..], t));
      } else {
        MergeKeepsElements(s, t[1..]);
        FirstAndRest(t, t[0], t[1..]);
        FirstAndRest(Merge(s, t), t[0], Merge(s, t[1..]));
      }
    }
  }

  lemma FirstAndRest(s: seq<int>, x: int, r: seq<int>)
    requires s == [x] + r
    ensures multiset(s) == multiset{x} + multiset(r)
  {
  }

  lemma {:induction false} MergeIsSorted(s: seq<int>, t: seq<int>)
    requires Sorted(s) && Sorted(t)
    ensures Sorted(Merge(s, t))
  {
    if s != [] && t != [] {
      var (h, s', t') := if s[0] < t[0] then (s[0], s[1..], t) else (t[0], s, t[1..]);
      MergeIsSorted(s', t');
      MergeAtLeast(s', t', h);
    }
  }

  lemma MergeAtLeast(s: seq<int>, t: seq<int>, v: int)
    ensures AtLeast(s, v) && AtLeast(t, v) ==> AtLeast(Merge(s, t), v)
    ensures AtMost(s, v) && AtMost(t, v) ==> AtMost(Merge(s, t), v)
  {
    MergeKeepsElements(s, t);
    forall i | 0 <= i < |s| + |t| ensures Merge(s, t)[i] in s || Merge(s, t)[i] in t {
      assert Merge(s, t)[i] in multiset(Merge(s, t));
    }
  }

  lemma TailElements(s: seq<int>)
    requires s != []
    ensures multiset(s[1..]) == multiset(s) - multiset{s[0]}
  {
    assert s == [s[0]] + s[1..];
  }

  lemma SameHead(s: seq<int>, t: seq<int>)
    requires Sorted(s) && Sorted(t) && multiset(s) == multiset(t) && s != []
    ensures t != [] && s[0] == t[0]
  {
    assert s[0] in multiset(t);
    SameMembers(s, t);
    SameMembers(t, s);
    assert AtLeast(s, s[0]) && AtLeast(t, t[0]);
  }

  /** A sequence is sorted in one way only. */
  lemma {:induction false} SortedIsUnique(s: seq<int>, t: seq<int>)
    requires Sorted(s) && Sorted(t) && multiset(s) == multiset(t)
    ensures s == t
  {
    if s == [] {
      assert |multiset(t)| == 0;
    } else {
      SameHead(s, t);
      TailElements(s);
      TailElements(t);
      SortedIsUnique(s[1..], t[1..]);
      assert s == [s[0]] + s[1..] && t == [t[0]] + t[1..];
    }
  }

  lemma MergeCommutes(s: seq<int>, t: seq<int>)
    requires Sorted(s) && Sorted(t)
    ensures Merge(s, t) == Merge(t, s)
  {
    MergeIsSorted(s, t);
    MergeIsSorted(t, s);
    MergeKeepsElements(s, t);
    MergeKeepsElements(t, s);
    SortedIsUnique(Merge(s, t), Merge(t, s));
  }

  lemma SortedAround(s: seq<int>, v: int, t: seq<int>)
    ensures Sorted(s + [v] + t) <==> Sorted(s) && Sorted(t) && AtMost(s, v) && AtLeast(t, v)
  {
    var m := s + [v] + t;
    if Sorted(m) {
      forall i, j | 0 <= i < j < |s| ensures s[i] <= s[j] { assert m[i] <= m[j]; }
      forall i, j | 0 <= i < j < |t| ensures t[i] <= t[j] { assert m[|s| + 1 + i] <= m[|s| + 1 + j]; }
      forall i | 0 <= i < |s| ensures s[i] <= v { assert m[i] <= m[|s|]; }
      forall i | 0 <= i < |t| ensures v <= t[i] { assert m[|s|] <= m[|s| + 1 + i]; }
    }
  }

  lemma SortedHalves(s: seq<int>, t: seq<int>)
    requires Sorted(s + t)
    ensures Sorted(s) && Sorted(t)
  {
    forall i, j | 0 <= i < j < |t| ensures t[i] <= t[j] {
      assert (s + t)[|s| + i] <= (s + t)[|s| + j];
    }
    forall i, j | 0 <= i < j < |s| ensures s[i] <= s[j] {
      assert (s + t)[i] <= (s + t)[j];
    }
  }

  /** Splitting both sequences at a value splits their merge. */
  lemma MergeSplits(s1: seq<int>, v: int, s2: seq<int>, t1: seq<int>, t2: seq<int>)
    requires Sorted(s1 + [v] + s2) && Sorted(t1 + t2)
    requires AtMost(t1, v) && AtLeast(t2, v)
    ensures Sorted(s1) && Sorted(s2) && Sorted(t1) && Sorted(t2)
    ensures Merge(s1 + [v] + s2, t1 + t2) == Merge(s1, t1) + [v] + Merge(s2, t2)
  {
    SortedAround(s1, v, s2);
    SortedHalves(t1, t2);
    SplitMergeIsSorted(s1, v, s2, t1, t2);
    MergeIsSorted(s1 + [v] + s2, t1 + t2);
    MergeKeepsElements(s1 + [v] + s2, t1 + t2);
    MergeKeepsElements(s1, t1);
    MergeKeepsElements(s2, t2);
    SortedIsUnique(Merge(s1 + [v] + s2, t1 + t2), Merge(s1, t1) + [v] + Merge(s2, t2));
  }

  lemma SplitMergeIsSorted(s1: seq<int>, v: int, s2: seq<int>, t1: seq<int>, t2: seq<int>)
    requires Sorted(s1) && Sorted(s2) && Sorted(t1) && Sorted(t2)
    requires AtMost(s1, v) && AtMost(t1, v) && AtLeast(s2, v) && AtLeast(t2, v)
    ensures Sorted(Merge(s1, t1) + [v] + Merge(s2, t2))
  {
    MergeIsSorted(s1, t1);
    MergeIsSorted(s2, t2);
    MergeAtLeast(s1, t1, v);
    MergeAtLeast(s2, t2, v);
    SortedAround(Merge(s1, t1), v, Merge(s2, t2));
  }

  /** d' is d with the first k elements of w written from position `at` on. */
  ghost predicate Written(d: seq<int>, d': seq<int>, at: int, w: seq<int>, k: int) {
    && 0 <= at && 0 <= k <= |w| && at + |w| <= |d| == |d'|
    && (forall i | 0 <= i < |d| && !(at <= i < at + k) :: d'[i] == d[i])
    && (forall i | at <= i < at + k :: d'[i] == w[i - at])
  }

  lemma WrittenIsWhole(d: seq<int>, d': seq<int>, at: int, w: seq<int>)
    requires Written(d, d', at, w, |w|)
    ensures d'[..at] == d[..at] && d'[at..at + |w|] == w && d'[at + |w|..] == d[at + |w|..]
  {
  }

  method MemCpy(dest: array<int>, to: int, src: array<int>, from: int, n: int)
    requires dest != src && 0 <= n && 0 <= to && to + n <= dest.Length && 0 <= from && from + n <= src.Length
    modifies dest
    ensures Written(old(dest[..]), dest[..], to, src[from..from + n], n)
  {
    for i := 0 to n
      invariant forall j | 0 <= j < dest.Length && !(to <= j < to + i) :: dest[j] == old(dest[j])
      invariant forall j | to <= j < to + i :: dest[j] == src[from + j - to]
    {
      dest[to + i] := src[from + i];
    }
  }

  /** From position k on, `all` is what merging S[l1..e1] and S[l2..e2] gives. */
  ghost predicate Left(S: seq<int>, l1: int, e1: int, l2: int, e2: int, all: seq<int>, k: int)
    decreases e1 - l1, e2 - l2
  {
    && 0 <= l1 <= e1 <= |S| && 0 <= l2 <= e2 <= |S| && 0 <= k <= |all|
    && if l1 == e1 then all[k..] == S[l2..e2]
       else if l2 == e2 then all[k..] == S[l1..e1]
       else if S[l1] < S[l2] then k < |all| && all[k] == S[l1] && Left(S, l1 + 1, e1, l2, e2, all, k + 1)
       else k < |all| && all[k] == S[l2] && Left(S, l1, e1, l2 + 1, e2, all, k + 1)
  }

  lemma {:induction false} LeftIsMerge(S: seq<int>, l1: int, e1: int, l2: int, e2: int, all: seq<int>, k: int)
    requires 0 <= l1 <= e1 <= |S| && 0 <= l2 <= e2 <= |S| && 0 <= k <= |all|
    requires all[k..] == Merge(S[l1..e1], S[l2..e2])
    ensures Left(S, l1, e1, l2, e2, all, k)
    decreases e1 - l1, e2 - l2
  {
    if l1 < e1 && l2 < e2 {
      assert S[l1..e1][1..] == S[l1 + 1..e1] && S[l2..e2][1..] == S[l2 + 1..e2];
      assert all[k] == all[k..][0] && all[k + 1..] == all[k..][1..];
      if S[l1] < S[l2] {
        LeftIsMerge(S, l1 + 1, e1, l2, e2, all, k + 1);
      } else {
        LeftIsMerge(S, l1, e1, l2 + 1, e2, all, k + 1);
      }
    }
  }

  lemma WrittenThen(d0: seq<int>, d1: seq<int>, d2: seq<int>, at: int, w: seq<int>, k: int, k': int)
    requires Written(d0, d1, at, w, k) && Written(d1, d2, at + k, w[k..], k')
    ensures Written(d0, d2, at, w, k + k')
  {
    forall i | at <= i < at + k + k' ensures d2[i] == w[i - at] {
      assert i >= at + k ==> w[k..][i - at - k] == w[i - at];
    }
  }

  /** The fast loop of seqmerge: it loads the next element ahead and stops at the last one of a range. */
  method MergeFast(src: array<int>, low1: int, high1: int, low2: int, high2: int, dest: array<int>, lowdest: int,
                   ghost d0: seq<int>, ghost all: seq<int>)
    returns (l1: int, l2: int, d: int)
    requires src != dest && 0 <= low1 < high1 < src.Length && 0 <= low2 < high2 < src.Length
    requires Written(d0, dest[..], lowdest, all, 0) && Left(src[..], low1, high1 + 1, low2, high2 + 1, all, 0)
    modifies dest
    ensures low1 <= l1 <= high1 && low2 <= l2 <= high2
    ensures Left(src[..], l1, high1 + 1, l2, high2 + 1, all, d - lowdest)
    ensures Written(d0, dest[..], lowdest, all, d - lowdest)
  {
    ghost var S := src[..];
    l1, l2, d := low1, low2, lowdest;
    var a1, a2 := src[l1], src[l2];
    while true
      invariant low1 <= l1 < high1 && low2 <= l2 < high2 && a1 == S[l1] && a2 == S[l2] && S == src[..]
      invariant lowdest <= d <= lowdest + |all|
      invariant Left(S, l1, high1 + 1, l2, high2 + 1, all, d - lowdest)
      invariant forall i | 0 <= i < dest.Length && !(lowdest <= i < d) :: dest[i] == d0[i]
      invariant forall i | lowdest <= i < d :: dest[i] == all[i - lowdest]
      decreases high1 - l1 + high2 - l2
    {
      if a1 < a2 {
        dest[d] := a1;
        d := d + 1;
        l1 := l1 + 1;
        a1 := src[l1];
        if l1 >= high1 { break; }
      } else {
        dest[d] := a2;
        d := d + 1;
        l2 := l2 + 1;
        a2 := src[l2];
        if l2 >= high2 { break; }
      }
    }
  }

  /** The slow loop, from position d of the destination on: it runs until one range is empty. */
  method MergeSlow(src: array<int>, low1: int, high1: int, low2: int, high2: int, dest: array<int>, from: int,
                   ghost d0: seq<int>, ghost at: int, ghost all: seq<int>)
    returns (l1: int, l2: int, d: int)
    requires src != dest && 0 <= low1 <= high1 < src.Length && 0 <= low2 <= high2 < src.Length
    requires Written(d0, dest[..], at, all, from - at)
    requires Left(src[..], low1, high1 + 1, low2, high2 + 1, all, from - at)
    modifies dest
    ensures low1 <= l1 <= high1 + 1 && low2 <= l2 <= high2 + 1 && (l1 == high1 + 1 || l2 == high2 + 1)
    ensures Left(src[..], l1, high1 + 1, l2, high2 + 1, all, d - at)
    ensures Written(d0, dest[..], at, all, d - at)
  {
    ghost var S := src[..];
    l1, l2, d := low1, low2, from;
    var a1, a2 := src[l1], src[l2];
    while true
      invariant low1 <= l1 <= high1 && low2 <= l2 <= high2 && a1 == S[l1] && a2 == S[l2] && S == src[..]
      invariant at <= d <= at + |all|
      invariant Left(S, l1, high1 + 1, l2, high2 + 1, all, d - at)
      invariant forall i | 0 <= i < dest.Length && !(at <= i < d) :: dest[i] == d0[i]
      invariant forall i | at <= i < d :: dest[i] == all[i - at]
      decreases high1 - l1 + high2 - l2
    {
      if a1 < a2 {
        dest[d] := a1;
        d := d + 1;
        l1 := l1 + 1;
        if l1 > high1 { break; }
        a1 := src[l1];
      } else {
        dest[d] := a2;
        d := d + 1;
        l2 := l2 + 1;
        if l2 > high2 { break; }
        a2 := src[l2];
      }
    }
  }

  /** The end of seqmerge: one range is empty, the other is copied. */
  method CopyRest(src: array<int>, l1: int, high1: int, l2: int, high2: int, dest: array<int>, d: int,
                  ghost d0: seq<int>, ghost at: int, ghost all: seq<int>)
    requires src != dest && 0 <= l1 <= high1 + 1 <= src.Length && 0 <= l2 <= high2 + 1 <= src.Length
    requires l1 == high1 + 1 || l2 == high2 + 1
    requires Left(src[..], l1, high1 + 1, l2, high2 + 1, all, d - at) && Written(d0, dest[..], at, all, d - at)
    modifies dest
    ensures Written(d0, dest[..], at, all, |all|)
  {
    ghost var d1 := dest[..];
    if l1 > high1 {
      assert all[d - at..] == src[l2..high2 + 1];
      MemCpy(dest, d, src, l2, high2 - l2 + 1);
    } else {
      assert all[d - at..] == src[l1..high1 + 1];
      MemCpy(dest, d, src, l1, high1 - l1 + 1);
    }
    WrittenThen(d0, d1, dest[..], at, all, d - at, |all| - (d - at));
  }

  method SeqMerge(src: array<int>, low1: int, high1: int, low2: int, high2: int, dest: array<int>, lowdest: int)
    requires src != dest
    requires 0 <= low1 <= high1 + 1 <= src.Length && 0 <= low2 <= high2 + 1 <= src.Length
    requires 0 <= lowdest && lowdest + (high1 - low1 + 1) + (high2 - low2 + 1) <= dest.Length
    modifies dest
    ensures Written(old(dest[..]), dest[..], lowdest, Merge(src[..][low1..high1 + 1], src[..][low2..high2 + 1]),
                    (high1 - low1 + 1) + (high2 - low2 + 1))
  {
    hide Merge, Left, Written;
    var l1, l2, d := low1, low2, lowdest;
    ghost var all := Merge(src[..][low1..high1 + 1], src[..][low2..high2 + 1]);
    ghost var d0 := dest[..];
    LeftIsMerge(src[..], l1, high1 + 1, l2, high2 + 1, all, 0);
    if l1 < high1 && l2 < high2 {
      l1, l2, d := MergeFast(src, l1, high1, l2, high2, dest, d, d0, all);
    }
    if l1 <= high1 && l2 <= high2 {
      l1, l2, d := MergeSlow(src, l1, high1, l2, high2, dest, d, d0, lowdest, all);
    }
    CopyRest(src, l1, high1, l2, high2, dest, d, d0, lowdest, all);
  }

  // ---------------------------------------------------------------------------------------------
  // Splitting
  // ---------------------------------------------------------------------------------------------

  function Middle(low: int, high: int): (mid: int)
    requires low < high
    ensures low < mid <= high && 0 <= 2 * mid - low - high <= 1
  {
    low + (high - low + 1) / 2
  }

  lemma MiddleShifts(low: int, high: int, k: int)
    requires low < high
    ensures Middle(low - k, high - k) == Middle(low, high) - k
  {
  }

  function SplitIn(s: seq<int>, val: int, low: int, high: int): (r: int)
    requires 0 <= low <= high < |s|
    ensures low - 1 <= r <= high
    decreases high - low
  {
    if low == high then
      if s[low] > val then low - 1 else low
    else
      var mid := Middle(low, high);
      if val <= s[mid] then SplitIn(s, val, low, mid - 1) else SplitIn(s, val, mid, high)
  }

  /** The index binsplit returns, counted from the start of the range. */
  function Split(s: seq<int>, val: int): (r: int)
    requires s != []
    ensures -1 <= r < |s|
  {
    SplitIn(s, val, 0, |s| - 1)
  }

  lemma {:induction false} SplitInSplits(s: seq<int>, val: int, low: int, high: int)
    requires Sorted(s) && 0 <= low <= high < |s|
    requires forall i | 0 < i <= low :: s[i] < val
    requires forall i | high < i < |s| :: val <= s[i]
    ensures var r := SplitIn(s, val, low, high);
            && (forall i | 0 <= i <= r :: s[i] < val || (i == 0 && s[i] == val))
            && (forall i | r < i < |s| :: val <= s[i])
            && (r < 0 ==> val < s[0])
    decreases high - low
  {
    hide Middle;
    if low < high {
      var mid := Middle(low, high);
      if val <= s[mid] {
        SplitInSplits(s, val, low, mid - 1);
      } else {
        SplitInSplits(s, val, mid, high);
      }
    } else if low > 0 {
      assert s[0] <= s[low];
    }
  }

  /** What the merge needs: everything up to the cut is at most val, everything after it at least val. */
  lemma SplitSplits(s: seq<int>, val: int)
    requires Sorted(s) && s != []
    ensures var r := Split(s, val); AtMost(s[..r + 1], val) && AtLeast(s[r + 1..], val)
  {
    hide SplitIn;
    SplitInSplits(s, val, 0, |s| - 1);
  }

  /** Exactly: the place before the first element that is not below val, but the first place if val stands there. */
  lemma SplitIs(s: seq<int>, val: int)
    requires Sorted(s) && s != []
    ensures if s[0] == val then Split(s, val) == 0 else forall i | 0 <= i < |s| :: i <= Split(s, val) <==> s[i] < val
  {
    SplitInSplits(s, val, 0, |s| - 1);
    if s[0] == val {
      FirstPlace(s, val, 0, |s| - 1);
    }
  }

  lemma {:induction false} FirstPlace(s: seq<int>, val: int, low: int, high: int)
    requires Sorted(s) && 0 == low <= high < |s| && s[0] == val
    ensures SplitIn(s, val, low, high) == 0
    decreases high - low
  {
    hide Middle;
    if low < high {
      FirstPlace(s, val, low, Middle(low, high) - 1);
    }
  }

  /** What its comment says: the index of a greatest element that is at most val, or -1 if there is none. */
  ghost predicate IsGreatestAtMost(s: seq<int>, val: int, r: int) {
    if r < 0 then forall i | 0 <= i < |s| :: val < s[i]
    else r < |s| && s[r] <= val && forall i | 0 <= i < |s| && s[i] <= val :: s[i] <= s[r]
  }

  /** The comment is right exactly when val does not occur, or occurs at the start of the range. */
  lemma SplitMeetsComment(s: seq<int>, val: int)
    requires Sorted(s) && s != []
    ensures IsGreatestAtMost(s, val, Split(s, val)) <==> (val in s ==> s[0] == val)
  {
    SplitInSplits(s, val, 0, |s| - 1);
    var r := Split(s, val);
    if val in s && s[0] != val {
      var k :| 0 <= k < |s| && s[k] == val;
      assert s[0] <= s[k];
    }
  }

  lemma SplitMissesOnTies()
    ensures Split([3, 5], 5) == 0 && !IsGreatestAtMost([3, 5], 5, 0)
  {
    assert [3, 5][1] == 5;
  }

  lemma SplitInNext(s: seq<int>, val: int, low: int, high: int)
    requires 0 <= low <= high < |s|
    ensures SplitIn(s, val, low, high) ==
              if low == high then (if s[low] > val then low - 1 else low)
              else if val <= s[Middle(low, high)] then SplitIn(s, val, low, Middle(low, high) - 1)
              else SplitIn(s, val, Middle(low, high), high)
  {
    hide Middle;
  }

  lemma {:induction false} SplitInShift(s: seq<int>, val: int, low: int, high: int, lo: int, hi: int)
    requires 0 <= low <= lo <= hi <= high < |s|
    ensures SplitIn(s, val, lo, hi) == low + SplitIn(s[low..high + 1], val, lo - low, hi - low)
    decreases hi - lo
  {
    hide Middle, SplitIn;
    SplitInNext(s, val, lo, hi);
    SplitInNext(s[low..high + 1], val, lo - low, hi - low);
    if lo < hi {
      var mid := Middle(lo, hi);
      MiddleShifts(lo, hi, low);
      assert s[mid] == s[low..high + 1][mid - low];
      if val <= s[mid] {
        SplitInShift(s, val, low, high, lo, mid - 1);
      } else {
        SplitInShift(s, val, low, high, mid, hi);
      }
    }
  }

  method BinSplit(val: int, a: array<int>, low: int, high: int) returns (r: int)
    requires 0 <= low <= high < a.Length
    ensures r == low + Split(a[..][low..high + 1], val)
  {
    hide Middle, SplitIn;
    ghost var s := a[..];
    SplitInShift(s, val, low, high, low, high);
    var lo, hi := low, high;
    while lo != hi
      invariant low <= lo <= hi <= high && SplitIn(s, val, lo, hi) == SplitIn(s, val, low, high)
      decreases hi - lo
    {
      SplitInNext(s, val, lo, hi);
      var mid := Middle(lo, hi);
      if val <= a[mid] {
        hi := mid - 1;
      } else {
        lo := mid;
      }
    }
    SplitInNext(s, val, lo, hi);
    if a[lo] > val {
      r := lo - 1;
    } else {
      r := lo;
    }
  }

  // ---------------------------------------------------------------------------------------------
  // Parallel merge and sort
  // ---------------------------------------------------------------------------------------------

  /** The two halves and the splitting element between them tile the destination. */
  lemma Tiled(d1: seq<int>, d2: seq<int>, d3: seq<int>, at: int, m1: seq<int>, m2: seq<int>)
    requires 0 <= at && at + |m1| + 1 + |m2| <= |d1|
    requires Written(d1, d2, at, m1, |m1|)
    requires Written(d2, d3, at + |m1| + 1, m2, |m2|)
    ensures Written(d1, d3, at, m1 + [d1[at + |m1|]] + m2, |m1| + 1 + |m2|)
  {
    var w := m1 + [d1[at + |m1|]] + m2;
    forall i | at <= i < at + |w| ensures d3[i] == w[i - at] {
      if i < at + |m1| {
        assert d3[i] == d2[i] == m1[i - at];
      } else if i == at + |m1| {
        assert d3[i] == d2[i] == d1[i];
      } else {
        assert d3[i] == m2[i - (at + |m1| + 1)];
      }
    }
  }

  lemma RangeSplits(s: seq<int>, low: int, mid: int, high: int)
    requires 0 <= low <= mid <= high <= |s|
    ensures s[low..high] == s[low..mid] + s[mid..high]
  {
  }

  /** What the two recursive merges and the splitting element give is the merge of the whole ranges. */
  lemma ParallelMerge(s: seq<int>, low1: int, split1: int, high1: int, low2: int, split2: int, high2: int)
    requires 0 <= low1 <= split1 <= high1 < |s| && 0 <= low2 <= high2 < |s|
    requires Sorted(s[low1..high1 + 1]) && Sorted(s[low2..high2 + 1])
    requires split2 == low2 + Split(s[low2..high2 + 1], s[split1])
    ensures low2 - 1 <= split2 <= high2
    ensures Sorted(s[low1..split1]) && Sorted(s[low2..split2 + 1])
    ensures Sorted(s[split1 + 1..high1 + 1]) && Sorted(s[split2 + 1..high2 + 1])
    ensures Merge(s[low1..high1 + 1], s[low2..high2 + 1]) ==
              Merge(s[low1..split1], s[low2..split2 + 1]) + [s[split1]]
              + Merge(s[split1 + 1..high1 + 1], s[split2 + 1..high2 + 1])
  {
    hide *;
    var t := s[low2..high2 + 1];
    SplitSplits(t, s[split1]);
    assert s[low1..high1 + 1] == s[low1..split1] + [s[split1]] + s[split1 + 1..high1 + 1];
    assert t[..split2 + 1 - low2] == s[low2..split2 + 1] && t[split2 + 1 - low2..] == s[split2 + 1..high2 + 1];
    RangeSplits(s, low2, split2 + 1, high2 + 1);
    MergeSplits(s[low1..split1], s[split1], s[split1 + 1..high1 + 1], s[low2..split2 + 1], s[split2 + 1..high2 + 1]);
  }

  /** Merges two sorted ranges of src into dest.  Two empty ranges are not allowed: the program would
      then ask memcpy for a negative number of elements. */
  method CilkMerge(src: array<int>, left: int, leftEnd: int, right: int, rightEnd: int, dest: array<int>, lowdest: int,
                   ghost s: seq<int>)
    requires src != dest && src[..] == s
    requires 0 <= left <= leftEnd + 1 <= src.Length && 0 <= right <= rightEnd + 1 <= src.Length
    requires left <= leftEnd || right <= rightEnd
    requires Sorted(s[left..leftEnd + 1]) && Sorted(s[right..rightEnd + 1])
    requires 0 <= lowdest && lowdest + (leftEnd - left + 1) + (rightEnd - right + 1) <= dest.Length
    modifies dest
    ensures Written(old(dest[..]), dest[..], lowdest, Merge(s[left..leftEnd + 1], s[right..rightEnd + 1]),
                    (leftEnd - left + 1) + (rightEnd - right + 1))
    decreases (leftEnd - left + 1) + (rightEnd - right + 1), 3
  {
    hide Written, Merge, Sorted;
    var low1, high1, low2, high2 := left, leftEnd, right, rightEnd;
    if high2 - low2 > high1 - low1 {
      low1, low2 := low2, low1;
      high1, high2 := high2, high1;
      MergeCommutes(s[left..leftEnd + 1], s[right..rightEnd + 1]);
    }
    if high1 < low1 {
      assert false;
    }
    if high2 - low2 < MERGESIZE {
      SeqMerge(src, low1, high1, low2, high2, dest, lowdest);
    } else {
      MergeHalves(src, low1, high1, low2, high2, dest, lowdest, s);
    }
  }

  /** The recursive case of cilkmerge: the middle element of the larger range splits both. */
  method MergeHalves(src: array<int>, low1: int, high1: int, low2: int, high2: int, dest: array<int>, lowdest: int,
                   ghost s: seq<int>)
    requires src != dest && src[..] == s
    requires 0 <= low1 && high1 < src.Length && 0 <= low2 && high2 < src.Length
    requires MERGESIZE <= high2 - low2 <= high1 - low1
    requires Sorted(s[low1..high1 + 1]) && Sorted(s[low2..high2 + 1])
    requires 0 <= lowdest && lowdest + (high1 - low1 + 1) + (high2 - low2 + 1) <= dest.Length
    modifies dest
    ensures Written(old(dest[..]), dest[..], lowdest, Merge(s[low1..high1 + 1], s[low2..high2 + 1]),
                    (high1 - low1 + 1) + (high2 - low2 + 1))
    decreases (high1 - low1 + 1) + (high2 - low2 + 1), 2
  {
    var split1 := (high1 - low1 + 1) / 2 + low1;
    var split2 := BinSplit(src[split1], src, low2, high2);
    MergeAround(src, low1, split1, high1, low2, split2, high2, dest, lowdest, s);
  }

  /** The splitting element goes to its place, and the halves around it. */
  method MergeAround(src: array<int>, low1: int, split1: int, high1: int, low2: int, split2: int, high2: int,
                     dest: array<int>, lowdest: int, ghost s: seq<int>)
    requires src != dest && src[..] == s
    requires 0 <= low1 < split1 < high1 < src.Length && 0 <= low2 <= high2 < src.Length
    requires split2 == low2 + Split(s[low2..high2 + 1], s[split1])
    requires Sorted(s[low1..high1 + 1]) && Sorted(s[low2..high2 + 1])
    requires 0 <= lowdest && lowdest + (high1 - low1 + 1) + (high2 - low2 + 1) <= dest.Length
    modifies dest
    ensures Written(old(dest[..]), dest[..], lowdest, Merge(s[low1..high1 + 1], s[low2..high2 + 1]),
                    (high1 - low1 + 1) + (high2 - low2 + 1))
    decreases (high1 - low1 + 1) + (high2 - low2 + 1), 1
  {
    hide Written, Merge, Sorted;
    ghost var d0 := dest[..];
    var lowsize := split1 - low1 + split2 - low2;
    ParallelMerge(s, low1, split1, high1, low2, split2, high2);
    dest[lowdest + lowsize + 1] := src[split1];
    MergeBoth(src, low1, split1, high1, low2, split2, high2, dest, lowdest, lowsize, s);
    ghost var w := Merge(s[low1..high1 + 1], s[low2..high2 + 1]);
    SplitElementFits(d0, dest[..], lowdest, w, lowsize + 1);
  }

  /** Writing one of the elements beforehand makes no difference. */
  lemma SplitElementFits(d0: seq<int>, d: seq<int>, at: int, w: seq<int>, k: int)
    requires 0 <= k < |w| && 0 <= at && at + |w| <= |d0| && Written(d0[at + k := w[k]], d, at, w, |w|)
    ensures Written(d0, d, at, w, |w|)
  {
  }

  method MergeBoth(src: array<int>, low1: int, split1: int, high1: int, low2: int, split2: int, high2: int,
                   dest: array<int>, lowdest: int, lowsize: int, ghost s: seq<int>)
    requires src != dest && src[..] == s
    requires 0 <= low1 < split1 < high1 < src.Length && 0 <= low2 <= split2 + 1 <= high2 + 1 <= src.Length
    requires Sorted(s[low1..split1]) && Sorted(s[low2..split2 + 1])
    requires Sorted(s[split1 + 1..high1 + 1]) && Sorted(s[split2 + 1..high2 + 1])
    requires lowsize == split1 - low1 + split2 - low2
    requires 0 <= lowdest && lowdest + (high1 - low1 + 1) + (high2 - low2 + 1) <= dest.Length
    modifies dest
    ensures Written(old(dest[..]), dest[..], lowdest,
                    Merge(s[low1..split1], s[low2..split2 + 1]) + [old(dest[lowdest + lowsize + 1])]
                    + Merge(s[split1 + 1..high1 + 1], s[split2 + 1..high2 + 1]),
                    (high1 - low1 + 1) + (high2 - low2 + 1))
    decreases (high1 - low1 + 1) + (high2 - low2 + 1), 0
  {
    hide Written, Merge, Sorted;
    ghost var d1 := dest[..];
    ghost var m1 := Merge(s[low1..split1], s[low2..split2 + 1]);
    ghost var m2 := Merge(s[split1 + 1..high1 + 1], s[split2 + 1..high2 + 1]);
    assert |m1| == lowsize + 1 && |m1| + 1 + |m2| == (high1 - low1 + 1) + (high2 - low2 + 1);
    CilkMerge(src, low1, split1 - 1, low2, split2, dest, lowdest, s);
    ghost var d2 := dest[..];
    CilkMerge(src, split1 + 1, high1, split2 + 1, high2, dest, lowdest + lowsize + 2, s);
    Tiled(d1, d2, dest[..], lowdest, m1, m2);
  }

  /** A sorted stretch that holds the elements of s[lo..hi] has been written over it. */
  lemma WrittenIsRearranged(s: seq<int>, t: seq<int>, lo: int, hi: int, w: seq<int>)
    requires 0 <= lo <= hi <= |s| && |w| == hi - lo && Written(s, t, lo, w, |w|)
    requires multiset(w) == multiset(s[lo..hi])
    ensures Rearranged(s, t, lo, hi) && t[lo..hi] == w
  {
    WrittenIsWhole(s, t, lo, w);
  }

  /** What is rearranged elsewhere stays. */
  lemma RearrangedElsewhere(s: seq<int>, t: seq<int>, lo: int, hi: int, a: int, b: int)
    requires Rearranged(s, t, lo, hi) && 0 <= a <= b <= |s| && (b <= lo || hi <= a)
    ensures t[a..b] == s[a..b]
  {
    forall k | a <= k < b ensures t[k] == s[k] {
      if b <= lo {
        assert t[..lo][k] == s[..lo][k];
      } else {
        assert t[hi..][k - hi] == s[hi..][k - hi];
      }
    }
  }

  /** The four parts A, B, C and D of the elements to sort: they begin at these positions. */
  datatype Parts = Parts(A: int, B: int, C: int, D: int, end: int)

  ghost predicate IsPart(p: Parts, from: int, to: int) {
    && p.A < p.B < p.C < p.D < p.end
    && ((from, to) == (p.A, p.B) || (from, to) == (p.B, p.C) || (from, to) == (p.C, p.D) || (from, to) == (p.D, p.end))
  }

  ghost predicate PartsOf(p: Parts, s: seq<int>) {
    0 <= p.A <= p.B <= p.C <= p.D <= p.end <= |s|
  }

  /** s is s0 rearranged, and the parts before position `to` are sorted. */
  ghost predicate PartsSorted(s0: seq<int>, s: seq<int>, p: Parts, to: int) {
    && PartsOf(p, s) && Rearranged(s0, s, p.A, p.end)
    && (p.B <= to ==> Sorted(s[p.A..p.B]))
    && (p.C <= to ==> Sorted(s[p.B..p.C]))
    && (p.D <= to ==> Sorted(s[p.C..p.D]))
    && (p.end <= to ==> Sorted(s[p.D..p.end]))
  }

  /** Sorting one more part leaves those already sorted alone. */
  lemma OneMorePart(s0: seq<int>, s: seq<int>, t: seq<int>, p: Parts, from: int, to: int)
    requires PartsSorted(s0, s, p, from)
    requires IsPart(p, from, to)
    requires Rearranged(s, t, from, to) && Sorted(t[from..to])
    ensures PartsSorted(s0, t, p, to)
  {
    RearrangedWider(s, t, from, to, p.A, p.end);
    if p.B <= from { RearrangedElsewhere(s, t, from, to, p.A, p.B); }
    if p.C <= from { RearrangedElsewhere(s, t, from, to, p.B, p.C); }
    if p.D <= from { RearrangedElsewhere(s, t, from, to, p.C, p.D); }
  }

  /** Nothing outside the stretch of n elements from position `at` on has changed. */
  ghost predicate Kept(t0: seq<int>, t1: seq<int>, at: int, n: int) {
    |t1| == |t0| && forall i | 0 <= i < |t0| && !(at <= i < at + n) :: t1[i] == t0[i]
  }

  lemma KeptThen(t0: seq<int>, t1: seq<int>, t2: seq<int>, at: int, n: int, at': int, n': int)
    requires Kept(t0, t1, at, n) && Kept(t1, t2, at', n') && at <= at' && at' + n' <= at + n
    ensures Kept(t0, t2, at, n)
  {
  }

  lemma TwoWritten(t0: seq<int>, t1: seq<int>, t2: seq<int>, at: int, w1: seq<int>, w2: seq<int>)
    requires Written(t0, t1, at, w1, |w1|) && Written(t1, t2, at + |w1|, w2, |w2|)
    ensures t2[at..at + |w1|] == w1 && t2[at + |w1|..at + |w1| + |w2|] == w2
    ensures Kept(t0, t2, at, |w1| + |w2|)
  {
  }

  /** The merge of the two merges holds all elements, in order. */
  lemma FourMerged(s: seq<int>, lo: int, B: int, C: int, D: int, end: int)
    requires 0 <= lo <= B <= C <= D <= end <= |s|
    requires Sorted(s[lo..B]) && Sorted(s[B..C]) && Sorted(s[C..D]) && Sorted(s[D..end])
    ensures var ab, cd := Merge(s[lo..B], s[B..C]), Merge(s[C..D], s[D..end]);
            && Sorted(ab) && Sorted(cd) && Sorted(Merge(ab, cd))
            && multiset(Merge(ab, cd)) == multiset(s[lo..end])
  {
    hide Merge, Sorted;
    var ab, cd := Merge(s[lo..B], s[B..C]), Merge(s[C..D], s[D..end]);
    MergeIsSorted(s[lo..B], s[B..C]);
    MergeIsSorted(s[C..D], s[D..end]);
    MergeIsSorted(ab, cd);
    MergeKeepsElements(s[lo..B], s[B..C]);
    MergeKeepsElements(s[C..D], s[D..end]);
    MergeKeepsElements(ab, cd);
    assert s[lo..end] == s[lo..B] + s[B..C] + (s[C..D] + s[D..end]);
  }

  lemma PartsInRange(s0: seq<int>, s: seq<int>, p: Parts, from: int, to: int)
    requires PartsSorted(s0, s, p, from) && IsPart(p, from, to)
    ensures 0 <= p.A <= from < to <= p.end <= |s| && (from, to) != (p.A, p.end)
  {
  }

  /** One of the four recursive sorts. */
  method SortPart(a: array<int>, from: int, to: int, tmp: array<int>, t: int,
                  ghost s0: seq<int>, ghost t0: seq<int>, ghost p: Parts, ghost at: int)
    requires a != tmp && PartsSorted(s0, a[..], p, from)
    requires IsPart(p, from, to)
    requires 0 <= at && at + (p.end - p.A) <= tmp.Length && t - at == from - p.A && Kept(t0, tmp[..], at, p.end - p.A)
    modifies a, tmp
    ensures PartsSorted(s0, a[..], p, to) && Kept(t0, tmp[..], at, p.end - p.A)
    decreases p.end - p.A, -1
  {
    hide *;
    ghost var s1, t1 := a[..], tmp[..];
    PartsInRange(s0, s1, p, from, to);
    CilkSort(a, from, tmp, t, to - from);
    OneMorePart(s0, s1, a[..], p, from, to);
    KeptThen(t0, t1, tmp[..], at, p.end - p.A, t, to - from);
  }

  method SortFour(a: array<int>, lo: int, tmp: array<int>, t: int, size: int, quarter: int) returns (ghost p: Parts)
    requires a != tmp && 1 <= quarter && 4 * quarter <= size && 0 <= lo && lo + size <= a.Length && 0 <= t
    requires t + size <= tmp.Length
    modifies a, tmp
    ensures p == Parts(lo, lo + quarter, lo + 2 * quarter, lo + 3 * quarter, lo + size)
    ensures PartsSorted(old(a[..]), a[..], p, lo + size)
    ensures Kept(old(tmp[..]), tmp[..], t, size)
    decreases size, 0
  {
    var B, C, D := lo + quarter, lo + 2 * quarter, lo + 3 * quarter;
    p := Parts(lo, B, C, D, lo + size);
    ghost var s0, t0 := a[..], tmp[..];
    assert PartsSorted(s0, s0, p, lo) && Kept(t0, t0, t, size);
    hide PartsSorted, Kept;
    SortPart(a, lo, B, tmp, t, s0, t0, p, t);
    SortPart(a, B, C, tmp, t + quarter, s0, t0, p, t);
    SortPart(a, C, D, tmp, t + 2 * quarter, s0, t0, p, t);
    SortPart(a, D, lo + size, tmp, t + 3 * quarter, s0, t0, p, t);
  }

  /** A and B are merged into the first, C and D into the second part of tmp. */
  method MergePairs(a: array<int>, A: int, B: int, C: int, D: int, end: int, tmp: array<int>, t: int, ghost s: seq<int>)
    requires a != tmp && 0 <= A < B < C < D < end <= a.Length && 0 <= t && t + (end - A) <= tmp.Length
    requires s == a[..]
    requires Sorted(s[A..B]) && Sorted(s[B..C]) && Sorted(s[C..D]) && Sorted(s[D..end])
    modifies tmp
    ensures Kept(old(tmp[..]), tmp[..], t, end - A)
    ensures tmp[..][t..t + (C - A)] == Merge(s[A..B], s[B..C])
    ensures tmp[..][t + (C - A)..t + (end - A)] == Merge(s[C..D], s[D..end])
  {
    hide *;
    ghost var t0 := tmp[..];
    CilkMerge(a, A, B - 1, B, C - 1, tmp, t, s);
    ghost var t1 := tmp[..];
    CilkMerge(a, C, D - 1, D, end - 1, tmp, t + (C - A), s);
    TwoWritten(t0, t1, tmp[..], t, Merge(s[A..B], s[B..C]), Merge(s[C..D], s[D..end]));
  }

  /** The two parallel merges into tmp and the final merge back. */
  method MergeFour(a: array<int>, A: int, B: int, C: int, D: int, end: int, tmp: array<int>, t: int, ghost s0: seq<int>)
    requires a != tmp && 0 <= A < B < C < D < end <= a.Length && 0 <= t && t + (end - A) <= tmp.Length
    requires PartsSorted(s0, a[..], Parts(A, B, C, D, end), end)
    modifies a, tmp
    ensures Rearranged(s0, a[..], A, end) && Sorted(a[..][A..end])
    ensures Kept(old(tmp[..]), tmp[..], t, end - A)
  {
    hide *;
    ghost var s := a[..];
    PartsAreSorted(s0, s, A, B, C, D, end);
    FourMerged(s, A, B, C, D, end);
    MergePairs(a, A, B, C, D, end, tmp, t, s);
    ghost var t2 := tmp[..];
    var tmpC := t + (C - A);
    CilkMerge(tmp, t, tmpC - 1, tmpC, t + (end - A) - 1, a, A, t2);
    WrittenIsRearranged(s, a[..], A, end, Merge(Merge(s[A..B], s[B..C]), Merge(s[C..D], s[D..end])));
    RearrangedTwice(s0, s, a[..], A, end);
  }

  lemma PartsAreSorted(s0: seq<int>, s: seq<int>, A: int, B: int, C: int, D: int, end: int)
    requires 0 <= A < B < C < D < end <= |s| && PartsSorted(s0, s, Parts(A, B, C, D, end), end)
    ensures Sorted(s[A..B]) && Sorted(s[B..C]) && Sorted(s[C..D]) && Sorted(s[D..end])
    ensures Rearranged(s0, s, A, end)
  {
    hide Sorted, Rearranged;
  }

  /** Sorts size elements from lo on; tmp is scratch space of the same size from t on. */
  method CilkSort(a: array<int>, lo: int, tmp: array<int>, t: int, size: int)
    requires a != tmp && 0 <= size && 0 <= lo && lo + size <= a.Length && 0 <= t && t + size <= tmp.Length
    modifies a, tmp
    ensures Rearranged(old(a[..]), a[..], lo, lo + size) && Sorted(a[..][lo..lo + size])
    ensures Kept(old(tmp[..]), tmp[..], t, size)
    decreases size, 2
  {
    if size < QUICKSIZE {
      SeqQuick(a, lo, lo + size - 1);
      return;
    }
    SortBig(a, lo, tmp, t, size, size / 4);
  }

  method SortBig(a: array<int>, lo: int, tmp: array<int>, t: int, size: int, quarter: int)
    requires a != tmp && 1 <= quarter && 4 * quarter <= size && 0 <= lo && lo + size <= a.Length && 0 <= t
    requires t + size <= tmp.Length
    modifies a, tmp
    ensures Rearranged(old(a[..]), a[..], lo, lo + size) && Sorted(a[..][lo..lo + size])
    ensures Kept(old(tmp[..]), tmp[..], t, size)
    decreases size, 1
  {
    ghost var s0, t0 := a[..], tmp[..];
    hide *;
    ghost var p := SortFour(a, lo, tmp, t, size, quarter);
    ghost var t1 := tmp[..];
    MergeFour(a, lo, lo + quarter, lo + 2 * quarter, lo + 3 * quarter, lo + size, tmp, t, s0);
    KeptThen(t0, t1, tmp[..], t, size, t, size);
  }

  // ---------------------------------------------------------------------------------------------
  // Spawned calls
  // ---------------------------------------------------------------------------------------------

  /** t is s with [lo, hi) sorted. */
  ghost predicate SortedPart(s: seq<int>, t: seq<int>, lo: int, hi: int) {
    Rearranged(s, t, lo, hi) && Sorted(t[lo..hi])
  }

  /** Two sorts that are spawned together work on different parts, so their order does not matter. */
  lemma SpawnedSortsCommute(s: seq<int>, t: seq<int>, u: seq<int>, t': seq<int>, u': seq<int>, lo: int, hi: int,
                            lo': int, hi': int)
    requires SortedPart(s, t, lo, hi) && SortedPart(t, u, lo', hi')
    requires SortedPart(s, t', lo', hi') && SortedPart(t', u', lo, hi)
    requires hi <= lo'
    ensures u == u'
  {
    hide Sorted;
    RearrangedElsewhere(s, t', lo', hi', lo, hi);
    RearrangedElsewhere(s, t, lo, hi, lo', hi');
    RearrangedElsewhere(t, u, lo', hi', lo, hi);
    RearrangedElsewhere(t', u', lo, hi, lo', hi');
    SortedIsUnique(u[lo..hi], u'[lo..hi]);
    SortedIsUnique(u[lo'..hi'], u'[lo'..hi']);
    UnsortedRest(s, t, u, lo, hi, lo', hi');
    UnsortedRest(s, t', u', lo, hi, lo', hi');
    FiveParts(u, lo, hi, lo', hi');
    FiveParts(u', lo, hi, lo', hi');
  }

  lemma FiveParts(s: seq<int>, lo: int, hi: int, lo': int, hi': int)
    requires 0 <= lo <= hi <= lo' <= hi' <= |s|
    ensures s == s[..lo] + s[lo..hi] + s[hi..lo'] + s[lo'..hi'] + s[hi'..]
  {
  }

  lemma UnsortedRest(s: seq<int>, t: seq<int>, u: seq<int>, lo: int, hi: int, lo': int, hi': int)
    requires hi <= lo' && ((Rearranged(s, t, lo, hi) && Rearranged(t, u, lo', hi'))
                           || (Rearranged(s, t, lo', hi') && Rearranged(t, u, lo, hi)))
    ensures 0 <= lo <= hi <= lo' <= hi' <= |s| == |u|
    ensures u[..lo] == s[..lo] && u[hi..lo'] == s[hi..lo'] && u[hi'..] == s[hi'..]
  {
    if Rearranged(s, t, lo, hi) && Rearranged(t, u, lo', hi') {
      RearrangedElsewhere(s, t, lo, hi, hi, lo');
      RearrangedElsewhere(t, u, lo', hi', hi, lo');
      RearrangedElsewhere(t, u, lo', hi', 0, lo);
      RearrangedElsewhere(s, t, lo, hi, hi', |s|);
    } else {
      RearrangedElsewhere(s, t, lo', hi', hi, lo');
      RearrangedElsewhere(t, u, lo, hi, hi, lo');
      RearrangedElsewhere(s, t, lo', hi', 0, lo);
      RearrangedElsewhere(t, u, lo, hi, hi', |s|);
    }
  }

  /** Two merges that are spawned together read the source and write different parts of the destination. */
  lemma SpawnedMergesCommute(d: seq<int>, e: seq<int>, f: seq<int>, e': seq<int>, f': seq<int>, at: int, w: seq<int>,
                             at': int, w': seq<int>)
    requires Written(d, e, at, w, |w|) && Written(e, f, at', w', |w'|)
    requires Written(d, e', at', w', |w'|) && Written(e', f', at, w, |w|)
    requires at + |w| <= at' || at' + |w'| <= at
    ensures f == f'
  {
  }
}
