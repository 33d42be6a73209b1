/** The per-channel median selection of the force-sensor filter. */
module Median {

  predicate Sorted(s: seq<real>)
  {
    forall i, j :: 0 <= i < j < |s| ==> s[i] <= s[j]
  }

  /** Insertion of one value into a sorted sequence. */
  function Insert(x: real, s: seq<real>): (r: seq<real>)
    requires Sorted(s)
    ensures Sorted(r)
    ensures multiset(r) == multiset(s) + multiset{x}
    ensures |r| == |s| + 1
    ensures r[0] == x || (|s| > 0 && r[0] == s[0])
  {
    if |s| == 0 then [x]
    else if x <= s[0] then [x] + s
    else
      assert s == [s[0]] + s[1..];
      [s[0]] + Insert(x, s[1..])
  }

  /** Reference sort: the unique sorted permutation of `s`. */
  function Sort(s: seq<real>): (r: seq<real>)
    ensures Sorted(r)
    ensures multiset(r) == multiset(s)
    ensures |r| == |s|
  {
    if |s| == 0 then []
    else
      assert s == [s[0]] + s[1..];
      Insert(s[0], Sort(s[1..]))
  }

  /** The head of a sorted sequence is its least element. */
  lemma SortedHeadIsLeast(a: seq<real>, x: real)
    requires Sorted(a) && x in multiset(a)
    ensures |a| > 0 && a[0] <= x
  {
    var j :| 0 <= j < |a| && a[j] == x;
  }

  lemma TailMultiset(a: seq<real>)
    requires |a| > 0
    ensures multiset(a[1..]) == multiset(a) - multiset{a[0]}
  {
    assert a == [a[0]] + a[1..];
  }

  lemma SortedTail(a: seq<real>)
    requires Sorted(a) && |a| > 0
    ensures Sorted(a[1..])
  {
    forall i, j | 0 <= i < j < |a| - 1
      ensures a[1..][i] <= a[1..][j]
    {
      assert a[1..][i] == a[i + 1] && a[1..][j] == a[j + 1];
    }
  }

  /** Two sorted sequences with the same elements start alike, and
      their tails again hold the same elements. */
  lemma SortedHeads(a: seq<real>, b: seq<real>)
    requires Sorted(a) && Sorted(b) && |a| > 0 && |b| > 0
    requires multiset(a) == multiset(b)
    ensures a[0] == b[0]
    ensures multiset(a[1..]) == multiset(b[1..])
  {
    assert a[0] in multiset(b) && b[0] in multiset(a) by {
      assert a[0] in a && b[0] in b;
    }
    SortedHeadIsLeast(b, a[0]);
    SortedHeadIsLeast(a, b[0]);
    TailMultiset(a);
    TailMultiset(b);
  }

  /** Two sorted sequences with the same elements are equal. */
  lemma {:induction false} SortedUnique(a: seq<real>, b: seq<real>)
    requires Sorted(a) && Sorted(b)
    requires multiset(a) == multiset(b)
    ensures a == b
  {
    assert |a| == |multiset(a)| == |multiset(b)| == |b|;
    if |a| > 0 {
      SortedHeads(a, b);
      SortedTail(a);
      SortedTail(b);
      SortedUnique(a[1..], b[1..]);
      calc {
        a;
        [a[0]] + a[1..];
        [b[0]] + b[1..];
        b;
      }
    }
  }

  /** The value the filter takes as median of a window of `|s|` samples:
      the element at index `|s| / 2` of the sorted window. For an even
      window this is the upper of the two middle values. */
  function MedianOf(s: seq<real>): (m: real)
    requires |s| >= 1
    ensures m in s
  {
    var t := Sort(s);
    assert t[|s| / 2] in multiset(t);
    t[|s| / 2]
  }

  /** Any sorted rearrangement of the window picks out the same median. */
  lemma MedianOfSortedPermutation(s: seq<real>, t: seq<real>)
    requires |s| >= 1
    requires Sorted(t) && multiset(t) == multiset(s)
    ensures |t| == |s| && MedianOf(s) == t[|s| / 2]
  {
    SortedUnique(t, Sort(s));
  }

  /** Number of entries of `s` at or below `m`, and at or above `m`. */
  function CountAtMost(s: seq<real>, m: real): nat
  {
    if |s| == 0 then 0 else (if s[0] <= m then 1 else 0) + CountAtMost(s[1..], m)
  }

  function CountAtLeast(s: seq<real>, m: real): nat
  {
    if |s| == 0 then 0 else (if s[0] >= m then 1 else 0) + CountAtLeast(s[1..], m)
  }

  lemma {:induction false} CountsOfInsert(x: real, t: seq<real>, m: real)
    requires Sorted(t)
    ensures CountAtMost(Insert(x, t), m) == CountAtMost([x] + t, m)
    ensures CountAtLeast(Insert(x, t), m) == CountAtLeast([x] + t, m)
  {
    assert ([x] + t)[1..] == t;
    if |t| > 0 && x > t[0] {
      assert t == [t[0]] + t[1..];
      CountsOfInsert(x, t[1..], m);
      assert ([x] + t[1..])[1..] == t[1..];
      assert ([t[0]] + Insert(x, t[1..]))[1..] == Insert(x, t[1..]);
    }
  }

  /** Sorting does not change how many entries lie on either side of `m`. */
  lemma {:induction false} CountsOfSort(s: seq<real>, m: real)
    ensures CountAtMost(Sort(s), m) == CountAtMost(s, m)
    ensures CountAtLeast(Sort(s), m) == CountAtLeast(s, m)
  {
    if |s| > 0 {
      assert s == [s[0]] + s[1..];
      CountsOfSort(s[1..], m);
      CountsOfInsert(s[0], Sort(s[1..]), m);
      assert ([s[0]] + Sort(s[1..]))[1..] == Sort(s[1..]);
    }
  }

  lemma {:induction false} CountAtMostPrefix(t: seq<real>, m: real, k: nat)
    requires k <= |t|
    requires forall i :: 0 <= i < k ==> t[i] <= m
    ensures CountAtMost(t, m) >= k
  {
    if k > 0 {
      CountAtMostPrefix(t[1..], m, k - 1);
    }
  }

  lemma {:induction false} CountAtLeastSuffix(t: seq<real>, m: real, k: nat)
    requires k <= |t|
    requires forall i :: k <= i < |t| ==> t[i] >= m
    ensures CountAtLeast(t, m) >= |t| - k
  {
    if |t| > 0 {
      CountAtLeastSuffix(t[1..], m, if k == 0 then 0 else k - 1);
    }
  }

  lemma SortedRank(t: seq<real>, h: nat)
    requires Sorted(t) && h < |t|
    ensures CountAtMost(t, t[h]) >= h + 1
    ensures CountAtLeast(t, t[h]) >= |t| - h
  {
    CountAtMostPrefix(t, t[h], h + 1);
    CountAtLeastSuffix(t, t[h], h);
  }

  /** The median is an order statistic of the window: at least
      `|s| / 2 + 1` entries lie at or below it and at least `|s| - |s| / 2`
      at or above it. */
  lemma MedianRank(s: seq<real>)
    requires |s| >= 1
    ensures CountAtMost(s, MedianOf(s)) >= |s| / 2 + 1
    ensures CountAtLeast(s, MedianOf(s)) >= |s| - |s| / 2
  {
    var t := Sort(s);
    SortedRank(t, |s| / 2);
    CountsOfSort(s, t[|s| / 2]);
  }

  lemma MedianOfOne(x: real)
    ensures MedianOf([x]) == x
  {
  }

  /** With two samples the filter returns the larger one. */
  lemma MedianOfTwo(x: real, y: real)
    ensures MedianOf([x, y]) == if x >= y then x else y
  {
    if x <= y {
      MedianOfSortedPermutation([x, y], [x, y]);
    } else {
      MedianOfSortedPermutation([x, y], [y, x]);
    }
  }

  /** A window of equal samples has that sample as median. */
  lemma MedianOfConstant(s: seq<real>, v: real)
    requires |s| >= 1
    requires forall i :: 0 <= i < |s| ==> s[i] == v
    ensures MedianOf(s) == v
  {
  }

  /** Exchange of two neighbouring entries inside the first `n` slots. */
  method SwapAdjacent(a: array<real>, j: int, n: int)
    requires 0 <= j && j + 1 < n <= a.Length
    modifies a
    ensures a[j] == old(a[j + 1]) && a[j + 1] == old(a[j])
    ensures forall k :: 0 <= k < a.Length && k != j && k != j + 1 ==> a[k] == old(a[k])
    ensures multiset(a[..n]) == old(multiset(a[..n]))
  {
    ghost var before := a[..n];
    a[j], a[j + 1] := a[j + 1], a[j];
    assert a[..n] == before[j := before[j + 1]][j + 1 := before[j]];
  }

  /** One pass of the inner loop: bubbles the largest of `a[0..limit]`
      up to slot `limit`, leaving the slots from `limit + 1` alone. */
  method BubblePass(a: array<real>, limit: int, n: int)
    requires 0 <= limit < n <= a.Length
    requires forall x, y :: 0 <= x <= limit < y < n ==> a[x] <= a[y]
    modifies a
    ensures multiset(a[..n]) == old(multiset(a[..n]))
    ensures forall k :: 0 <= k <= limit ==> a[k] <= a[limit]
    ensures forall x, y :: 0 <= x <= limit < y < n ==> a[x] <= a[y]
    ensures forall k :: limit < k < a.Length ==> a[k] == old(a[k])
  {
    for j := 0 to limit
      invariant multiset(a[..n]) == old(multiset(a[..n]))
      invariant forall k :: 0 <= k <= j ==> a[k] <= a[j]
      invariant forall x, y :: 0 <= x <= limit < y < n ==> a[x] <= a[y]
      invariant forall k :: limit < k < a.Length ==> a[k] == old(a[k])
    {
      if a[j] > a[j + 1] {
        SwapAdjacent(a, j, n);
      }
    }
  }

  /** The nested loops of `calculate_median`: after the pass with index
      `i` the last `i + 1` of the first `n` slots hold their final values. */
  method BubbleSort(a: array<real>, n: int)
    requires 1 <= n <= a.Length
    modifies a
    ensures multiset(a[..n]) == old(multiset(a[..n]))
    ensures Sorted(a[..n])
    ensures forall k :: n <= k < a.Length ==> a[k] == old(a[k])
  {
    for i := 0 to n - 1
      invariant multiset(a[..n]) == old(multiset(a[..n]))
      invariant forall k :: n <= k < a.Length ==> a[k] == old(a[k])
      invariant forall x, y :: n - i <= x < y < n ==> a[x] <= a[y]
      invariant forall x, y :: 0 <= x < n - i <= y < n ==> a[x] <= a[y]
    {
      BubblePass(a, n - i - 1, n);
    }
  }

  /** `calculate_median`: copy the first `count` values into a five-slot
      scratch array, bubble-sort it in place and return the entry at
      `count / 2`. */
  method CalculateMedian(values: seq<real>, count: int) returns (median: real)
    requires 1 <= count <= 5 && count <= |values|
    ensures median == MedianOf(values[..count])
  {
    var temp := new real[5];
    for i := 0 to count
      invariant forall k :: 0 <= k < i ==> temp[k] == values[k]
    {
      temp[i] := values[i];
    }
    assert temp[..count] == values[..count];
    BubbleSort(temp, count);
    MedianOfSortedPermutation(values[..count], temp[..count]);
    median := temp[count / 2];
  }
}
