/** The serial quicksort: Lomuto's partition in place, then the two halves. */
module Quicksort {
  predicate Within(a: seq<int>, l: int, r: int) {
    0 <= l <= r + 1 <= |a|
  }

  function Swap(a: seq<int>, i: int, j: int): (b: seq<int>)
    requires 0 <= i < |a| && 0 <= j < |a|
    ensures |b| == |a|
  {
    a[i := a[j]][j := a[i]]
  }

  /** The partition loop from position `more` on: the array it leaves and where the pivot ends up. */
  function Partition(a: seq<int>, pivot: int, less: int, more: int, r: int): (res: (seq<int>, int))
    requires -1 <= less < more <= r + 1 <= |a|
    ensures |res.0| == |a| && less <= res.1 <= less + r + 1 - more
    ensures more <= r && a[r] == pivot ==> less < res.1
    decreases r + 1 - more
  {
    if more > r then (a, less)
    else if a[more] <= pivot then Partition(Swap(a, less + 1, more), pivot, less + 1, more + 1, r)
    else Partition(a, pivot, less, more + 1, r)
  }

  // What the loop keeps: small elements up to `less`, large ones from there to `more`, the pivot last.

  ghost predicate Parted(a: seq<int>, l: int, r: int, pivot: int, less: int, more: int) {
    && Within(a, l, r) && l <= r && l - 1 <= less < more && l <= more <= r + 1
    && (forall i :: l <= i <= less ==> a[i] <= pivot)
    && (forall i :: less < i < more ==> a[i] > pivot)
    && (if more <= r then a[r] == pivot else l <= less && a[less] == pivot)
  }

  lemma PartedStep(a: seq<int>, l: int, r: int, pivot: int, less: int, more: int)
    requires Parted(a, l, r, pivot, less, more) && more <= r
    ensures a[more] <= pivot ==> Parted(Swap(a, less + 1, more), l, r, pivot, less + 1, more + 1)
    ensures a[more] > pivot ==> Parted(a, l, r, pivot, less, more + 1)
  {
  }

  // Rearranging a range.

  /** `b` is `a` with the elements from `l` to `r` in some other order. */
  ghost predicate Rearranged(a: seq<int>, b: seq<int>, l: int, r: int) {
    && |a| == |b| && multiset(a) == multiset(b)
    && forall i :: 0 <= i < |a| && !(l <= i <= r) ==> b[i] == a[i]
  }

  lemma SwapRearranges(a: seq<int>, i: int, j: int, l: int, r: int)
    requires Within(a, l, r) && l <= i <= r && l <= j <= r
    ensures Rearranged(a, Swap(a, i, j), l, r)
  {
  }

  lemma RearrangedTwice(a: seq<int>, b: seq<int>, c: seq<int>, l: int, r: int)
    requires Rearranged(a, b, l, r) && Rearranged(b, c, l, r)
    ensures Rearranged(a, c, l, r)
  {
  }

  lemma Slices(a: seq<int>, l: int, r: int)
    requires Within(a, l, r)
    ensures multiset(a) == multiset(a[..l]) + multiset(a[l..r + 1]) + multiset(a[r + 1..])
  {
    assert a == a[..l] + a[l..];
    assert a[l..] == a[l..r + 1] + a[r + 1..];
  }

  lemma RearrangedSlice(a: seq<int>, b: seq<int>, l: int, r: int)
    requires Rearranged(a, b, l, r) && Within(a, l, r)
    ensures multiset(a[l..r + 1]) == multiset(b[l..r + 1])
  {
    Slices(a, l, r);
    Slices(b, l, r);
    assert a[..l] == b[..l];
    assert a[r + 1..] == b[r + 1..];
    Cancel(multiset(a[..l]), multiset(a[l..r + 1]), multiset(b[l..r + 1]), multiset(a[r + 1..]));
  }

  lemma Cancel(x: multiset<int>, m: multiset<int>, m': multiset<int>, z: multiset<int>)
    requires x + m + z == x + m' + z
    ensures m == m'
  {
    assert m == x + m + z - x - z;
    assert m' == x + m' + z - x - z;
  }

  /** A rearranged range holds no element that it did not hold before. */
  lemma RearrangedBound(a: seq<int>, b: seq<int>, l: int, r: int, i: int)
    requires Rearranged(a, b, l, r) && Within(a, l, r) && l <= i <= r
    ensures exists j :: l <= j <= r && a[j] == b[i]
  {
    RearrangedSlice(a, b, l, r);
    var m, m' := a[l..r + 1], b[l..r + 1];
    assert m'[i - l] in multiset(m');
    assert m'[i - l] in m;
    var k :| 0 <= k < |m| && m[k] == m'[i - l];
    assert a[l + k] == b[i];
  }

  lemma {:induction false} PartitionParts(a: seq<int>, l: int, r: int, pivot: int, less: int, more: int)
    requires Parted(a, l, r, pivot, less, more)
    ensures var (b, p) := Partition(a, pivot, less, more, r); Parted(b, l, r, pivot, p, r + 1)
    decreases r + 1 - more
  {
    if more <= r {
      PartedStep(a, l, r, pivot, less, more);
      if a[more] <= pivot {
        PartitionParts(Swap(a, less + 1, more), l, r, pivot, less + 1, more + 1);
      } else {
        PartitionParts(a, l, r, pivot, less, more + 1);
      }
    }
  }

  lemma {:induction false} PartitionRearranges(a: seq<int>, l: int, r: int, pivot: int, less: int, more: int)
    requires Within(a, l, r) && l - 1 <= less < more <= r + 1
    ensures Rearranged(a, Partition(a, pivot, less, more, r).0, l, r)
    decreases r + 1 - more
  {
    if more <= r {
      if a[more] <= pivot {
        var a' := Swap(a, less + 1, more);
        SwapRearranges(a, less + 1, more, l, r);
        PartitionRearranges(a', l, r, pivot, less + 1, more + 1);
        RearrangedTwice(a, a', Partition(a', pivot, less + 1, more + 1, r).0, l, r);
      } else {
        PartitionRearranges(a, l, r, pivot, less, more + 1);
      }
    }
  }

  /** The array that quicksort leaves. */
  function Sort(a: seq<int>, l: int, r: int): (b: seq<int>)
    requires Within(a, l, r)
    ensures |b| == |a|
    decreases r + 1 - l
  {
    if r <= l then a
    else
      var (a', p) := Partition(a, a[r], l - 1, l, r);
      Sort(Sort(a', l, p - 1), p + 1, r)
  }

  ghost predicate SortedRange(a: seq<int>, l: int, r: int)
    requires Within(a, l, r)
  {
    forall i, j :: l <= i < j <= r ==> a[i] <= a[j]
  }

  lemma {:induction false} SortRearranges(a: seq<int>, l: int, r: int)
    requires Within(a, l, r)
    ensures Rearranged(a, Sort(a, l, r), l, r)
    decreases r + 1 - l
  {
    if r > l {
      PartitionParts(a, l, r, a[r], l - 1, l);
      PartitionRearranges(a, l, r, a[r], l - 1, l);
      var (b, p) := Partition(a, a[r], l - 1, l, r);
      var c := Sort(b, l, p - 1);
      SortRearranges(b, l, p - 1);
      SortRearranges(c, p + 1, r);
    }
  }

  lemma {:induction false} SortSorts(a: seq<int>, l: int, r: int)
    requires Within(a, l, r)
    ensures SortedRange(Sort(a, l, r), l, r)
    decreases r + 1 - l
  {
    if r > l {
      PartitionParts(a, l, r, a[r], l - 1, l);
      var (b, p) := Partition(a, a[r], l - 1, l, r);
      SortSorts(b, l, p - 1);
      SortSorts(Sort(b, l, p - 1), p + 1, r);
      SortJoins(b, l, r, p);
    }
  }

  /** Two sorted halves around the pivot make a sorted range. */
  lemma Joined(b: seq<int>, c: seq<int>, d: seq<int>, l: int, r: int, p: int)
    requires 0 <= l <= p <= r < |b| && Parted(b, l, r, b[p], p, r + 1)
    requires Rearranged(b, c, l, p - 1) && SortedRange(c, l, p - 1)
    requires Rearranged(c, d, p + 1, r) && SortedRange(d, p + 1, r)
    ensures SortedRange(d, l, r)
  {
    forall i | l <= i < p ensures d[i] == c[i] && d[i] <= b[p] {
      RearrangedBound(b, c, l, p - 1, i);
    }
    assert d[p] == c[p] == b[p];
    forall j | p < j <= r ensures d[j] > b[p] {
      RearrangedBound(c, d, p + 1, r, j);
      var k :| p + 1 <= k <= r && c[k] == d[j];
      assert c[k] == b[k];
    }
  }

  lemma SortJoins(b: seq<int>, l: int, r: int, p: int)
    requires 0 <= l <= p <= r < |b| && Parted(b, l, r, b[p], p, r + 1)
    requires SortedRange(Sort(b, l, p - 1), l, p - 1)
    requires SortedRange(Sort(Sort(b, l, p - 1), p + 1, r), p + 1, r)
    ensures SortedRange(Sort(Sort(b, l, p - 1), p + 1, r), l, r)
  {
    var c := Sort(b, l, p - 1);
    SortRearranges(b, l, p - 1);
    SortRearranges(c, p + 1, r);
    Joined(b, c, Sort(c, p + 1, r), l, r, p);
  }

  // How many comparisons it takes.

  /** Comparisons of an element with a pivot. */
  function Comparisons(a: seq<int>, l: int, r: int): nat
    requires Within(a, l, r)
    decreases r + 1 - l
  {
    if r <= l then 0
    else
      var (a', p) := Partition(a, a[r], l - 1, l, r);
      r + 1 - l + Comparisons(a', l, p - 1) + Comparisons(Sort(a', l, p - 1), p + 1, r)
  }

  /** n(n+1)/2 - 1, and nothing for an empty range. */
  function Worst(n: nat): nat {
    if n == 0 then 0 else Gauss(n) - 1
  }

  /** 1 + 2 + ... + n. */
  function Gauss(n: nat): (g: nat)
    ensures g >= n
  {
    if n == 0 then 0 else n + Gauss(n - 1)
  }

  lemma {:induction false} WorstIs(n: nat)
    ensures n > 0 ==> Worst(n) == n * (n + 1) / 2 - 1
    ensures 2 * Gauss(n) == n * (n + 1)
  {
    if n > 0 {
      WorstIs(n - 1);
      assert n * (n + 1) == (n - 1) * n + 2 * n;
    }
  }

  /** Sorting n elements makes at most n(n+1)/2 - 1 comparisons. */
  lemma {:induction false} ComparisonsBounded(a: seq<int>, l: int, r: int)
    requires Within(a, l, r)
    ensures Comparisons(a, l, r) <= Worst(r + 1 - l)
    decreases r + 1 - l
  {
    if r > l {
      PartitionParts(a, l, r, a[r], l - 1, l);
      var (b, p) := Partition(a, a[r], l - 1, l, r);
      ComparisonsBounded(b, l, p - 1);
      ComparisonsBounded(Sort(b, l, p - 1), p + 1, r);
      WorstSplits(p - l, r - p);
    }
  }

  lemma {:induction false} SortedParts(a: seq<int>, l: int, r: int, more: int)
    requires 0 <= l <= more <= r + 1 <= |a| && l <= r && SortedRange(a, l, r)
    ensures Partition(a, a[r], more - 1, more, r) == (a, r)
    decreases r + 1 - more
  {
    if more <= r {
      assert a[more] <= a[r];
      assert Swap(a, more, more) == a;
      SortedParts(a, l, r, more + 1);
    }
  }

  /** The bound is met: a sorted range takes the most comparisons there can be. */
  lemma {:induction false} SortedWorst(a: seq<int>, l: int, r: int)
    requires Within(a, l, r) && SortedRange(a, l, r)
    ensures Sort(a, l, r) == a && Comparisons(a, l, r) == Worst(r + 1 - l)
    decreases r + 1 - l
  {
    if r > l {
      SortedParts(a, l, r, l);
      SortedWorst(a, l, r - 1);
      assert Comparisons(a, r + 1, r) == 0 && Sort(a, r + 1, r) == a;
      assert Gauss(r + 1 - l) == r + 1 - l + Gauss(r - l);
    }
  }

  lemma {:induction false} WorstSplits(p: nat, q: nat)
    requires p + q >= 1
    ensures p + q + 1 + Worst(p) + Worst(q) <= Worst(p + q + 1)
  {
    assert Gauss(p + q + 1) == p + q + 1 + Gauss(p + q);
    if q > 1 {
      assert Gauss(q) == q + Gauss(q - 1);
      WorstSplits(p, q - 1);
    } else if q == 1 {
      assert Gauss(p + q) == p + q + Gauss(p);
    }
  }

  // The code.

  lemma PartitionStep(a: seq<int>, b: seq<int>, pivot: int, less: int, more: int, r: int)
    requires |a| == |b| && 0 <= more <= r < |a|
    requires a[more] <= pivot ==> 0 <= less <= more && b == Swap(a, less, more)
    requires a[more] > pivot ==> -1 <= less < more && b == a
    ensures Partition(b, pivot, less, more + 1, r)
         == Partition(a, pivot, if a[more] <= pivot then less - 1 else less, more, r)
  {
  }

  method StdQsortInner(data: array<int>, leftBorder: int, rightBorder: int) returns (ghost comparisons: nat)
    requires 0 <= leftBorder <= rightBorder + 1 <= data.Length
    modifies data
    ensures data[..] == Sort(old(data[..]), leftBorder, rightBorder)
    ensures comparisons == Comparisons(old(data[..]), leftBorder, rightBorder)
    decreases rightBorder + 1 - leftBorder
  {
    comparisons := 0;
    if rightBorder > leftBorder {
      ghost var before := data[..];
      var pivotElem := data[rightBorder];
      ghost var whole := Partition(before, pivotElem, leftBorder - 1, leftBorder, rightBorder);
      var less := leftBorder - 1;
      for more := leftBorder to rightBorder + 1
        invariant leftBorder - 1 <= less < more
        invariant Partition(data[..], pivotElem, less, more, rightBorder) == whole
        invariant comparisons == more - leftBorder
      {
        comparisons := comparisons + 1;
        ghost var now := data[..];
        if data[more] <= pivotElem {
          less := less + 1;
          var tmpElem := data[less];
          data[less] := data[more];
          data[more] := tmpElem;
          assert data[..] == Swap(now, less, more);
        }
        PartitionStep(now, data[..], pivotElem, less, more, rightBorder);
      }
      assert (data[..], less) == whole;
      var left := StdQsortInner(data, leftBorder, less - 1);
      var right := StdQsortInner(data, less + 1, rightBorder);
      comparisons := comparisons + left + right;
    }
  }

  method StdQsort(data: array<int>) returns (ghost comparisons: nat)
    modifies data
    ensures forall i, j :: 0 <= i < j < data.Length ==> data[i] <= data[j]
    ensures multiset(data[..]) == multiset(old(data[..]))
    ensures data[..] == Sort(old(data[..]), 0, data.Length - 1)
    ensures data.Length > 0 ==> comparisons <= data.Length * (data.Length + 1) / 2 - 1
  {
    ghost var before := data[..];
    SortSorts(before, 0, data.Length - 1);
    SortRearranges(before, 0, data.Length - 1);
    ComparisonsBounded(before, 0, data.Length - 1);
    WorstIs(data.Length);
    comparisons := StdQsortInner(data, 0, data.Length - 1);
    assert before[0..data.Length] == before && data[..][0..data.Length] == data[..];
    assert forall i :: 0 <= i < data.Length ==> data[i] == data[..][i];
  }
}
