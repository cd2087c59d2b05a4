/** `async_sort`: every element's key is awaited first (through a task
    group, in element order); then a Hoare-partition quicksort reorders the
    data list and the key list in place, swapping both in lockstep. Keys
    are integers here. */
module AsyncSort {
  import opened Base
  import opened TaskGroups

  /** `cmp`: whether key `x` must come before key `y`. */
  predicate Before(x: int, y: int, reverse: bool) {
    if reverse then x > y else x < y
  }

  /** No key in `[lo, hi]` must come before a key to its left: ascending
      keys, or descending ones when `reverse` is set. */
  ghost predicate Sorted(v: seq<int>, lo: int, hi: int, reverse: bool) {
    forall a, b :: lo <= a < b <= hi && 0 <= a && b < |v| ==> !Before(v[b], v[a], reverse)
  }

  /** No key in `[lo, hi)` must come after `p`. */
  ghost predicate AtMost(v: seq<int>, lo: int, hi: int, p: int, reverse: bool) {
    forall k :: lo <= k < hi && 0 <= k < |v| ==> !Before(p, v[k], reverse)
  }

  /** No key in `[lo, hi)` must come before `p`. */
  ghost predicate AtLeast(v: seq<int>, lo: int, hi: int, p: int, reverse: bool) {
    forall k :: lo <= k < hi && 0 <= k < |v| ==> !Before(v[k], p, reverse)
  }

  /** The element/key pairs, position by position. */
  function Zip<T>(d: seq<T>, v: seq<int>): (z: seq<(T, int)>)
    requires |d| == |v|
    ensures |z| == |d| && forall k :: 0 <= k < |d| ==> z[k] == (d[k], v[k])
  {
    seq(|d|, k requires 0 <= k < |d| => (d[k], v[k]))
  }

  /** `d`/`v` is a reordering of `d0`/`v0` that kept every element with its
      key: the data, the keys and the pairs are the same multisets. */
  ghost predicate Permuted<T>(d: seq<T>, v: seq<int>, d0: seq<T>, v0: seq<int>) {
    && |d| == |v| == |d0| == |v0|
    && multiset(d) == multiset(d0)
    && multiset(v) == multiset(v0)
    && multiset(Zip(d, v)) == multiset(Zip(d0, v0))
  }

  lemma PermutedTrans<T>(d: seq<T>, v: seq<int>, d1: seq<T>, v1: seq<int>, d0: seq<T>, v0: seq<int>)
    requires Permuted(d, v, d1, v1) && Permuted(d1, v1, d0, v0)
    ensures Permuted(d, v, d0, v0)
  {
  }

  /** Swapping two positions in both lists keeps every element with its key. */
  lemma SwapPermuted<T>(d: seq<T>, v: seq<int>, i: int, j: int)
    requires |d| == |v| && 0 <= i < |d| && 0 <= j < |d|
    ensures Permuted(d[i := d[j]][j := d[i]], v[i := v[j]][j := v[i]], d, v)
  {
    var z := Zip(d, v);
    assert Zip(d[i := d[j]][j := d[i]], v[i := v[j]][j := v[i]]) == z[i := z[j]][j := z[i]];
  }

  /** A reordering that leaves everything outside `[lo, hi)` alone reorders
      the keys inside it. */
  lemma RangeValues(v: seq<int>, v0: seq<int>, lo: int, hi: int)
    requires |v| == |v0| && 0 <= lo <= hi <= |v|
    requires multiset(v) == multiset(v0)
    requires v[..lo] == v0[..lo] && v[hi..] == v0[hi..]
    ensures multiset(v[lo..hi]) == multiset(v0[lo..hi])
  {
    assert v == v[..lo] + v[lo..hi] + v[hi..];
    assert v0 == v0[..lo] + v0[lo..hi] + v0[hi..];
    assert multiset(v) == multiset(v[..lo]) + multiset(v[lo..hi]) + multiset(v[hi..]);
    assert multiset(v0) == multiset(v0[..lo]) + multiset(v0[lo..hi]) + multiset(v0[hi..]);
    assert multiset(v[lo..hi]) == multiset(v) - multiset(v[..lo]) - multiset(v[hi..]);
  }

  /** A bound on every key of a range survives reordering that range. */
  lemma BoundsTransfer(v: seq<int>, v0: seq<int>, lo: int, hi: int, p: int, reverse: bool)
    requires 0 <= lo <= hi <= |v| == |v0|
    requires multiset(v[lo..hi]) == multiset(v0[lo..hi])
    ensures AtMost(v0, lo, hi, p, reverse) ==> AtMost(v, lo, hi, p, reverse)
    ensures AtLeast(v0, lo, hi, p, reverse) ==> AtLeast(v, lo, hi, p, reverse)
  {
    forall k | lo <= k < hi
      ensures exists k0 :: lo <= k0 < hi && v0[k0] == v[k]
    {
      assert v[k] == v[lo..hi][k - lo];
      assert v[k] in multiset(v0[lo..hi]);
      var k1 :| 0 <= k1 < hi - lo && v0[lo..hi][k1] == v[k];
      assert v0[lo + k1] == v[k];
    }
  }

  lemma SameBeyond<T>(a: seq<T>, b: seq<T>, m: int, n: int)
    requires 0 <= m <= n <= |a| == |b| && a[m..] == b[m..]
    ensures a[n..] == b[n..]
  {
    assert a[n..] == a[m..][n - m..];
    assert b[n..] == b[m..][n - m..];
  }

  lemma SameBefore<T>(a: seq<T>, b: seq<T>, m: int, n: int)
    requires 0 <= m <= n <= |a| == |b| && a[..n] == b[..n]
    ensures a[..m] == b[..m]
  {
    assert a[..m] == a[..n][..m];
    assert b[..m] == b[..n][..m];
  }

  /** Two sorted halves, split around a pivot, make a sorted range. */
  lemma CombineSorted(v: seq<int>, left: int, j: int, right: int, p: int, reverse: bool)
    requires 0 <= left <= j < right < |v|
    requires Sorted(v, left, j, reverse) && Sorted(v, j + 1, right, reverse)
    requires AtMost(v, left, j + 1, p, reverse) && AtLeast(v, j + 1, right + 1, p, reverse)
    ensures Sorted(v, left, right, reverse)
  {
  }

  /** `d`/`v` is a reordering of `d0`/`v0` that moved nothing outside
      `[left, right]`. */
  ghost predicate Reordered<T>(d: seq<T>, v: seq<int>, d0: seq<T>, v0: seq<int>, left: int, right: int) {
    && Permuted(d, v, d0, v0)
    && 0 <= left <= right + 1 <= |d|
    && d[..left] == d0[..left] && d[right + 1..] == d0[right + 1..]
    && v[..left] == v0[..left] && v[right + 1..] == v0[right + 1..]
  }

  lemma ReorderedRefl<T>(d: seq<T>, v: seq<int>, left: int, right: int)
    requires |d| == |v| && 0 <= left <= right + 1 <= |d|
    ensures Reordered(d, v, d, v, left, right)
  {
  }

  /** A reordering inside `[lo, hi]` after a reordering inside the
      enclosing `[left, right]` is a reordering inside `[left, right]`. */
  lemma ReorderedTrans<T>(d: seq<T>, v: seq<int>, d1: seq<T>, v1: seq<int>, d0: seq<T>, v0: seq<int>,
                          left: int, right: int, lo: int, hi: int)
    requires Reordered(d, v, d1, v1, lo, hi) && Reordered(d1, v1, d0, v0, left, right)
    requires left <= lo && hi <= right
    ensures Reordered(d, v, d0, v0, left, right)
  {
    SameBefore(d, d1, left, lo);
    SameBefore(v, v1, left, lo);
    SameBeyond(d, d1, hi + 1, right + 1);
    SameBeyond(v, v1, hi + 1, right + 1);
  }

  lemma SwapReordered<T>(d: seq<T>, v: seq<int>, d0: seq<T>, v0: seq<int>, left: int, right: int, i: int, j: int)
    requires Reordered(d, v, d0, v0, left, right) && left <= i <= right && left <= j <= right
    ensures Reordered(d[i := d[j]][j := d[i]], v[i := v[j]][j := v[i]], d0, v0, left, right)
  {
    SwapPermuted(d, v, i, j);
    var d1, v1 := d[i := d[j]][j := d[i]], v[i := v[j]][j := v[i]];
    assert d1[..left] == d[..left] && v1[..left] == v[..left];
    assert d1[right + 1..] == d[right + 1..] && v1[right + 1..] == v[right + 1..];
  }

  /** Swaps positions `i` and `j` of both lists, inside a range that is
      being reordered. */
  method Swap<T>(data: array<T>, value: array<int>, i: int, j: int,
                 ghost d0: seq<T>, ghost v0: seq<int>, ghost left: int, ghost right: int)
    requires data.Length == value.Length && left <= i <= right && left <= j <= right
    requires data as object != value as object
    requires Reordered(data[..], value[..], d0, v0, left, right)
    modifies data, value
    ensures data[..] == old(data[..])[i := old(data[j])][j := old(data[i])]
    ensures value[..] == old(value[..])[i := old(value[j])][j := old(value[i])]
    ensures Reordered(data[..], value[..], d0, v0, left, right)
  {
    SwapReordered(data[..], value[..], d0, v0, left, right, i, j);
    data[i], data[j] := data[j], data[i];
    value[i], value[j] := value[j], value[i];
  }

  /** The upward scan: moves past keys that come before the pivot. It
      stops at the latest at `stop`, whose key does not. */
  method ScanUp(value: array<int>, i: int, mid: int, reverse: bool, ghost left: int, ghost stop: int)
    returns (k: int)
    requires 0 <= left <= i <= stop < value.Length && !Before(value[stop], mid, reverse)
    requires AtMost(value[..], left, i, mid, reverse)
    ensures i <= k <= stop && !Before(value[k], mid, reverse)
    ensures AtMost(value[..], left, k, mid, reverse)
  {
    k := i;
    while Before(value[k], mid, reverse)
      invariant i <= k <= stop
      invariant AtMost(value[..], left, k, mid, reverse)
      decreases stop - k
    {
      k := k + 1;
    }
  }

  /** The downward scan: moves past keys that come after the pivot. It
      stops at the earliest at `stop`, whose key does not. */
  method ScanDown(value: array<int>, j: int, mid: int, reverse: bool, ghost right: int, ghost stop: int)
    returns (k: int)
    requires 0 <= stop <= j <= right < value.Length && !Before(mid, value[stop], reverse)
    requires AtLeast(value[..], j + 1, right + 1, mid, reverse)
    ensures stop <= k <= j && !Before(mid, value[k], reverse)
    ensures AtLeast(value[..], k + 1, right + 1, mid, reverse)
  {
    k := j;
    while Before(mid, value[k], reverse)
      invariant stop <= k <= j
      invariant AtLeast(value[..], k + 1, right + 1, mid, reverse)
      decreases k - stop
    {
      k := k - 1;
    }
  }

  /** The state of the partition loop at its head, over the keys `v`:
      the scans have stayed inside `[left, right]`, keys left of `i` do not
      come after the pivot, keys right of `j` do not come before it, and
      once the indices have met, `j` splits the range into two non-empty
      parts. Before the first round the pivot still sits at `idx`. */
  ghost predicate PartState(v: seq<int>, left: int, right: int, idx: int, mid: int, i: int, j: int, reverse: bool) {
    && 0 <= left <= idx < right < |v|
    && left - 1 <= i && j <= right + 1
    && (i == left - 1 <==> j == right + 1)
    && (i == left - 1 ==> v[idx] == mid)
    && (i >= left ==> j <= right)
    && AtMost(v, left, i, mid, reverse)
    && AtLeast(v, j + 1, right + 1, mid, reverse)
    && (left <= i < j ==> !Before(mid, v[i], reverse) && !Before(v[j], mid, reverse))
    && (i >= j ==> left <= j < right && AtMost(v, left, j + 1, mid, reverse))
  }

  /** One round of the partition loop, from the state before the scans to
      the state after them (and after the swap when the indices have not
      met). */
  lemma PartStep(v: seq<int>, left: int, right: int, idx: int, mid: int, reverse: bool,
                 i0: int, j0: int, i: int, j: int)
    requires PartState(v, left, right, idx, mid, i0, j0, reverse) && i0 < j0
    requires i0 + 1 <= i <= (if i0 == left - 1 then idx else j0)
    requires (if i0 == left - 1 then idx else i0) <= j <= j0 - 1
    requires !Before(v[i], mid, reverse) && AtMost(v, left, i, mid, reverse)
    requires !Before(mid, v[j], reverse) && AtLeast(v, j + 1, right + 1, mid, reverse)
    ensures i >= j ==> PartState(v, left, right, idx, mid, i, j, reverse)
    ensures i < j ==> PartState(v[i := v[j]][j := v[i]], left, right, idx, mid, i, j, reverse)
  {
    if i < j {
      var w := v[i := v[j]][j := v[i]];
      assert AtMost(w, left, i, mid, reverse) by {
        forall k | left <= k < i ensures w[k] == v[k] { }
      }
      assert AtLeast(w, j + 1, right + 1, mid, reverse) by {
        forall k | j + 1 <= k < right + 1 ensures w[k] == v[k] { }
      }
    }
  }

  /** The partition step of `quick_sort` on `[left, right]`, around the key
      at the floor middle. Both scans stay inside the range; afterwards no
      key in `[left, j]` comes after the pivot, no key in `[j+1, right]`
      comes before it, and both parts are non-empty. */
  method Partition<T>(data: array<T>, value: array<int>, left: int, right: int, reverse: bool)
    returns (j: int, ghost pivot: int)
    requires data.Length == value.Length && 0 <= left < right < value.Length
    requires data as object != value as object
    modifies data, value
    ensures left <= j < right
    ensures AtMost(value[..], left, j + 1, pivot, reverse)
    ensures AtLeast(value[..], j + 1, right + 1, pivot, reverse)
    ensures Reordered(data[..], value[..], old(data[..]), old(value[..]), left, right)
  {
    ghost var d0, v0 := data[..], value[..];
    var idx := (left + right) / 2;
    var mid := value[idx];
    pivot := mid;
    var i := left - 1;
    j := right + 1;
    ReorderedRefl(d0, v0, left, right);
    while i < j
      invariant PartState(value[..], left, right, idx, mid, i, j, reverse)
      invariant Reordered(data[..], value[..], d0, v0, left, right)
      decreases j - i
    {
      ghost var v, i0, j0 := value[..], i, j;
      // the pivot, or the keys just swapped to `i` and `j`, stop the scans
      ghost var stopUp := if i == left - 1 then idx else j;
      ghost var stopDown := if i == left - 1 then idx else i;
      i := ScanUp(value, i + 1, mid, reverse, left, stopUp);
      j := ScanDown(value, j - 1, mid, reverse, right, stopDown);
      PartStep(v, left, right, idx, mid, reverse, i0, j0, i, j);
      if i < j {
        Swap(data, value, i, j, d0, v0, left, right);
      }
    }
  }

  /** `d`/`v` reorders `d0`/`v0` inside `[left, right]` only, and the keys
      of that range are sorted. */
  ghost predicate SortedReordering<T>(d: seq<T>, v: seq<int>, d0: seq<T>, v0: seq<int>,
                                      left: int, right: int, reverse: bool) {
    Sorted(v, left, right, reverse) && Reordered(d, v, d0, v0, left, right)
  }

  /** `quick_sort(left, right)`: sorts the keys of `[left, right]`, moving
      each element with its key and touching nothing outside the range.
      Ranges with `left >= right` are left as they are. */
  method QuickSort<T>(data: array<T>, value: array<int>, left: int, right: int, reverse: bool)
    requires data.Length == value.Length && 0 <= left <= right + 1 <= value.Length
    requires data as object != value as object
    modifies data, value
    ensures SortedReordering(data[..], value[..], old(data[..]), old(value[..]), left, right, reverse)
    decreases right - left
  {
    if left >= right {
      ReorderedRefl(data[..], value[..], left, right);
      return;
    }
    ghost var d0, v0 := data[..], value[..];
    var j, pivot := Partition(data, value, left, right, reverse);
    ghost var d1, v1 := data[..], value[..];
    QuickSort(data, value, left, j, reverse);
    ghost var d2, v2 := data[..], value[..];
    QuickSort(data, value, j + 1, right, reverse);
    QuickSortSteps(data[..], value[..], d2, v2, d1, v1, d0, v0, left, j, right, pivot, reverse);
  }

  /** Partition followed by the two recursive sorts sorts `[left, right]`
      and only reorders it. */
  lemma QuickSortSteps<T>(d3: seq<T>, v3: seq<int>, d2: seq<T>, v2: seq<int>, d1: seq<T>, v1: seq<int>,
                          d0: seq<T>, v0: seq<int>, left: int, j: int, right: int, pivot: int, reverse: bool)
    requires 0 <= left <= j < right < |v1|
    requires Reordered(d1, v1, d0, v0, left, right)
    requires AtMost(v1, left, j + 1, pivot, reverse) && AtLeast(v1, j + 1, right + 1, pivot, reverse)
    requires SortedReordering(d2, v2, d1, v1, left, j, reverse)
    requires SortedReordering(d3, v3, d2, v2, j + 1, right, reverse)
    ensures SortedReordering(d3, v3, d0, v0, left, right, reverse)
  {
    SameBefore(v3, v2, j + 1, j + 1);
    SortedHalves(d3, v3, d2, v2, d1, v1, left, j, right, pivot, reverse);
    ReorderedTrans(d3, v3, d2, v2, d1, v1, left, right, j + 1, right);
    ReorderedTrans(d2, v2, d1, v1, d0, v0, left, right, left, j);
    ReorderedTrans(d3, v3, d2, v2, d0, v0, left, right, left, right);
  }

  /** After partitioning and sorting both parts in turn, the whole range
      is sorted: each part keeps its pivot bound and the second sort does
      not disturb the first part. */
  lemma SortedHalves<T>(d3: seq<T>, v3: seq<int>, d2: seq<T>, v2: seq<int>, d1: seq<T>, v1: seq<int>,
                        left: int, j: int, right: int, pivot: int, reverse: bool)
    requires 0 <= left <= j < right < |v1|
    requires AtMost(v1, left, j + 1, pivot, reverse) && AtLeast(v1, j + 1, right + 1, pivot, reverse)
    requires Reordered(d2, v2, d1, v1, left, j) && Sorted(v2, left, j, reverse)
    requires Reordered(d3, v3, d2, v2, j + 1, right) && Sorted(v3, j + 1, right, reverse)
    ensures Sorted(v3, left, right, reverse)
  {
    LeftPartKept(v3, v2, v1, left, j, right, pivot, reverse);
    RangeValues(v3, v2, j + 1, right + 1);
    BoundsTransfer(v3, v2, j + 1, right + 1, pivot, reverse);
    CombineSorted(v3, left, j, right, pivot, reverse);
  }

  /** The left part after both recursive sorts: still sorted, still bounded
      by the pivot; and the right part still bounded before the second sort. */
  lemma LeftPartKept(v3: seq<int>, v2: seq<int>, v1: seq<int>, left: int, j: int, right: int, pivot: int, reverse: bool)
    requires 0 <= left <= j < right < |v1| == |v2| == |v3|
    requires multiset(v2) == multiset(v1) && v2[..left] == v1[..left] && v2[j + 1..] == v1[j + 1..]
    requires v3[..j + 1] == v2[..j + 1]
    requires AtMost(v1, left, j + 1, pivot, reverse) && AtLeast(v1, j + 1, right + 1, pivot, reverse)
    requires Sorted(v2, left, j, reverse)
    ensures Sorted(v3, left, j, reverse) && AtMost(v3, left, j + 1, pivot, reverse)
    ensures AtLeast(v2, j + 1, right + 1, pivot, reverse)
  {
    RangeValues(v2, v1, left, j + 1);
    BoundsTransfer(v2, v1, left, j + 1, pivot, reverse);
    forall k | j + 1 <= k < right + 1 ensures v2[k] == v1[k] {
      assert v2[k] == v2[j + 1..][k - j - 1];
    }
    forall k | 0 <= k < j + 1 ensures v3[k] == v2[k] {
      assert v3[k] == v3[..j + 1][k];
    }
  }

  /** The returned keys, in element order. */
  function KeyValues(keys: seq<Outcome<int>>): (vs: seq<int>)
    requires AllReturned(keys)
    ensures |vs| == |keys| && forall i :: 0 <= i < |keys| ==> vs[i] == keys[i].value
  {
    seq(|keys|, i requires 0 <= i < |keys| => keys[i].value)
  }

  /** `async_sort`. `keys[i]` is how awaiting `key(data[i])` ends. Every
      key is awaited, in element order, before the first comparison; if
      one raises, the first such exception propagates and `data` is
      untouched. Otherwise the same list object is returned, reordered so
      that its keys are sorted, every element still carrying its own key. */
  method AsyncSortList<T>(data: array<T>, keys: seq<Outcome<int>>, reverse: bool)
    returns (r: Result<array<T>, Exc>, ghost sortedKeys: seq<int>)
    requires |keys| == data.Length
    modifies data
    ensures r.Err? ==>
      (data[..] == old(data[..]) && !AllReturned(keys) && r.error == keys[FirstRaised(keys)].exc)
    ensures r.Ok? ==>
      (r.value == data && AllReturned(keys)
       && Permuted(data[..], sortedKeys, old(data[..]), KeyValues(keys))
       && Sorted(sortedKeys, 0, data.Length - 1, reverse))
  {
    ghost var d0 := data[..];
    var group := new TaskGroup(None, -1);
    for i := 0 to data.Length
      invariant group.coros == keys[..i] && group.batchSize == -1
      modifies group
    {
      group.Append(keys[i]);
    }
    assert keys[..data.Length] == keys;
    var got, created, peak := group.Get();
    JoinAllSpec(keys);
    if got.Err? {
      return Err(got.error), [];
    }
    var vals := got.value;
    var value := new int[data.Length](k requires 0 <= k < data.Length reads {} => vals[k]);
    assert value[..] == KeyValues(keys);
    assert data[..] == d0;
    QuickSort(data, value, 0, data.Length - 1, reverse);
    assert Reordered(data[..], value[..], d0, KeyValues(keys), 0, data.Length - 1);
    r, sortedKeys := Ok(data), value[..];
  }
}
