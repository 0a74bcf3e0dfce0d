/**
 * The tolerance-window binary search of `CuePointMonitor`: a probe `a[mid]` matches the
 * key when the key lies in `[a[mid] - range, a[mid] + range]`; otherwise the search
 * narrows exactly as an ordinary binary search does. A miss is reported as
 * `-(insertion point + 1)`.
 */
module RangeSearch {

  /** Tolerance of the windowed lookup, in milliseconds. */
  const RANGE_FACTOR: int := 1500

  /** `value` is within `range` of `key`. */
  predicate InWindow(value: int, key: int, range: int)
  {
    value - range <= key <= value + range
  }

  predicate SortedRange(s: seq<int>, from: int, to: int)
    requires 0 <= from <= to <= |s|
  {
    forall i, j :: from <= i < j < to ==> s[i] <= s[j]
  }

  predicate Sorted(s: seq<int>)
  {
    SortedRange(s, 0, |s|)
  }

  /** Some element of `s[from..to]` is within `range` of `key`. */
  predicate MatchIn(s: seq<int>, from: int, to: int, key: int, range: int)
    requires 0 <= from <= to <= |s|
  {
    exists j :: from <= j < to && InWindow(s[j], key, range)
  }

  /**
   * The search loop with `low` and `high` as parameters: the value returned once
   * `low..high` (both inclusive) is the remaining interval.
   */
  function Search(s: seq<int>, low: int, high: int, key: int, range: int): int
    requires 0 <= low <= high + 1 <= |s|
    decreases high - low + 1, 1
  {
    if low > high then -(low + 1)
    else Probe(s, low, high, (low + high) / 2, key, range)
  }

  /** One turn of the search loop, probing `s[mid]`: go right, go left, or found. */
  function Probe(s: seq<int>, low: int, high: int, mid: int, key: int, range: int): int
    requires 0 <= low <= mid <= high < |s|
    decreases high - low + 1, 0
  {
    if s[mid] + range < key then Search(s, mid + 1, high, key, range)
    else if s[mid] - range > key then Search(s, low, mid - 1, key, range)
    else mid
  }

  /** A hit is an index of the interval whose value is within `range` of the key; a miss
      encodes an insertion point inside `low..high+1`. No order is needed for this. */
  lemma {:induction false} SearchBounds(s: seq<int>, low: int, high: int, key: int, range: int)
    requires 0 <= low <= high + 1 <= |s|
    ensures var r := Search(s, low, high, key, range);
      (r >= 0 ==> low <= r <= high && InWindow(s[r], key, range)) &&
      (r < 0 ==> low <= -(r + 1) <= high + 1)
    decreases high - low + 1
  {
    if low <= high {
      var mid := (low + high) / 2;
      if s[mid] + range < key {
        SearchBounds(s, mid + 1, high, key, range);
      } else if s[mid] - range > key {
        SearchBounds(s, low, mid - 1, key, range);
      }
    }
  }

  /** The element just before the insertion point of a miss (if there is one in the
      interval) is more than `range` below the key. */
  lemma {:induction false} SearchMissBelowEdge(s: seq<int>, low: int, high: int, key: int, range: int)
    requires 0 <= low <= high + 1 <= |s|
    requires Search(s, low, high, key, range) < 0
    ensures var ins := -(Search(s, low, high, key, range) + 1);
      ins == low || (low < ins <= high + 1 && s[ins - 1] + range < key)
    decreases high - low + 1
  {
    if low <= high {
      var mid := (low + high) / 2;
      if s[mid] + range < key {
        SearchMissBelowEdge(s, mid + 1, high, key, range);
      } else if s[mid] - range > key {
        SearchMissBelowEdge(s, low, mid - 1, key, range);
      }
    }
  }

  /** The element at the insertion point of a miss (if there is one in the interval) is
      more than `range` above the key. */
  lemma {:induction false} SearchMissAboveEdge(s: seq<int>, low: int, high: int, key: int, range: int)
    requires 0 <= low <= high + 1 <= |s|
    requires Search(s, low, high, key, range) < 0
    ensures var ins := -(Search(s, low, high, key, range) + 1);
      ins == high + 1 || (low <= ins <= high && key < s[ins] - range)
    decreases high - low + 1
  {
    if low <= high {
      var mid := (low + high) / 2;
      if s[mid] + range < key {
        SearchMissAboveEdge(s, mid + 1, high, key, range);
      } else if s[mid] - range > key {
        SearchMissAboveEdge(s, low, mid - 1, key, range);
      }
    }
  }

  /**
   * On a sorted interval a miss splits it at the insertion point: every element before
   * it is more than `range` below the key, every element from it on more than `range`
   * above it.
   */
  lemma SearchMissSplits(s: seq<int>, low: int, high: int, key: int, range: int)
    requires 0 <= low <= high + 1 <= |s|
    requires SortedRange(s, low, high + 1)
    requires Search(s, low, high, key, range) < 0
    ensures var ins := -(Search(s, low, high, key, range) + 1);
      (forall j :: low <= j <= high && j < ins ==> s[j] + range < key) &&
      (forall j :: ins <= j <= high ==> key < s[j] - range)
  {
    var ins := -(Search(s, low, high, key, range) + 1);
    SearchBounds(s, low, high, key, range);
    SearchMissBelowEdge(s, low, high, key, range);
    SearchMissAboveEdge(s, low, high, key, range);
    forall j | low <= j < ins
      ensures s[j] + range < key
    {
      assert s[j] <= s[ins - 1];
    }
    forall j | ins <= j <= high
      ensures key < s[j] - range
    {
      assert s[ins] <= s[j];
    }
  }

  /** On a sorted interval the search finds an index exactly when some element of the
      interval is within `range` of the key, and a miss leaves no such element. */
  lemma SearchHitIff(s: seq<int>, low: int, high: int, key: int, range: int)
    requires 0 <= low <= high + 1 <= |s|
    requires SortedRange(s, low, high + 1)
    ensures Search(s, low, high, key, range) >= 0 <==> MatchIn(s, low, high + 1, key, range)
  {
    SearchBounds(s, low, high, key, range);
    if Search(s, low, high, key, range) < 0 {
      SearchMissSplits(s, low, high, key, range);
    }
  }

  /**
   * `binarySearchWithRange(a, fromIndex, toIndex, key, range_factor)` on `a[fromIndex..toIndex)`.
   * A non-negative result is an index within `range` of the key; on a sorted interval a
   * negative result means no element is within `range`, and `-(r + 1)` is the point that
   * separates the elements below the window from those above it.
   */
  method BinarySearchWithRange(a: array<int>, fromIndex: int, toIndex: int, key: int, rangeFactor: int)
    returns (r: int)
    requires 0 <= fromIndex <= toIndex <= a.Length
    ensures r == Search(a[..], fromIndex, toIndex - 1, key, rangeFactor)
    ensures r >= 0 ==> fromIndex <= r < toIndex && a[r] - rangeFactor <= key <= a[r] + rangeFactor
    ensures r < 0 ==> fromIndex <= -(r + 1) <= toIndex
    ensures SortedRange(a[..], fromIndex, toIndex) ==>
      (r >= 0 <==> exists j :: fromIndex <= j < toIndex && InWindow(a[j], key, rangeFactor))
    ensures SortedRange(a[..], fromIndex, toIndex) && r < 0 ==>
      (forall j :: fromIndex <= j < -(r + 1) ==> a[j] + rangeFactor < key) &&
      (forall j :: -(r + 1) <= j < toIndex ==> key < a[j] - rangeFactor)
  {
    var low := fromIndex;
    var high := toIndex - 1;
    while low <= high
      invariant fromIndex <= low <= high + 1 <= toIndex
      invariant Search(a[..], low, high, key, rangeFactor) == Search(a[..], fromIndex, toIndex - 1, key, rangeFactor)
    {
      var mid := (low + high) / 2;
      var midVal := a[mid];
      if midVal + rangeFactor < key {
        low := mid + 1;
      } else if midVal - rangeFactor > key {
        high := mid - 1;
      } else {
        r := mid;
        ProveSearchFacts(a[..], fromIndex, toIndex, key, rangeFactor);
        return;
      }
    }
    r := -(low + 1);
    ProveSearchFacts(a[..], fromIndex, toIndex, key, rangeFactor);
  }

  /** The facts of `BinarySearchWithRange`, stated for `Search` on `s[fromIndex..toIndex)`. */
  lemma ProveSearchFacts(s: seq<int>, fromIndex: int, toIndex: int, key: int, range: int)
    requires 0 <= fromIndex <= toIndex <= |s|
    ensures var r := Search(s, fromIndex, toIndex - 1, key, range);
      (r >= 0 ==> fromIndex <= r < toIndex && InWindow(s[r], key, range)) &&
      (r < 0 ==> fromIndex <= -(r + 1) <= toIndex) &&
      (SortedRange(s, fromIndex, toIndex) ==>
        (r >= 0 <==> exists j :: fromIndex <= j < toIndex && InWindow(s[j], key, range)) &&
        (r < 0 ==>
          (forall j :: fromIndex <= j < -(r + 1) ==> s[j] + range < key) &&
          (forall j :: -(r + 1) <= j < toIndex ==> key < s[j] - range)))
  {
    SearchBounds(s, fromIndex, toIndex - 1, key, range);
    if SortedRange(s, fromIndex, toIndex) {
      SearchHitIff(s, fromIndex, toIndex - 1, key, range);
      if Search(s, fromIndex, toIndex - 1, key, range) < 0 {
        SearchMissSplits(s, fromIndex, toIndex - 1, key, range);
      }
    }
  }

  /** `binarySerchWithRange`: the windowed search over the whole array. */
  method BinarySerchWithRange(a: array<int>, key: int) returns (r: int)
    ensures r == Search(a[..], 0, a.Length - 1, key, RANGE_FACTOR)
    ensures r >= 0 ==> r < a.Length && InWindow(a[r], key, RANGE_FACTOR)
    ensures r < 0 ==> -(r + 1) <= a.Length
    ensures Sorted(a[..]) ==> (r >= 0 <==> exists j :: 0 <= j < a.Length && InWindow(a[j], key, RANGE_FACTOR))
  {
    r := BinarySearchWithRange(a, 0, a.Length, key, RANGE_FACTOR);
  }

  /** `binarySerchExactly`: with a zero window a hit is an index holding the key, and on a
      sorted array a miss means the key does not occur. */
  method BinarySerchExactly(a: array<int>, key: int) returns (r: int)
    ensures r >= 0 ==> r < a.Length && a[r] == key
    ensures r < 0 ==> -(r + 1) <= a.Length
    ensures Sorted(a[..]) && r < 0 ==> key !in a[..]
    ensures Sorted(a[..]) && r < 0 ==>
      (forall j :: 0 <= j < -(r + 1) ==> a[j] < key) &&
      (forall j :: -(r + 1) <= j < a.Length ==> key < a[j])
  {
    r := BinarySearchWithRange(a, 0, a.Length, key, 0);
    if Sorted(a[..]) && r < 0 {
      forall j | 0 <= j < a.Length
        ensures a[j] != key
      {
        assert !InWindow(a[j], key, 0);
      }
    }
  }
}
