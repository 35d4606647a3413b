/** Locating the pair of adjacent knots that brackets a query point. */
module IntervalIndex {
  import opened Wrappers

  /** The index pair `(left, right)` returned by both bracketing routines. */
  datatype Bracket = Bracket(left: int, right: int)

  /** What the library search reports: `Found(k)` for an exact match at index k,
      `NotFound(k)` with k the insertion point otherwise. */
  datatype SearchOutcome = Found(index: int) | NotFound(index: int)

  predicate StrictlyIncreasing(x: seq<real>) {
    forall i, j :: 0 <= i < j < |x| ==> x[i] < x[j]
  }

  predicate Sorted(x: seq<real>) {
    forall i, j :: 0 <= i < j < |x| ==> x[i] <= x[j]
  }

  // ---------------------------------------------------------------------------
  // Linear scan
  // ---------------------------------------------------------------------------

  /** The bracket the linear scan settles on: `right` is the first index in 1..n-2
      whose knot lies strictly above the query, or n-1 when there is none. */
  predicate LinearScanResult(x: seq<real>, xval: real, b: Bracket) {
    && 2 <= |x|
    && 1 <= b.right <= |x| - 1
    && b.left == b.right - 1
    && (forall j :: 1 <= j < b.right ==> x[j] <= xval)
    && (b.right < |x| - 1 ==> xval < x[b.right])
  }

  /** The linear scan: fails (the source panics) on fewer than two knots, and needs
      no ordering of the knots. */
  method IntervalBracket(x: seq<real>, xval: real) returns (r: Option<Bracket>)
    ensures r.None? <==> |x| < 2
    ensures r.Some? ==> LinearScanResult(x, xval, r.value)
  {
    var n := |x|;
    if n < 2 {
      return None;
    }
    for i := 1 to n - 1
      invariant forall j :: 1 <= j < i ==> x[j] <= xval
    {
      if xval < x[i] {
        return Some(Bracket(i - 1, i));
      }
    }
    return Some(Bracket(n - 2, n - 1));
  }

  /** The linear scan's result is determined by the knots and the query. */
  lemma LinearScanResultUnique(x: seq<real>, xval: real, b1: Bracket, b2: Bracket)
    requires LinearScanResult(x, xval, b1) && LinearScanResult(x, xval, b2)
    ensures b1 == b2
  {
  }

  // ---------------------------------------------------------------------------
  // Binary search
  // ---------------------------------------------------------------------------

  /** The number of leading knots that lie below `xval`; on sorted knots this is the
      first index whose knot is at least `xval` (the lower bound). */
  function LowerBound(x: seq<real>, xval: real): (k: int)
    ensures 0 <= k <= |x|
    ensures forall j :: 0 <= j < k ==> x[j] < xval
    ensures k < |x| ==> xval <= x[k]
  {
    if |x| == 0 || xval <= x[0] then 0 else 1 + LowerBound(x[1..], xval)
  }

  /** On sorted knots the lower bound is the only split point between the knots
      below `xval` and those at or above it. */
  lemma LowerBoundUnique(x: seq<real>, xval: real, k: int)
    requires 0 <= k <= |x|
    requires forall j :: 0 <= j < k ==> x[j] < xval
    requires forall j :: k <= j < |x| ==> xval <= x[j]
    ensures k == LowerBound(x, xval)
  {
    var lb := LowerBound(x, xval);
    assert k < |x| ==> xval <= x[k];
  }

  /** The outcome of the library's binary search on sorted knots, with a lower-bound
      convention: an exact match reports its first occurrence. */
  function SearchResult(x: seq<real>, xval: real): (r: SearchOutcome)
    requires Sorted(x)
    ensures 0 <= r.index <= |x|
    ensures forall j :: 0 <= j < r.index ==> x[j] < xval
    ensures forall j :: r.index <= j < |x| ==> xval <= x[j]
    ensures r.Found? <==> xval in x
    ensures r.Found? ==> r.index < |x| && x[r.index] == xval
  {
    var k := LowerBound(x, xval);
    assert forall j :: k <= j < |x| ==> x[k] <= x[j];
    if k < |x| && x[k] == xval then Found(k) else NotFound(k)
  }

  /** The library search, written as a lo/hi loop that keeps the knots below `lo`
      under the query and those from `hi` on at or above it. */
  method BinarySearchBy(x: seq<real>, xval: real) returns (r: SearchOutcome)
    requires Sorted(x)
    ensures r == SearchResult(x, xval)
  {
    var lo, hi := 0, |x|;
    while lo < hi
      invariant 0 <= lo <= hi <= |x|
      invariant forall j :: 0 <= j < lo ==> x[j] < xval
      invariant forall j :: hi <= j < |x| ==> xval <= x[j]
      decreases hi - lo
    {
      var mid := lo + (hi - lo) / 2;
      if x[mid] < xval {
        lo := mid + 1;
      } else {
        hi := mid;
      }
    }
    LowerBoundUnique(x, xval, lo);
    if lo < |x| && x[lo] == xval {
      r := Found(lo);
    } else {
      r := NotFound(lo);
    }
  }

  /** The bracketing routine used by the evaluator: clamps queries at or beyond either
      end to the first or last interval and otherwise searches. */
  function IntervalBracketBinarySearch(x: seq<real>, xval: real): (r: Bracket)
    requires 2 <= |x| && StrictlyIncreasing(x)
    ensures 0 <= r.left && r.right == r.left + 1 && r.right <= |x| - 1
    ensures xval <= x[0] ==> r == Bracket(0, 1)
    ensures x[|x| - 1] <= xval ==> r == Bracket(|x| - 2, |x| - 1)
    ensures x[0] < xval < x[|x| - 1] ==> x[r.left] < xval <= x[r.right]
    ensures forall k :: 1 <= k < |x| - 1 && x[k] == xval ==> r == Bracket(k - 1, k)
  {
    var n := |x|;
    if xval <= x[0] then
      Bracket(0, 1)
    else if xval >= x[n - 1] then
      Bracket(n - 2, n - 1)
    else
      match SearchResult(x, xval)
      case Found(index) =>
        if index == 0 then Bracket(0, 1)
        else if index == n - 1 then Bracket(n - 2, n - 1)
        else Bracket(index - 1, index)
      case NotFound(index) =>
        Bracket(index - 1, index)
  }

  /** For a query strictly inside the knot range the search lands in 1..n-1, and an
      exact match in 1..n-2, so the search's two end-of-range branches never run. */
  lemma SearchIsInterior(x: seq<real>, xval: real)
    requires 2 <= |x| && StrictlyIncreasing(x) && x[0] < xval < x[|x| - 1]
    ensures 1 <= SearchResult(x, xval).index <= |x| - 1
    ensures SearchResult(x, xval).Found? ==> SearchResult(x, xval).index <= |x| - 2
  {
  }

  /** The two routines agree on every query except an interior knot x[k], where the
      linear scan gives (k, k+1) and the binary search (k-1, k). */
  lemma LinearAgreesWithBinary(x: seq<real>, xval: real, b: Bracket)
    requires StrictlyIncreasing(x) && LinearScanResult(x, xval, b)
    ensures (forall k :: 1 <= k < |x| - 1 ==> x[k] != xval) ==> IntervalBracketBinarySearch(x, xval) == b
    ensures forall k :: 1 <= k < |x| - 1 && x[k] == xval ==>
              b == Bracket(k, k + 1) && IntervalBracketBinarySearch(x, xval) == Bracket(k - 1, k)
  {
    var n := |x|;
    var r := IntervalBracketBinarySearch(x, xval);
    if xval <= x[0] {
    } else if x[n - 1] <= xval {
    } else if k :| 1 <= k < n - 1 && x[k] == xval {
      assert xval < x[k + 1];
      forall k' | 1 <= k' < n - 1 && x[k'] == xval ensures k' == k {
      }
    } else {
      assert xval < x[r.right];
      assert LinearScanResult(x, xval, r) by {
        forall j | 1 <= j < r.right ensures x[j] <= xval {
          assert x[j] <= x[r.left];
        }
      }
      LinearScanResultUnique(x, xval, r, b);
    }
  }
}
