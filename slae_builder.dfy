/**
 * What the SLAE builders share: the choice of global-matrix implementation
 * and two index searches over integer arrays, a binary lower-bound search
 * `QFind` and a linear scan `LFind`.
 */
module SlaeBuilderShared {
  import opened Wrappers

  /** How a builder assembles the global matrix. */
  datatype GlobalMatrixImplType = OpenCL | OpenCLV2 | Host | HostParallel | HostV2

  /** Why a search fails: `Quick search failed`, or a read outside the array. */
  datatype SearchError = NotFound | IndexOutOfRange

  /** `s[lo..hi)` is in ascending order. */
  ghost predicate Sorted(s: seq<int>, lo: int, hi: int)
  {
    forall a, b :: lo <= a < b < hi && 0 <= a && b < |s| ==> s[a] <= s[b]
  }

  /** The first position in `[lo, hi)` whose value is not below `x`, or `hi`: a linear reference. */
  ghost function LowerBound(s: seq<int>, lo: int, hi: int, x: int): (p: int)
    requires 0 <= lo <= hi <= |s|
    ensures lo <= p <= hi
    ensures forall k :: lo <= k < p ==> s[k] < x
    ensures p < hi ==> s[p] >= x
    decreases hi - lo
  {
    if lo == hi || s[lo] >= x then lo else LowerBound(s, lo + 1, hi, x)
  }

  /** The final check of `QFind` at position `p`. */
  function Probe(s: seq<int>, p: int, x: int): Result<int, SearchError>
  {
    if p < 0 || p >= |s| then Failure(IndexOutOfRange)
    else if s[p] != x then Failure(NotFound)
    else Success(p)
  }

  /** In a sorted range, everything from the lower bound on is at least `x`. */
  lemma LowerBoundSplits(s: seq<int>, lo: int, hi: int, x: int)
    requires 0 <= lo <= hi <= |s| && Sorted(s, lo, hi)
    ensures forall k :: LowerBound(s, lo, hi, x) <= k < hi ==> s[k] >= x
  {
    var p := LowerBound(s, lo, hi, x);
    forall k | p <= k < hi
      ensures s[k] >= x
    {
      assert s[p] <= s[k];
    }
  }

  /** A split point of a range into `< x` and `>= x` is the lower bound. */
  lemma {:induction false} LowerBoundUnique(s: seq<int>, lo: int, hi: int, x: int, p: int)
    requires 0 <= lo <= p <= hi <= |s|
    requires forall k :: lo <= k < p ==> s[k] < x
    requires forall k :: p <= k < hi ==> s[k] >= x
    ensures LowerBound(s, lo, hi, x) == p
    decreases p - lo
  {
    if lo < p {
      LowerBoundUnique(s, lo + 1, hi, x, p);
    }
  }

  /**
   * In a sorted range that holds `x`, the lower bound is its leftmost
   * occurrence; in one that does not, the value there (if any) differs from `x`.
   */
  lemma LowerBoundFinds(s: seq<int>, lo: int, hi: int, x: int)
    requires 0 <= lo <= hi <= |s| && Sorted(s, lo, hi)
    ensures var p := LowerBound(s, lo, hi, x);
      && ((exists k :: lo <= k < hi && s[k] == x) ==> p < hi && s[p] == x)
      && ((forall k :: lo <= k < hi ==> s[k] != x) ==> p == hi || s[p] != x)
  {
    var p := LowerBound(s, lo, hi, x);
    LowerBoundSplits(s, lo, hi, x);
    if exists k :: lo <= k < hi && s[k] == x {
      var k :| lo <= k < hi && s[k] == x;
      assert p <= k;
      assert s[p] <= s[k];
    }
  }

  /** C#'s `/ 2` on `int`: the quotient truncated toward zero. */
  function Half(n: int): (h: int)
    ensures n >= 0 ==> 0 <= n - 2 * h <= 1
    ensures n < 0 ==> -1 <= n - 2 * h <= 0
  {
    if n >= 0 then n / 2 else -((-n) / 2)
  }

  /**
   * One pass of the `QFind` loop on the bounds `(beg, end)`: the new bounds,
   * or `None` when the probe `where[mid]` is outside the array.
   */
  function SearchStep(s: seq<int>, beg: int, end: int, what: int): Option<(int, int)>
  {
    var mid := Half(beg + end);
    if mid < 0 || mid >= |s| then None
    else if what > s[mid] then Some((mid + 1, end))
    else Some((beg, mid))
  }

  /** A pass of the loop narrows the bounds and keeps what the loop knows about both sides. */
  lemma SearchStepKeeps(s: seq<int>, start: int, end: int, beg: int, hi: int, what: int)
    requires 0 <= start <= beg < hi <= end && SearchStep(s, beg, hi, what).Some?
    ensures var (b, h) := SearchStep(s, beg, hi, what).value;
      && start <= b <= h <= end && h - b < hi - beg
      && (end <= |s| && Sorted(s, start, end) && (forall k :: start <= k < beg ==> s[k] < what) ==>
            forall k :: start <= k < b ==> s[k] < what)
      && (end <= |s| && Sorted(s, start, end) && (forall k :: hi <= k < end ==> s[k] >= what) ==>
            forall k :: h <= k < end ==> s[k] >= what)
  {
    var mid := Half(beg + hi);
    assert beg <= mid < hi;
  }

  /**
   * An `end` past the array need not be read: on `[1, 2, 3, 4]`, searching
   * for 1 from `(0, 5)` probes indices 2, 1 and 0 and stops at `(0, 0)`.
   */
  lemma SearchPastEnd()
    ensures SearchStep([1, 2, 3, 4], 0, 5, 1) == Some((0, 2))
    ensures SearchStep([1, 2, 3, 4], 0, 2, 1) == Some((0, 1))
    ensures SearchStep([1, 2, 3, 4], 0, 1, 1) == Some((0, 0))
  {
  }

  /**
   * With a negative `start` the loop can stop making progress: on `[5]`,
   * searching for 3 from `(-1, 1)` reaches `(-1, 0)`, where `(-1 + 0) / 2`
   * truncates to 0, the probe keeps `end` at 0 and the bounds never change
   * again although `beg < end`.
   */
  lemma SearchStuck()
    ensures SearchStep([5], -1, 1, 3) == Some((-1, 0))
    ensures SearchStep([5], -1, 0, 3) == Some((-1, 0))
  {
    assert Half(-1) == 0;
  }

  /**
   * `QFind`: binary search for `what` in `where[start..end)`. The loop keeps
   * the values left of `beg` below `what` and those from `end` on at least
   * `what` (for a sorted range), so it stops at the lower bound; the value
   * there is then checked, which reads `where[end]` when `what` is larger than
   * every value of the range. An `end` past the array is accepted: the search
   * then succeeds, fails, or probes outside the array depending on the values
   * it meets.
   */
  method QFind(where: array<int>, start: int, end: int, what: int) returns (r: Result<int, SearchError>)
    requires 0 <= start
    ensures r.Success? ==> 0 <= r.value < where.Length && where[r.value] == what
    ensures r.Success? ==> start <= r.value && (start < end ==> r.value <= end)
    ensures start >= end ==> r == Probe(where[..], start, what)
    ensures end <= where.Length && start < end && Sorted(where[..], start, end) ==>
      r == Probe(where[..], LowerBound(where[..], start, end, what), what)
    ensures end <= where.Length && start < end && Sorted(where[..], start, end) && (exists k :: start <= k < end && where[k] == what) ==>
      r.Success? && start <= r.value < end && forall k :: start <= k < r.value ==> where[k] != what
    ensures end <= where.Length && start < end && Sorted(where[..], start, end) && (forall k :: start <= k < end ==> where[k] != what) ==>
      r.Success? ==> r.value == end
  {
    var s := where[..];
    var beg := start;
    var hi := end;
    while beg < hi
      invariant start <= beg && (beg <= hi <= end || (beg == start && hi == end))
      invariant end <= |s| && Sorted(s, start, end) ==> forall k :: start <= k < beg ==> s[k] < what
      invariant end <= |s| && Sorted(s, start, end) ==> forall k :: hi <= k < end ==> s[k] >= what
      decreases hi - beg
    {
      var next := SearchStep(s, beg, hi, what);
      if next.None? {
        return Failure(IndexOutOfRange);
      }
      SearchStepKeeps(s, start, end, beg, hi, what);
      beg, hi := next.value.0, next.value.1;
    }
    r := Probe(s, beg, what);
    if end <= |s| && start < end && Sorted(s, start, end) {
      LowerBoundUnique(s, start, end, what, beg);
      LowerBoundFinds(s, start, end, what);
    }
  }

  /**
   * `LFind`: the first index from `start` on that holds `what`. The scan
   * reads `where[start]` before testing it, so a start outside the array, or
   * a value that does not occur, ends in an index error.
   */
  method LFind(where: array<int>, what: int, start: int) returns (r: Result<int, SearchError>)
    ensures r.Success? <==> 0 <= start && exists k :: start <= k < where.Length && where[k] == what
    ensures r.Success? ==> start <= r.value < where.Length && where[r.value] == what
    ensures r.Success? ==> forall k :: start <= k < r.value ==> where[k] != what
    ensures r.Failure? ==> r.error == IndexOutOfRange
  {
    if start < 0 || start >= where.Length {
      return Failure(IndexOutOfRange);
    }
    var i := start;
    while i < where.Length && where[i] != what
      invariant start <= i <= where.Length
      invariant forall k :: start <= k < i ==> where[k] != what
    {
      i := i + 1;
    }
    if i == where.Length {
      return Failure(IndexOutOfRange);
    }
    return Success(i);
  }
}
