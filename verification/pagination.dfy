/**
 * The listing arithmetic the order and customer controllers share: reading `limit` and
 * `page` from the query, the skip and total-page counts, the page slice, and range
 * filters built up one bound at a time.
 */
module Pagination {
  import opened Wrappers
  import opened JsValues

  /** The largest page size any listing serves. */
  const MaxLimit: int := 10

  /** `Math.min(Math.max(n, 1), 10)`. */
  function ClampLimit(n: int): (r: int)
    ensures 1 <= r <= MaxLimit
    ensures 1 <= n <= MaxLimit ==> r == n
    ensures n < 1 ==> r == 1
    ensures n > MaxLimit ==> r == MaxLimit
  {
    if n < 1 then 1 else if n > MaxLimit then MaxLimit else n
  }

  /**
   * The page size: an absent parameter takes the destructuring default, a present one is
   * clamped when `Number` makes it finite and falls back to the default otherwise.
   */
  function LimitOf(v: QueryValue, default: int, c: Coercions): (r: int)
    requires 1 <= default <= MaxLimit
    ensures 1 <= r <= MaxLimit
    ensures v.Missing? ==> r == default
    ensures !v.Missing? && QueryNumber(v, c).None? ==> r == default
    ensures QueryNumber(v, c).Some? ==> r == ClampLimit(QueryNumber(v, c).value)
  {
    match QueryNumber(v, c)
    case Some(n) => ClampLimit(n)
    case None => default
  }

  /** The page number: at least 1, and 1 when absent or not finite. */
  function PageOf(v: QueryValue, c: Coercions): (r: int)
    ensures r >= 1
    ensures QueryNumber(v, c).None? ==> r == 1
    ensures QueryNumber(v, c).Some? && QueryNumber(v, c).value >= 1 ==> r == QueryNumber(v, c).value
  {
    match QueryNumber(v, c)
    case Some(n) => if n < 1 then 1 else n
    case None => 1
  }

  /** `(page - 1) * limit`: the number of items on the pages before `page`. */
  function Skip(page: int, limit: int): nat
    requires page >= 1 && limit >= 1
  {
    MulMonotone(0, page - 1, limit);
    (page - 1) * limit
  }

  /** `Math.ceil(total / limit)`: the fewest pages of `limit` items that hold `total` items. */
  function TotalPages(total: nat, limit: int): (r: nat)
    requires limit >= 1
    ensures r * limit >= total
    ensures r > 0 ==> (r - 1) * limit < total
    ensures r == 0 <==> total == 0
  {
    (total + limit - 1) / limit
  }

  /** `Array.prototype.slice(start, end)` for non-negative bounds: both are cut to the length. */
  function Slice<T>(xs: seq<T>, start: nat, end: nat): (r: seq<T>)
    ensures start <= end ==> |r| <= end - start
    ensures |r| <= |xs|
    ensures forall k :: 0 <= k < |r| ==> start + k < |xs| && r[k] == xs[start + k]
    ensures start <= end <= |xs| ==> |r| == end - start
    ensures start <= |xs| <= end ==> |r| == |xs| - start
    ensures start >= |xs| || end <= start ==> r == []
  {
    var lo := if start < |xs| then start else |xs|;
    var hi := if end < |xs| then end else |xs|;
    if lo < hi then xs[lo..hi] else []
  }

  /** The items on page `page` of size `limit`: `slice(skip, skip + limit)`. */
  function Page<T>(xs: seq<T>, page: int, limit: int): (r: seq<T>)
    requires page >= 1 && limit >= 1
    ensures |r| <= limit
  {
    Slice(xs, Skip(page, limit), Skip(page, limit) + limit)
  }

  /**
   * Every item is on exactly the page its position says, and that page is one of the
   * `TotalPages` pages.
   */
  lemma {:induction false} ItemOnItsPage<T>(xs: seq<T>, i: nat, limit: int)
    requires i < |xs| && limit >= 1
    ensures 1 <= i / limit + 1 <= TotalPages(|xs|, limit)
    ensures var p := Page(xs, i / limit + 1, limit);
            i % limit < |p| && p[i % limit] == xs[i]
  {
    var page := i / limit + 1;
    var skip := Skip(page, limit);
    assert skip == (i / limit) * limit;
    assert skip + i % limit == i;
    var n := TotalPages(|xs|, limit);
    if n < page {
      assert n * limit <= (i / limit) * limit by {
        assert n <= i / limit;
        MulMonotone(n, i / limit, limit);
      }
      assert false;
    }
  }

  lemma MulMonotone(a: int, b: int, c: int)
    requires 0 <= a <= b && c >= 0
    ensures a * c <= b * c
  {
  }

  /** A page beyond the last one is empty. */
  lemma {:induction false} PagesBeyondTheLastAreEmpty<T>(xs: seq<T>, page: int, limit: int)
    requires limit >= 1 && page > TotalPages(|xs|, limit)
    ensures Page(xs, page, limit) == []
  {
    var n := TotalPages(|xs|, limit);
    assert page - 1 >= n;
    MulMonotone(n, page - 1, limit);
  }

  /** A range filter: its `$gte` and `$lte` bounds. */
  datatype Range = Range(gte: Option<int>, lte: Option<int>)

  /** `{ ...range, $gte: v }` on a possibly absent range. */
  function WithLower(range: Option<Range>, v: int): (r: Option<Range>)
    ensures r.Some? && r.value.gte == Some(v)
    ensures range.Some? ==> r.value.lte == range.value.lte
    ensures range.None? ==> r.value.lte.None?
  {
    match range
    case Some(rg) => Some(rg.(gte := Some(v)))
    case None => Some(Range(Some(v), None))
  }

  /** `{ ...range, $lte: v }` on a possibly absent range. */
  function WithUpper(range: Option<Range>, v: int): (r: Option<Range>)
    ensures r.Some? && r.value.lte == Some(v)
    ensures range.Some? ==> r.value.gte == range.value.gte
    ensures range.None? ==> r.value.gte.None?
  {
    match range
    case Some(rg) => Some(rg.(lte := Some(v)))
    case None => Some(Range(None, Some(v)))
  }

  /** The range two optional bounds describe, or none when both are absent. */
  function RangeOf(lower: Option<int>, upper: Option<int>): Option<Range>
  {
    if lower.None? && upper.None? then None else Some(Range(lower, upper))
  }

  /** Setting the lower then the upper bound keeps both: neither overwrites the other. */
  lemma BoundsMerge(lower: Option<int>, upper: Option<int>)
    ensures var afterLower := if lower.Some? then WithLower(None, lower.value) else None;
            var both := if upper.Some? then WithUpper(afterLower, upper.value) else afterLower;
            both == RangeOf(lower, upper)
  {
  }
}
