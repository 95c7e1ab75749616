/**
 * Client-side pagination as the list components do it: `Math.ceil` of the
 * length over the page size, and `Array.prototype.slice` from
 * `(page - 1) * perPage` for `perPage` items.
 */
module Pagination {

  function Min(a: int, b: int): int
  {
    if a <= b then a else b
  }

  /** `Math.ceil(n / per)`: the fewest pages of `per` items that hold `n` items. */
  function TotalPages(n: nat, per: nat): (r: nat)
    requires per > 0
    ensures r == 0 <==> n == 0
    ensures n <= r * per
    ensures r > 0 ==> (r - 1) * per < n
  {
    var r := (n + per - 1) / per;
    assert r * per <= n + per - 1 < r * per + per;
    assert (r - 1) * per == r * per - per;
    r
  }

  /** More items never need fewer pages. */
  lemma {:induction false} TotalPagesMonotone(m: nat, n: nat, per: nat)
    requires per > 0 && m <= n
    ensures TotalPages(m, per) <= TotalPages(n, per)
  {
    var a, b := TotalPages(m, per), TotalPages(n, per);
    if a > b {
      assert (a - 1) * per >= b * per by {
        assert a - 1 >= b;
        MultiplyMonotone(b, a - 1, per);
      }
    }
  }

  lemma MultiplyMonotone(x: nat, y: nat, k: nat)
    requires x <= y
    ensures x * k <= y * k
  {
  }

  /** A position as `slice` reads it: negative counts from the end, then clamped to `[0, n]`. */
  function SliceIndex(i: int, n: nat): (r: nat)
    ensures r <= n
    ensures 0 <= i <= n ==> r == i
  {
    if i < 0 then (if n + i < 0 then 0 else n + i) else if i > n then n else i
  }

  /** `xs.slice(start, end)`. */
  function Slice<T>(xs: seq<T>, start: int, end: int): (r: seq<T>)
    ensures |r| <= |xs|
    ensures 0 <= start <= end <= |xs| ==> r == xs[start..end]
  {
    var s := SliceIndex(start, |xs|);
    var e := SliceIndex(end, |xs|);
    if s < e then xs[s..e] else []
  }

  /** Page `page` (counting from 1) of `per` items. */
  function Page<T>(xs: seq<T>, page: int, per: nat): seq<T>
  {
    var start := (page - 1) * per;
    Slice(xs, start, start + per)
  }

  /**
   * A page from 1 to the last holds the next `per` items, cut short only
   * at the end of the list, and is never empty.
   */
  lemma PageContents<T>(xs: seq<T>, page: int, per: nat)
    requires per > 0 && 1 <= page <= TotalPages(|xs|, per)
    ensures var start := (page - 1) * per;
            && 0 <= start < |xs|
            && Page(xs, page, per) == xs[start..Min(start + per, |xs|)]
            && 1 <= |Page(xs, page, per)| <= per
  {
    var start := (page - 1) * per;
    PageStart(page, TotalPages(|xs|, per), per, |xs|);
    SliceWindow(xs, start, per);
  }

  /** Page `page` of `t` starts inside a list of `n` items that fills `t` pages. */
  lemma PageStart(page: int, t: nat, per: nat, n: nat)
    requires 1 <= page <= t && (t - 1) * per < n
    ensures 0 <= (page - 1) * per < n
  {
    MultiplyMonotone(page - 1, t - 1, per);
  }

  /** `per` items from a position inside the list: cut short only at its end, never empty. */
  lemma SliceWindow<T>(xs: seq<T>, start: int, per: nat)
    requires per > 0 && 0 <= start < |xs|
    ensures Slice(xs, start, start + per) == xs[start..Min(start + per, |xs|)]
    ensures 1 <= |Slice(xs, start, start + per)| <= per
  {
  }

  /** Pages past the last one are empty. */
  lemma PagePastEnd<T>(xs: seq<T>, page: int, per: nat)
    requires per > 0 && page > TotalPages(|xs|, per)
    ensures Page(xs, page, per) == []
  {
    MultiplyMonotone(TotalPages(|xs|, per), page - 1, per);
  }

  /** Pages 1 to `k`, one after the other. */
  function Pages<T>(xs: seq<T>, per: nat, k: nat): seq<T>
  {
    if k == 0 then [] else Pages(xs, per, k - 1) + Page(xs, k, per)
  }

  /** The first `k` pages are the first `k * per` items, or all of them. */
  lemma {:induction false} PagesPrefix<T>(xs: seq<T>, per: nat, k: nat)
    requires per > 0 && k <= TotalPages(|xs|, per)
    ensures Pages(xs, per, k) == xs[..Min(k * per, |xs|)]
  {
    if k > 0 {
      PagesPrefix(xs, per, k - 1);
      PageContents(xs, k, per);
      NextMultiple(k, per);
      AppendWindow(xs, (k - 1) * per, per, k * per);
    }
  }

  lemma NextMultiple(k: nat, per: nat)
    requires k > 0
    ensures k * per == (k - 1) * per + per
  {
  }

  /** The items before `start`, then the window of `per` from `start`, are the items before `start + per`. */
  lemma AppendWindow<T>(xs: seq<T>, start: nat, per: nat, end: int)
    requires start < |xs| && end == start + per
    ensures xs[..Min(start, |xs|)] + xs[start..Min(start + per, |xs|)] == xs[..Min(end, |xs|)]
  {
  }

  /** Read page after page, the pages give back the whole list, in order. */
  lemma PagesCoverList<T>(xs: seq<T>, per: nat)
    requires per > 0
    ensures Pages(xs, per, TotalPages(|xs|, per)) == xs
  {
    PagesPrefix(xs, per, TotalPages(|xs|, per));
    assert xs[..|xs|] == xs;
  }
}
