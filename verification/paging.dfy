/**
  Client-side pagination as every list hook does it: `Math.ceil(n / k)` pages and the
  page `p` shown as `items.slice((p - 1) * k, (p - 1) * k + k)`, with JavaScript's
  `slice` semantics for out-of-range and negative indices.
*/
module Paging {

  /** `Math.ceil(n / k)` for an item count `n` and a positive page size `k`. */
  function PageCount(n: nat, k: nat): (r: nat)
    requires k > 0
    ensures r * k >= n
    ensures r == 0 || (r - 1) * k < n
    ensures r == 0 <==> n == 0
  {
    var r := (n + k - 1) / k;
    assert r * k + (n + k - 1) % k == n + k - 1;
    r
  }

  /** How `slice` normalises an index: a negative one counts from the end, then it is clamped to `0..len`. */
  function SliceIndex(i: int, len: nat): (r: nat)
    ensures r <= len
    ensures 0 <= i <= len ==> r == i
    ensures i > len ==> r == len
    ensures i < 0 ==> r == if len + i < 0 then 0 else len + i
  {
    if i < 0 then (if len + i < 0 then 0 else len + i)
    else if i > len then len
    else i
  }

  /** `Array.prototype.slice(start, end)`. */
  function JsSlice<T>(xs: seq<T>, start: int, end: int): (r: seq<T>)
    ensures 0 <= start <= end ==> |r| <= end - start
    ensures 0 <= start <= |xs| && start <= end ==> r == xs[start..if end <= |xs| then end else |xs|]
    ensures start >= |xs| ==> r == []
  {
    var s := SliceIndex(start, |xs|);
    var e := SliceIndex(end, |xs|);
    if e <= s then [] else xs[s..e]
  }

  /** The first index page `page` shows. */
  function PageStart(page: int, k: nat): int {
    (page - 1) * k
  }

  /** The items shown on page `page` with page size `k`. */
  function PageOf<T>(xs: seq<T>, page: int, k: nat): (r: seq<T>)
  {
    JsSlice(xs, PageStart(page, k), PageStart(page, k) + k)
  }

  lemma PageStartNonNegative(page: int, k: nat)
    requires page >= 1
    ensures PageStart(page, k) >= 0
  {
    MulMonotone(0, page - 1, k);
  }

  /** A page numbered from 1 holds at most `k` items, and they are the run of `xs` starting at `(page - 1) * k`. */
  lemma PageIsRun<T>(xs: seq<T>, page: int, k: nat)
    requires page >= 1 && k > 0
    ensures |PageOf(xs, page, k)| <= k
    ensures var s := PageStart(page, k);
      s <= |xs| ==> PageOf(xs, page, k) == xs[s..if s + k <= |xs| then s + k else |xs|]
    ensures PageStart(page, k) >= |xs| ==> PageOf(xs, page, k) == []
  {
    PageStartNonNegative(page, k);
  }

  lemma MulMonotone(a: int, b: int, k: nat)
    requires a <= b
    ensures a * k <= b * k
  {
  }

  /** The page that holds item `i` of `n` is one the page count offers. */
  lemma ItemPageWithinCount(n: nat, i: nat, k: nat)
    requires k > 0 && i < n
    ensures 1 <= i / k + 1 <= PageCount(n, k)
  {
    var q := i / k;
    assert q * k <= i;
    if q >= PageCount(n, k) {
      MulMonotone(PageCount(n, k), q, k);
    }
  }

  /** Every page after the last one is empty. */
  lemma PageBeyondCount<T>(xs: seq<T>, page: int, k: nat)
    requires k > 0 && page > PageCount(|xs|, k)
    ensures PageOf(xs, page, k) == []
  {
    MulMonotone(PageCount(|xs|, k), page - 1, k);
    PageIsRun(xs, page, k);
  }

  /** Every page from 1 to the last one shows at least one item. */
  lemma PageWithinCountNonEmpty<T>(xs: seq<T>, page: int, k: nat)
    requires k > 0 && 1 <= page <= PageCount(|xs|, k)
    ensures |PageOf(xs, page, k)| >= 1
  {
    MulMonotone(page - 1, PageCount(|xs|, k) - 1, k);
    PageIsRun(xs, page, k);
  }

  /** Every item appears on page `i / k + 1`, at position `i % k`: paging loses nothing. */
  lemma ItemOnItsPage<T>(xs: seq<T>, i: nat, k: nat)
    requires k > 0 && i < |xs|
    ensures var p := PageOf(xs, i / k + 1, k); i % k < |p| && p[i % k] == xs[i]
  {
    var q := i / k;
    assert q * k + i % k == i;
    PageIsRun(xs, q + 1, k);
  }

  /** Page 1 is the first `k` items, or all of them when there are fewer. */
  lemma FirstPage<T>(xs: seq<T>, k: nat)
    requires k > 0
    ensures PageOf(xs, 1, k) == if k <= |xs| then xs[..k] else xs
  {
    PageIsRun(xs, 1, k);
  }

  /** Paging a page again: its first page is the page itself and every later page is empty. */
  lemma PageOfPage<T>(xs: seq<T>, page: int, local: int, k: nat)
    requires page >= 1 && local >= 1 && k > 0
    ensures PageOf(PageOf(xs, page, k), local, k) == if local == 1 then PageOf(xs, page, k) else []
  {
    var ys := PageOf(xs, page, k);
    PageIsRun(xs, page, k);
    PageIsRun(ys, local, k);
    if local == 1 {
      assert PageStart(1, k) == 0;
      assert ys[0..|ys|] == ys;
    } else {
      MulMonotone(1, local - 1, k);
    }
  }

  /** How many pages a page of `xs` makes: none when it is empty, otherwise one. */
  lemma PageCountOfPage<T>(xs: seq<T>, page: int, k: nat)
    requires page >= 1 && k > 0
    ensures PageCount(|PageOf(xs, page, k)|, k) <= 1
  {
    PageIsRun(xs, page, k);
    var r := PageCount(|PageOf(xs, page, k)|, k);
    if r >= 2 {
      MulMonotone(1, r - 1, k);
    }
  }

  /**
    The state of the search-and-page hooks over a list (`usePlanPagination`,
    `useServicePagination`, `useDomainPagination`): the search box and the page,
    starting out blank and at 1.
  */
  datatype Pager = Pager(searchTerm: string, currentPage: int)

  const NewPager := Pager("", 1)

  /** The hooks' `setSearchTerm` is the raw state setter: the page is kept. */
  function PagerSearch(p: Pager, term: string): (r: Pager)
    ensures r.searchTerm == term && r.currentPage == p.currentPage
  {
    p.(searchTerm := term)
  }

  /** `handlePageChange`: the page changes and the search term is kept. */
  function PagerPageChange(p: Pager, page: int): (r: Pager)
    ensures r.currentPage == page && r.searchTerm == p.searchTerm
  {
    p.(currentPage := page)
  }
}
