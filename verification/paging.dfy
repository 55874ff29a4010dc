/** The page arithmetic of `renderFilteredProducts` (js/products.js:157-172):
    page size from the viewport, page count, clamping of the current page
    and the slice shown. Generic over the element type. */
module Paging {

  /** `getPageSize`: 8 cards when `(max-width: 991.98px)` matches, 9 otherwise. */
  function PageSize(narrow: bool): (r: nat)
    ensures r == 8 || r == 9
    ensures r == 8 <==> narrow
  {
    if narrow then 8 else 9
  }

  /** Index of the first element of page `page`: `(page - 1) * size`. */
  function PageStart(page: int, size: nat): int {
    (page - 1) * size
  }

  /** Consecutive pages start `size` apart, and later pages start later. */
  lemma PageStartStep(page: int, size: nat)
    ensures PageStart(page + 1, size) == PageStart(page, size) + size
  {
  }

  lemma PageStartMonotone(a: int, b: int, size: nat)
    requires a <= b
    ensures PageStart(a, size) <= PageStart(b, size)
  {
    assert (b - 1) * size - (a - 1) * size == (b - a) * size;
  }

  /** `Math.ceil(n / size) || 1`. */
  function TotalPages(n: nat, size: nat): (t: nat)
    requires size >= 1
    ensures t >= 1
    ensures n >= 1 ==> PageStart(t, size) < n <= PageStart(t + 1, size)
  {
    var c := (n + size - 1) / size;
    assert c * size <= n + size - 1 < c * size + size;
    if c == 0 then 1 else c
  }

  /** The clamp of the current page: a page past the last becomes the last,
      and a page below 1 becomes 1. */
  function ClampPage(page: int, total: nat): (r: int)
    requires total >= 1
    ensures 1 <= r <= total
    ensures 1 <= page <= total ==> r == page
    ensures page > total ==> r == total
    ensures page < 1 ==> r == 1
  {
    var capped := if page > total then total else page;
    if capped < 1 then 1 else capped
  }

  /** Page `page` starts inside the list, and every page before the last is full. */
  lemma PageStartInside(n: nat, size: nat, page: int)
    requires size >= 1 && n >= 1 && 1 <= page <= TotalPages(n, size)
    ensures 0 <= PageStart(page, size) < n
    ensures page < TotalPages(n, size) ==> PageStart(page + 1, size) < n
  {
    var t := TotalPages(n, size);
    PageStartMonotone(1, page, size);
    PageStartMonotone(page, t, size);
    if page < t {
      PageStartMonotone(page + 1, t, size);
    }
  }

  /** `filtered.slice(start, start + pageSize)` with `start = (page - 1) * pageSize`. */
  function PageSlice<T>(s: seq<T>, page: int, size: nat): (r: seq<T>)
    requires size >= 1 && |s| >= 1 && 1 <= page <= TotalPages(|s|, size)
    ensures 1 <= |r| <= size
    ensures 0 <= PageStart(page, size) && PageStart(page, size) + |r| <= |s|
    ensures forall i :: 0 <= i < |r| ==> r[i] == s[PageStart(page, size) + i]
    ensures page < TotalPages(|s|, size) ==> |r| == size
    ensures page == TotalPages(|s|, size) ==> PageStart(page, size) + |r| == |s|
  {
    PageStartInside(|s|, size, page);
    PageStartStep(page, size);
    var start := PageStart(page, size);
    var end := if start + size <= |s| then start + size else |s|;
    s[start..end]
  }

  /** What the listing shows: the no-results message with the pagination
      hidden, or one page of the filtered list. */
  datatype PageView<T> = NoResults | Page(items: seq<T>, current: int, total: nat)

  /** The page computation for the filtered list and the stored `currentPage`. */
  function Paginate<T>(filtered: seq<T>, requested: int, size: nat): (r: PageView<T>)
    requires size >= 1
    ensures r.NoResults? <==> |filtered| == 0
    ensures r.Page? ==> r.total == TotalPages(|filtered|, size) && 1 <= r.current <= r.total
    ensures r.Page? ==> 1 <= |r.items| <= size
    ensures r.Page? ==> 0 <= PageStart(r.current, size) && PageStart(r.current, size) + |r.items| <= |filtered|
    ensures r.Page? ==> forall i :: 0 <= i < |r.items| ==> r.items[i] == filtered[PageStart(r.current, size) + i]
    ensures r.Page? && 1 <= requested <= r.total ==> r.current == requested
    ensures r.Page? && requested > r.total ==> r.current == r.total
    ensures r.Page? && requested < 1 ==> r.current == 1
  {
    if |filtered| == 0 then NoResults
    else
      var total := TotalPages(|filtered|, size);
      var current := ClampPage(requested, total);
      Page(PageSlice(filtered, current, size), current, total)
  }

  /** Pages 1..k concatenated. */
  function PagesUpTo<T>(s: seq<T>, size: nat, k: nat): seq<T>
    requires size >= 1 && |s| >= 1 && k <= TotalPages(|s|, size)
  {
    if k == 0 then [] else PagesUpTo(s, size, k - 1) + PageSlice(s, k, size)
  }

  /** The first k pages are the elements before page k + 1 starts, and all
      of them once k is the last page. */
  lemma {:induction false} PagesUpToIsPrefix<T>(s: seq<T>, size: nat, k: nat)
    requires size >= 1 && |s| >= 1 && k <= TotalPages(|s|, size)
    ensures k < TotalPages(|s|, size) ==> 0 <= PageStart(k + 1, size) <= |s| && PagesUpTo(s, size, k) == s[..PageStart(k + 1, size)]
    ensures k == TotalPages(|s|, size) ==> PagesUpTo(s, size, k) == s
  {
    var t := TotalPages(|s|, size);
    if k == 0 {
      assert PageStart(1, size) == 0;
      assert s[..0] == [];
    } else {
      PagesUpToIsPrefix(s, size, k - 1);
      PageStartInside(|s|, size, k);
      PageStartStep(k, size);
      var start := PageStart(k, size);
      var page := PageSlice(s, k, size);
      assert PagesUpTo(s, size, k - 1) == s[..start];
      if k < t {
        assert s[..start] + page == s[..start + size];
      } else {
        assert start + |page| == |s|;
        assert s[..start] + page == s;
      }
    }
  }

  /** Concatenating pages 1..totalPages gives back the filtered list exactly. */
  lemma PagesReassemble<T>(s: seq<T>, size: nat)
    requires size >= 1 && |s| >= 1
    ensures PagesUpTo(s, size, TotalPages(|s|, size)) == s
  {
    PagesUpToIsPrefix(s, size, TotalPages(|s|, size));
  }
}
