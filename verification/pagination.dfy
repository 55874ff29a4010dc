/** The pagination bar of `renderPagination` (js/products.js:216-284), as a
    pure function of the current page and the page count: a "previous"
    arrow, a sliding window of three page links, an ellipsis, the last
    page, and a "next" arrow. */
module Pagination {

  /** An arrow button: the page it leads to and whether it is disabled. */
  datatype Arrow = Arrow(target: int, disabled: bool)

  /** A numbered page link (`active` marks the current page) or the
      disabled "…" item. */
  datatype Entry = PageLink(number: int, active: bool) | Ellipsis

  datatype Controls = Hidden | Shown(prev: Arrow, entries: seq<Entry>, next: Arrow)

  /** `WINDOW`: the number of consecutive page links around the current page. */
  const Window := 3

  /** Page links lo..hi, the current one active. */
  function Links(lo: int, hi: int, current: int): (r: seq<Entry>)
    requires lo <= hi + 1
    ensures |r| == hi - lo + 1
    ensures forall i :: 0 <= i < |r| ==> r[i] == PageLink(lo + i, lo + i == current)
  {
    seq(hi - lo + 1, i => PageLink(lo + i, lo + i == current))
  }

  /** First page of the sliding window: the current page, pulled back so
      that the window ends before the last page. */
  function WindowStart(current: int, total: int): int {
    var start := if current < 1 then 1 else current;
    if start > total - Window then total - Window else start
  }

  /** Last page of the sliding window, never the last page itself. */
  function WindowEnd(current: int, total: int): int {
    var start := WindowStart(current, total);
    if start + Window - 1 < total - 1 then start + Window - 1 else total - 1
  }

  /** The numbered part of the bar (between the two arrows). */
  function Entries(current: int, total: int): seq<Entry>
    requires total >= 1
  {
    if total <= Window + 1 then Links(1, total, current)
    else
      var start := WindowStart(current, total);
      var end := WindowEnd(current, total);
      Links(start, end, current)
        + (if end < total - 1 then [Ellipsis] else [])
        + [PageLink(total, current == total)]
  }

  /** The bar for `currentPage` (already clamped into [1, totalPages]). */
  function Build(current: int, total: int): (r: Controls)
    requires total <= 1 || 1 <= current <= total
    ensures r.Hidden? <==> total <= 1
  {
    if total <= 1 then Hidden
    else
      Shown(
        Arrow(if current - 1 > 1 then current - 1 else 1, current == 1),
        Entries(current, total),
        Arrow(if current + 1 < total then current + 1 else total, current == total))
  }

  /** The arrows: "prev" is disabled exactly on the first page and otherwise
      leads one page back; "next" is disabled exactly on the last page and
      otherwise leads one page forward; both stay inside [1, totalPages]. */
  lemma ArrowTargets(current: int, total: int)
    requires 2 <= total && 1 <= current <= total
    ensures var c := Build(current, total);
      && (c.prev.disabled <==> current == 1)
      && (c.next.disabled <==> current == total)
      && (!c.prev.disabled ==> c.prev.target == current - 1)
      && (!c.next.disabled ==> c.next.target == current + 1)
      && 1 <= c.prev.target <= total && 1 <= c.next.target <= total
  {
  }

  /** With five or more pages the window holds exactly three pages below
      the last one, starting at the current page or before it. */
  lemma WindowFacts(current: int, total: int)
    requires total > Window + 1 && 1 <= current <= total
    ensures 1 <= WindowStart(current, total) <= current
    ensures WindowEnd(current, total) == WindowStart(current, total) + Window - 1 <= total - 1
    ensures current <= WindowEnd(current, total) || current == total
  {
  }

  /** The entries as window links followed by the tail (ellipsis and last page). */
  lemma EntriesSplit(current: int, total: int)
    requires total > Window + 1 && 1 <= current <= total
    ensures var start := WindowStart(current, total);
      var end := WindowEnd(current, total);
      var e := Entries(current, total);
      && |e| == end - start + 1 + (if end < total - 1 then 2 else 1)
      && (forall i :: 0 <= i <= end - start ==> e[i] == PageLink(start + i, start + i == current))
      && (end < total - 1 ==> e[end - start + 1] == Ellipsis)
      && e[|e| - 1] == PageLink(total, current == total)
  {
    WindowFacts(current, total);
  }

  /** The numbered entries lie in [1, totalPages], the last one is the last
      page, and a link is active exactly when it is the current page. */
  lemma EntriesInRange(current: int, total: int)
    requires 2 <= total && 1 <= current <= total
    ensures var e := Entries(current, total);
      && |e| >= 1 && e[|e| - 1] == PageLink(total, current == total)
      && (forall i :: 0 <= i < |e| && e[i].PageLink? ==> 1 <= e[i].number <= total)
      && (forall i :: 0 <= i < |e| && e[i].PageLink? ==> (e[i].active <==> e[i].number == current))
  {
    if total > Window + 1 {
      WindowFacts(current, total);
      EntriesSplit(current, total);
    }
  }

  /** The current page is always shown, as an active link. */
  lemma EntriesShowCurrent(current: int, total: int)
    requires 2 <= total && 1 <= current <= total
    ensures exists i :: 0 <= i < |Entries(current, total)| && Entries(current, total)[i] == PageLink(current, true)
  {
    var e := Entries(current, total);
    if total <= Window + 1 {
      assert e[current - 1] == PageLink(current, true);
    } else {
      WindowFacts(current, total);
      EntriesSplit(current, total);
      var start := WindowStart(current, total);
      if current <= WindowEnd(current, total) {
        assert e[current - start] == PageLink(current, true);
      } else {
        assert e[|e| - 1] == PageLink(current, true);
      }
    }
  }

  /** Page numbers strictly increase along the bar, and two links that are
      neighbours in the bar are consecutive pages: the only skipped pages
      after the first link are marked by the ellipsis. */
  lemma EntriesIncreasing(current: int, total: int)
    requires 2 <= total && 1 <= current <= total
    ensures var e := Entries(current, total);
      && (forall i, j :: 0 <= i < j < |e| && e[i].PageLink? && e[j].PageLink? ==> e[i].number < e[j].number)
      && (forall i :: 0 <= i < |e| - 1 && e[i].PageLink? && e[i + 1].PageLink? ==> e[i + 1].number == e[i].number + 1)
  {
    if total > Window + 1 {
      WindowFacts(current, total);
      EntriesSplit(current, total);
      var e := Entries(current, total);
      var start := WindowStart(current, total);
      var end := WindowEnd(current, total);
      forall i | 0 <= i < |e| && e[i].PageLink?
        ensures e[i].number == (if i <= end - start then start + i else total)
        ensures i > end - start ==> i == |e| - 1
      {
      }
    }
  }

  /** At most four pages are numbered: the bar holds four entries, or five
      when one of them is the ellipsis, which then sits just before the last page. */
  lemma EntriesCount(current: int, total: int)
    requires 2 <= total && 1 <= current <= total
    ensures var e := Entries(current, total);
      && (forall i :: 0 <= i < |e| && e[i] == Ellipsis ==> i == |e| - 2)
      && |e| <= (if Ellipsis in e then 5 else 4)
  {
    var e := Entries(current, total);
    if total > Window + 1 {
      WindowFacts(current, total);
      EntriesSplit(current, total);
    } else {
      assert Ellipsis !in e;
    }
  }

  /** The ellipsis appears exactly when pages between the window and the
      last page are skipped: with five or more pages and the current page
      more than three pages before the last. */
  lemma EllipsisWhenGap(current: int, total: int)
    requires 2 <= total && 1 <= current <= total
    ensures Ellipsis in Entries(current, total) <==> total > Window + 1 && current < total - Window
    ensures Ellipsis in Entries(current, total) <==> total > Window + 1 && WindowEnd(current, total) < total - 1
  {
    var e := Entries(current, total);
    if total > Window + 1 {
      var start := WindowStart(current, total);
      var end := WindowEnd(current, total);
      var links := Links(start, end, current);
      assert e == links + (if end < total - 1 then [Ellipsis] else []) + [PageLink(total, current == total)];
      assert Ellipsis !in links;
    } else {
      assert Ellipsis !in Links(1, total, current);
    }
  }

  /** With at most four pages every page gets a link, in order. */
  lemma AllPagesWhenFew(current: int, total: int)
    requires 2 <= total <= Window + 1 && 1 <= current <= total
    ensures |Entries(current, total)| == total
    ensures forall i :: 0 <= i < total ==> Entries(current, total)[i].PageLink? && Entries(current, total)[i].number == i + 1
  {
  }
}
