/** The pagination bar (components/pagination-controls.tsx): the list of page buttons
    and ellipses `getVisiblePages` builds, and the "showing X to Y of N" range. */
module PaginationControls {

  /** One entry of the page list: a page number or the ellipsis marker. */
  datatype PageItem = Page(n: int) | Ellipsis

  /** Pages shown on each side of the current one. */
  const Delta: int := 2

  function Max(a: int, b: int): int { if a >= b then a else b }
  function Min(a: int, b: int): int { if a <= b then a else b }

  /** The buttons `lo, lo + 1, .., hi` (none when `lo > hi`). */
  function Range(lo: int, hi: int): (r: seq<PageItem>)
    ensures |r| == (if lo <= hi then hi - lo + 1 else 0)
    ensures forall i :: 0 <= i < |r| ==> r[i] == Page(lo + i)
  {
    seq(if lo <= hi then hi - lo + 1 else 0, i => Page(lo + i))
  }

  /** The first window page, `Math.max(2, currentPage - delta)`. */
  function WindowStart(currentPage: int): int { Max(2, currentPage - Delta) }

  /** The last window page, `Math.min(totalPages - 1, currentPage + delta)`. */
  function WindowEnd(currentPage: int, totalPages: int): int { Min(totalPages - 1, currentPage + Delta) }

  /** The entries before the window: the first page, then an ellipsis when the window
      starts past page 3. */
  function Head(currentPage: int, totalPages: int): seq<PageItem> {
    (if totalPages > 0 then [Page(1)] else []) + (if currentPage - Delta > 2 then [Ellipsis] else [])
  }

  /** The entries after the window: an ellipsis when it ends before the second-to-last
      page, then the last page. */
  function Tail(currentPage: int, totalPages: int): seq<PageItem> {
    (if currentPage + Delta < totalPages - 1 then [Ellipsis] else []) +
    (if totalPages > 1 then [Page(totalPages)] else [])
  }

  /** What `getVisiblePages` pushes: the head, the window, the tail. */
  function VisiblePagesOf(currentPage: int, totalPages: int): seq<PageItem> {
    Head(currentPage, totalPages) + Range(WindowStart(currentPage), WindowEnd(currentPage, totalPages)) +
    Tail(currentPage, totalPages)
  }

  /** `getVisiblePages()`, pushing onto `pages` as the component does. */
  method GetVisiblePages(currentPage: int, totalPages: int) returns (pages: seq<PageItem>)
    ensures pages == VisiblePagesOf(currentPage, totalPages)
  {
    pages := [];
    if totalPages > 0 {
      pages := pages + [Page(1)];
    }
    if currentPage - Delta > 2 {
      pages := pages + [Ellipsis];
    }
    assert pages == Head(currentPage, totalPages);
    var start := Max(2, currentPage - Delta);
    var end := Min(totalPages - 1, currentPage + Delta);
    pages := PushWindow(pages, start, end);
    ghost var body := pages;
    if currentPage + Delta < totalPages - 1 {
      pages := pages + [Ellipsis];
    }
    if totalPages > 1 {
      pages := pages + [Page(totalPages)];
    }
    assert pages == body + Tail(currentPage, totalPages);
  }

  /** The `for (let i = start; i <= end; i++) pages.push(i)` loop. */
  method PushWindow(pages0: seq<PageItem>, start: int, end: int) returns (pages: seq<PageItem>)
    ensures pages == pages0 + Range(start, end)
  {
    pages := pages0;
    var i := start;
    while i <= end
      invariant start <= i <= Max(start, end + 1)
      invariant pages == pages0 + Range(start, i - 1)
    {
      assert Range(start, i - 1) + [Page(i)] == Range(start, i);
      pages := pages + [Page(i)];
      i := i + 1;
    }
  }

  /** The list is ordered page by page: two neighbouring numbers are consecutive, and an
      ellipsis sits only between two numbers that are not, never at either end. */
  predicate WellSpaced(p: seq<PageItem>) {
    (|p| > 0 ==> p[0].Page? && p[|p| - 1].Page?) &&
    forall i :: 0 <= i < |p| - 1 ==>
      (p[i].Page? && p[i + 1].Page? ==> p[i + 1].n == p[i].n + 1) &&
      (p[i].Ellipsis? ==> 0 < i && p[i - 1].Page? && p[i + 1].Page? && p[i + 1].n > p[i - 1].n + 1)
  }

  /** The positions of the list for a valid current page of at least three pages:
      `e1`/`e2` say whether the ellipses are there, the window covers `lo .. hi`. */
  lemma Layout(c: int, t: int) returns (e1: nat, e2: nat)
    requires 1 <= c <= t && t >= 3
    ensures var p := VisiblePagesOf(c, t);
            var lo := WindowStart(c);
            var hi := WindowEnd(c, t);
            e1 <= 1 && e2 <= 1 && (e1 == 1 <==> lo > 2) && (e2 == 1 <==> hi < t - 1) &&
            2 <= lo <= hi <= t - 1 &&
            |p| == 2 + e1 + (hi - lo + 1) + e2 &&
            p[0] == Page(1) && p[|p| - 1] == Page(t) &&
            (e1 == 1 ==> p[1] == Ellipsis) &&
            (e2 == 1 ==> p[|p| - 2] == Ellipsis) &&
            forall j :: 1 + e1 <= j <= 1 + e1 + (hi - lo) ==> p[j] == Page(lo + j - 1 - e1)
  {
    e1 := if c - Delta > 2 then 1 else 0;
    e2 := if c + Delta < t - 1 then 1 else 0;
    var lo := WindowStart(c);
    var hi := WindowEnd(c, t);
    assert |Head(c, t)| == 1 + e1 && |Tail(c, t)| == 1 + e2;
  }

  /** With a valid current page the list is well spaced. */
  lemma VisiblePagesWellSpaced(c: int, t: int)
    requires 1 <= c <= t
    ensures WellSpaced(VisiblePagesOf(c, t))
  {
    if t <= 2 {
      assert VisiblePagesOf(c, t) == if t == 1 then [Page(1)] else [Page(1), Page(2)];
    } else {
      LongListWellSpaced(c, t);
    }
  }

  /** The page is not clamped when a reload shortens the list, so the current page can
      lie past the last one; the buttons are then not well spaced: an ellipsis stands
      between pages 1 and 2, or at the end of the list. */
  lemma StalePageButtons()
    ensures VisiblePagesOf(5, 2) == [Page(1), Ellipsis, Page(2)] && !WellSpaced(VisiblePagesOf(5, 2))
    ensures VisiblePagesOf(5, 1) == [Page(1), Ellipsis] && !WellSpaced(VisiblePagesOf(5, 1))
  {
    var p := VisiblePagesOf(5, 2);
    assert p == [Page(1), Ellipsis, Page(2)];
    assert !(p[1].Ellipsis? ==> 0 < 1 && p[0].Page? && p[2].Page? && p[2].n > p[0].n + 1);
    var q := VisiblePagesOf(5, 1);
    assert q == [Page(1), Ellipsis];
    assert !q[|q| - 1].Page?;
  }

  /** With at least three pages the spacing holds at every position. */
  lemma LongListWellSpaced(c: int, t: int)
    requires 1 <= c <= t && t >= 3
    ensures WellSpaced(VisiblePagesOf(c, t))
  {
    var p := VisiblePagesOf(c, t);
    var e1, e2 := Layout(c, t);
    forall i | 0 <= i < |p| - 1
      ensures p[i].Page? && p[i + 1].Page? ==> p[i + 1].n == p[i].n + 1
      ensures p[i].Ellipsis? ==> 0 < i && p[i - 1].Page? && p[i + 1].Page? && p[i + 1].n > p[i - 1].n + 1
    {
      SpacedAt(c, t, i);
    }
  }

  /** The spacing at one position of the list. */
  lemma SpacedAt(c: int, t: int, i: int)
    requires 1 <= c <= t && t >= 3
    requires 0 <= i < |VisiblePagesOf(c, t)| - 1
    ensures var p := VisiblePagesOf(c, t);
            (p[i].Page? && p[i + 1].Page? ==> p[i + 1].n == p[i].n + 1) &&
            (p[i].Ellipsis? ==> 0 < i && p[i - 1].Page? && p[i + 1].Page? && p[i + 1].n > p[i - 1].n + 1)
  {
    var p := VisiblePagesOf(c, t);
    var e1, e2 := Layout(c, t);
    var lo, hi := WindowStart(c), WindowEnd(c, t);
    if i == 0 {
      if e1 == 0 { assert p[1] == Page(lo); }
    } else if i < 1 + e1 {
      assert p[i + 1] == Page(lo);
    } else if i < 1 + e1 + (hi - lo) {
      assert p[i] == Page(lo + i - 1 - e1);
      assert p[i + 1] == Page(lo + (i + 1) - 1 - e1);
    } else if i == 1 + e1 + (hi - lo) {
      assert p[i] == Page(hi);
    } else {
      assert p[i - 1] == Page(hi);
    }
  }

  /** From the local spacing: numbers increase strictly along the list. */
  lemma {:induction false} WellSpacedIncreasing(p: seq<PageItem>, i: int, j: int)
    requires WellSpaced(p) && 0 <= i < j < |p| && p[i].Page? && p[j].Page?
    ensures p[i].n < p[j].n
    decreases j - i
  {
    if p[i + 1].Page? {
      if i + 1 < j {
        WellSpacedIncreasing(p, i + 1, j);
      }
    } else {
      assert p[i + 2].Page?;
      if i + 2 < j {
        WellSpacedIncreasing(p, i + 2, j);
      }
    }
  }

  /** For `1 <= currentPage <= totalPages` the numbers in the list are strictly increasing
      (hence distinct) and all lie in `1 .. totalPages`. */
  lemma PageNumbersOrdered(c: int, t: int)
    requires 1 <= c <= t
    ensures var p := VisiblePagesOf(c, t);
            forall i, j :: 0 <= i < j < |p| && p[i].Page? && p[j].Page? ==> p[i].n < p[j].n
    ensures var p := VisiblePagesOf(c, t);
            forall i :: 0 <= i < |p| && p[i].Page? ==> 1 <= p[i].n <= t
  {
    var p := VisiblePagesOf(c, t);
    VisiblePagesWellSpaced(c, t);
    forall i, j | 0 <= i < j < |p| && p[i].Page? && p[j].Page?
      ensures p[i].n < p[j].n
    {
      WellSpacedIncreasing(p, i, j);
    }
    forall i | 0 <= i < |p| && p[i].Page?
      ensures 1 <= p[i].n <= t
    {
      if 0 < i { WellSpacedIncreasing(p, 0, i); }
      if i < |p| - 1 { WellSpacedIncreasing(p, i, |p| - 1); }
    }
  }

  /** The first and last buttons, and the empty list when there is no page. */
  lemma EdgeBounds(c: int, t: int)
    ensures t >= 1 ==> VisiblePagesOf(c, t)[0] == Page(1)
    ensures t > 1 ==> VisiblePagesOf(c, t)[|VisiblePagesOf(c, t)| - 1] == Page(t)
    ensures VisiblePagesOf(1, 0) == []
  {
    assert Head(1, 0) == [] && Tail(1, 0) == [] && Range(2, -1) == [];
  }

  /** The current page and every page within two of it are listed. */
  lemma WindowShown(c: int, t: int, k: int)
    requires 1 <= c <= t
    requires 1 <= k <= t && c - Delta <= k <= c + Delta
    ensures Page(k) in VisiblePagesOf(c, t)
  {
    var p := VisiblePagesOf(c, t);
    if t == 1 {
      assert p == [Page(1)];
    } else if t == 2 {
      assert p == [Page(1), Page(2)];
    } else {
      var e1, e2 := Layout(c, t);
      var lo := WindowStart(c);
      if k == 1 {
        assert p[0] == Page(k);
      } else if k == t {
        assert p[|p| - 1] == Page(k);
      } else {
        assert p[1 + e1 + (k - lo)] == Page(lo + (1 + e1 + (k - lo)) - 1 - e1);
      }
    }
  }

  /** The ellipsis after the first page appears exactly when the current page is past 4. */
  lemma LeadingEllipsis(c: int, t: int)
    requires 1 <= c <= t
    ensures var p := VisiblePagesOf(c, t);
            (|p| > 1 && p[1] == Ellipsis) <==> c > 4
  {
    var p := VisiblePagesOf(c, t);
    if t == 1 {
      assert p == [Page(1)];
    } else if t == 2 {
      assert p == [Page(1), Page(2)];
    } else {
      var e1, e2 := Layout(c, t);
      if e1 == 0 {
        assert p[1] == Page(WindowStart(c));
      }
    }
  }

  /** `showingStart`: the 1-based position of the first item shown, capped at the total. */
  function ShowingStart(startIndex: int, totalItems: int): (r: int)
    ensures r <= totalItems
    ensures r == startIndex + 1 || r == totalItems
    ensures startIndex < totalItems ==> r == startIndex + 1
  {
    Min(startIndex + 1, totalItems)
  }

  /** `showingEnd`: the position of the last item shown, capped at the total. */
  function ShowingEnd(endIndex: int, totalItems: int): (r: int)
    ensures r <= totalItems
    ensures r == endIndex || r == totalItems
    ensures endIndex <= totalItems ==> r == endIndex
  {
    Min(endIndex, totalItems)
  }
}
