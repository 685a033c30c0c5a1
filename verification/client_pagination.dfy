/** The client-side paginated table (components/data-table.tsx): fixed pages
    of ten rows, a guarded page change, and the row of page links with
    ellipses for long lists. */
module ClientPagination {

  const ItemsPerPage := 10
  const MaxVisiblePages := 5

  /** `Math.ceil(rows / 10)`. */
  function TotalPages(rows: nat): (t: nat)
    ensures t * ItemsPerPage >= rows
    ensures t > 0 ==> (t - 1) * ItemsPerPage < rows
    ensures t == 0 <==> rows == 0
  {
    (rows + ItemsPerPage - 1) / ItemsPerPage
  }

  /** A `slice` bound resolved against a length: negative counts from the
      end, and the result is clamped to `[0, len]`. */
  function ClampIndex(i: int, len: nat): (r: nat)
    ensures r <= len
    ensures 0 <= i <= len ==> r == i
  {
    if i < 0 then (if len + i < 0 then 0 else len + i)
    else if i > len then len
    else i
  }

  /** `Array.prototype.slice(start, end)`. */
  function Slice<T>(s: seq<T>, start: int, end: int): (r: seq<T>)
    ensures |r| <= |s|
    ensures 0 <= start <= end ==> |r| <= end - start
  {
    var from := ClampIndex(start, |s|);
    var to := ClampIndex(end, |s|);
    if to <= from then [] else s[from..to]
  }

  function Min(a: int, b: int): int { if a < b then a else b }
  function Max(a: int, b: int): int { if a < b then b else a }

  /** The rows shown on `currentPage`: `data.slice(start, start + 10)` with
      `start = (currentPage - 1) * 10`. */
  function PageSlice<T>(data: seq<T>, currentPage: int): (rows: seq<T>)
    ensures currentPage >= 1 ==> |rows| <= ItemsPerPage
    ensures currentPage >= 1 ==>
      var start := Min((currentPage - 1) * ItemsPerPage, |data|);
      rows == data[start..Min(start + ItemsPerPage, |data|)]
  {
    var start := (currentPage - 1) * ItemsPerPage;
    Slice(data, start, start + ItemsPerPage)
  }

  /** `handlePageChange`: moves to `page` only when it is a valid page. */
  function HandlePageChange(currentPage: int, page: int, totalPages: nat): (next: int)
    ensures 1 <= page <= totalPages ==> next == page
    ensures !(1 <= page <= totalPages) ==> next == currentPage
  {
    if 1 <= page && page <= totalPages then page else currentPage
  }

  /** The current page stays a valid page through any page change, and
      "previous" on the first page or "next" on the last does nothing. */
  lemma PageChangeKeepsPageValid(currentPage: int, page: int, totalPages: nat)
    requires 1 <= currentPage <= totalPages
    ensures 1 <= HandlePageChange(currentPage, page, totalPages) <= totalPages
    ensures currentPage == 1 ==> HandlePageChange(currentPage, currentPage - 1, totalPages) == 1
    ensures currentPage == totalPages ==>
      HandlePageChange(currentPage, currentPage + 1, totalPages) == totalPages
  {
  }

  /** The rows of pages 1..k, one after the other. */
  function PagesUpTo<T>(data: seq<T>, k: nat): seq<T> {
    if k == 0 then [] else PagesUpTo(data, k - 1) + PageSlice(data, k)
  }

  lemma {:induction false} PagesUpToIsPrefix<T>(data: seq<T>, k: nat)
    ensures PagesUpTo(data, k) == data[..Min(k * ItemsPerPage, |data|)]
  {
    if k > 0 {
      PagesUpToIsPrefix(data, k - 1);
      var a := Min((k - 1) * ItemsPerPage, |data|);
      var b := Min(k * ItemsPerPage, |data|);
      assert PageSlice(data, k) == data[a..b];
      assert data[..a] + data[a..b] == data[..b];
    }
  }

  /** Walking through every page shows every row exactly once, in order. */
  lemma PagesCoverData<T>(data: seq<T>)
    ensures PagesUpTo(data, TotalPages(|data|)) == data
  {
    PagesUpToIsPrefix(data, TotalPages(|data|));
  }

  /** An entry of the page-link row. */
  datatype PageItem = Page(n: int) | Ellipsis

  /** Links to the pages `lo..hi`. */
  function Range(lo: int, hi: int): (r: seq<PageItem>)
    ensures |r| == if hi < lo then 0 else hi - lo + 1
    ensures forall i :: 0 <= i < |r| ==> r[i] == Page(lo + i)
    decreases hi - lo
  {
    if hi < lo then [] else [Page(lo)] + Range(lo + 1, hi)
  }

  lemma RangeSnoc(lo: int, hi: int)
    requires lo <= hi + 1
    ensures Range(lo, hi + 1) == Range(lo, hi) + [Page(hi + 1)]
  {
    var a := Range(lo, hi + 1);
    var b := Range(lo, hi) + [Page(hi + 1)];
    assert |a| == |b|;
    assert forall i :: 0 <= i < |a| ==> a[i] == b[i];
  }

  /** `generatePageNumbers`: every page when there are at most five;
      otherwise the first page, the current page with its neighbours, the
      last page, and an ellipsis where pages are skipped. */
  function GeneratePageNumbers(currentPage: int, totalPages: nat): (r: seq<PageItem>)
    ensures |r| <= 7
    ensures totalPages == 0 <==> r == []
    ensures totalPages > 0 ==> r[0] == Page(1) && r[|r| - 1] == Page(totalPages)
  {
    if totalPages <= MaxVisiblePages then Range(1, totalPages)
    else
      [Page(1)]
      + (if currentPage > 3 then [Ellipsis] else [])
      + Range(Max(2, currentPage - 1), Min(totalPages - 1, currentPage + 1))
      + (if currentPage < totalPages - 2 then [Ellipsis] else [])
      + (if totalPages > 1 then [Page(totalPages)] else [])
  }

  /** The source's `for (let i = lo; i <= hi; i++) pages.push(i)`. */
  method PushRange(lo: int, hi: int) returns (items: seq<PageItem>)
    ensures items == Range(lo, hi)
  {
    items := [];
    var i := lo;
    while i <= hi
      invariant lo <= i <= Max(lo, hi + 1)
      invariant items == Range(lo, i - 1)
    {
      RangeSnoc(lo, i - 1);
      items := items + [Page(i)];
      i := i + 1;
    }
  }

  /** The same row built as the source builds it, pushing one entry at a
      time: every page when there are at most five; otherwise, for a valid
      current page, a row from page 1 to the last page that contains the
      current page, increases, and marks each skipped run with an ellipsis. */
  method BuildPageNumbers(currentPage: int, totalPages: nat) returns (items: seq<PageItem>)
    ensures items == GeneratePageNumbers(currentPage, totalPages)
    ensures |items| <= 7
    ensures totalPages <= MaxVisiblePages ==>
      |items| == totalPages && forall i :: 0 <= i < |items| ==> items[i] == Page(i + 1)
    ensures totalPages > MaxVisiblePages && 1 <= currentPage <= totalPages ==>
      && items[0] == Page(1) && items[|items| - 1] == Page(totalPages)
      && Page(currentPage) in items
      && Increasing(items) && GapsMarked(items)
  {
    if totalPages <= MaxVisiblePages {
      items := PushRange(1, totalPages);
    } else {
      items := [Page(1)];
      if currentPage > 3 {
        items := items + [Ellipsis];
      }
      var window := PushRange(Max(2, currentPage - 1), Min(totalPages - 1, currentPage + 1));
      items := items + window;
      if currentPage < totalPages - 2 {
        items := items + [Ellipsis];
      }
      if totalPages > 1 {
        items := items + [Page(totalPages)];
      }
      if 1 <= currentPage <= totalPages {
        ManyPagesShape(currentPage, totalPages);
        ManyPagesGapsMarked(currentPage, totalPages);
      }
    }
  }

  /** Page numbers in the row strictly increase. */
  ghost predicate Increasing(r: seq<PageItem>) {
    forall i, j :: 0 <= i < j < |r| && r[i].Page? && r[j].Page? ==> r[i].n < r[j].n
  }

  /** An ellipsis sits exactly where pages are skipped: neighbouring page
      links are consecutive, and an ellipsis stands between two links with
      at least one page between them. */
  ghost predicate GapsMarked(r: seq<PageItem>) {
    && (|r| > 0 ==> r[0].Page? && r[|r| - 1].Page?)
    && forall i :: 0 <= i < |r| - 1 ==>
         && (r[i].Page? && r[i + 1].Page? ==> r[i + 1].n == r[i].n + 1)
         && (r[i].Ellipsis? ==> 0 < i && r[i - 1].Page? && r[i + 1].Page? && r[i + 1].n > r[i - 1].n + 1)
  }

  /** With at most five pages the row is exactly 1..totalPages. */
  lemma FewPagesShowAll(currentPage: int, totalPages: nat)
    requires totalPages <= MaxVisiblePages
    ensures var r := GeneratePageNumbers(currentPage, totalPages);
      |r| == totalPages && forall i :: 0 <= i < |r| ==> r[i] == Page(i + 1)
  {
  }

  /** The row never has more than seven entries. */
  lemma AtMostSevenEntries(currentPage: int, totalPages: nat)
    ensures |GeneratePageNumbers(currentPage, totalPages)| <= 7
  {
  }

  /** Where each part of a long row sits: page 1, an optional leading
      ellipsis, the window `lo..hi` around the current page, an optional
      trailing ellipsis, the last page. */
  lemma Layout(currentPage: int, totalPages: nat)
    requires totalPages > MaxVisiblePages
    requires 1 <= currentPage <= totalPages
    ensures var r := GeneratePageNumbers(currentPage, totalPages);
      var lo := Max(2, currentPage - 1);
      var hi := Min(totalPages - 1, currentPage + 1);
      var m := if currentPage > 3 then 2 else 1;
      var tail := if currentPage < totalPages - 2 then 1 else 0;
      && 2 <= lo <= hi <= totalPages - 1
      && |r| == m + (hi - lo + 1) + tail + 1
      && r[0] == Page(1) && r[|r| - 1] == Page(totalPages)
      && (m == 2 ==> r[1] == Ellipsis)
      && (forall i :: m <= i < m + (hi - lo + 1) ==> r[i] == Page(lo + i - m))
      && (tail == 1 ==> r[|r| - 2] == Ellipsis)
  {
    var r := GeneratePageNumbers(currentPage, totalPages);
    var lo := Max(2, currentPage - 1);
    var hi := Min(totalPages - 1, currentPage + 1);
    var lead: seq<PageItem> := if currentPage > 3 then [Ellipsis] else [];
    var mid := Range(lo, hi);
    var trail: seq<PageItem> := if currentPage < totalPages - 2 then [Ellipsis] else [];
    assert r == [Page(1)] + lead + mid + trail + [Page(totalPages)];
    var m := 1 + |lead|;
    assert forall i :: m <= i < m + |mid| ==> r[i] == mid[i - m];
  }

  /** Rows whose gaps are marked have increasing page numbers. */
  lemma {:induction false} GapsMarkedIncreasing(r: seq<PageItem>)
    requires GapsMarked(r)
    ensures Increasing(r)
  {
    forall i, j | 0 <= i < j < |r| && r[i].Page? && r[j].Page?
      ensures r[i].n < r[j].n
    {
      IncreasingFrom(r, i, j);
    }
  }

  lemma {:induction false} IncreasingFrom(r: seq<PageItem>, i: int, j: int)
    requires GapsMarked(r)
    requires 0 <= i < j < |r| && r[i].Page? && r[j].Page?
    ensures r[i].n < r[j].n
    decreases j - i
  {
    if r[j - 1].Page? {
      assert r[j].n == r[j - 1].n + 1;
      if i < j - 1 {
        IncreasingFrom(r, i, j - 1);
      }
    } else {
      assert 0 < j - 1 && r[j - 2].Page? && r[j].n > r[j - 2].n + 1;
      if i < j - 2 {
        IncreasingFrom(r, i, j - 2);
      }
    }
  }

  /** For a valid current page of a long list the gaps are marked: page
      links are consecutive except across an ellipsis, which always hides
      at least one page. */
  lemma ManyPagesGapsMarked(currentPage: int, totalPages: nat)
    requires totalPages > MaxVisiblePages
    requires 1 <= currentPage <= totalPages
    ensures GapsMarked(GeneratePageNumbers(currentPage, totalPages))
  {
    Layout(currentPage, totalPages);
  }

  /** For a valid current page of a long list: the row starts at page 1,
      ends at the last page, contains the current page, its numbers
      increase, and a leading ellipsis appears iff the current page is past
      3 and a trailing one iff it is before the third-to-last page. */
  lemma ManyPagesShape(currentPage: int, totalPages: nat)
    requires totalPages > MaxVisiblePages
    requires 1 <= currentPage <= totalPages
    ensures var r := GeneratePageNumbers(currentPage, totalPages);
      && r[0] == Page(1) && r[|r| - 1] == Page(totalPages)
      && Page(currentPage) in r
      && Increasing(r)
      && (r[1] == Ellipsis <==> currentPage > 3)
      && (r[|r| - 2] == Ellipsis <==> currentPage < totalPages - 2)
  {
    var r := GeneratePageNumbers(currentPage, totalPages);
    Layout(currentPage, totalPages);
    ManyPagesGapsMarked(currentPage, totalPages);
    GapsMarkedIncreasing(r);
    var lo := Max(2, currentPage - 1);
    var m := if currentPage > 3 then 2 else 1;
    if currentPage == 1 {
      assert r[0] == Page(currentPage);
    } else if currentPage == totalPages {
      assert r[|r| - 1] == Page(currentPage);
    } else {
      assert r[m + (currentPage - lo)] == Page(currentPage);
    }
  }
}
