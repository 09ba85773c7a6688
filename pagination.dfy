/** The pagination bar: which page buttons to show (first, last, and the neighbours of the
    current page, with -1 standing for an ellipsis) and when the arrows are disabled. */
module Pagination {

  function Max(a: int, b: int): int { if a >= b then a else b }

  function Min(a: int, b: int): int { if a <= b then a else b }

  /** lo, lo+1, ..., hi (empty when hi < lo). */
  function Range(lo: int, hi: int): (r: seq<int>)
    ensures |r| == if hi >= lo then hi - lo + 1 else 0
    ensures forall k :: 0 <= k < |r| ==> r[k] == lo + k
  {
    seq(if hi >= lo then hi - lo + 1 else 0, k => lo + k)
  }

  /** The page numbers to show: 1, the current page's neighbours strictly between 1 and
      the last page, and the last page. */
  function Window(currentPage: int, totalPages: int): (w: seq<int>)
    ensures 1 <= |w| <= 5 && w[0] == 1
    ensures forall j, k :: 0 <= j < k < |w| ==> w[j] < w[k]
    ensures forall k :: 0 <= k < |w| ==> 1 <= w[k] <= Max(1, totalPages)
    ensures totalPages > 1 ==> w[|w| - 1] == totalPages
    ensures totalPages <= 1 ==> w == [1]
    ensures 1 <= currentPage <= totalPages ==> currentPage in w
    ensures forall k :: 2 <= k < |w| - 1 ==> Consecutive(w, k)
  {
    var mid := Range(Max(2, currentPage - 1), Min(totalPages - 1, currentPage + 1));
    var w := [1] + mid + (if totalPages > 1 then [totalPages] else []);
    assert 1 <= currentPage <= totalPages && currentPage != 1 && currentPage != totalPages ==>
      w[1 + currentPage - Max(2, currentPage - 1)] == currentPage;
    w
  }

  /** The page numbers of a rendered bar, without its ellipses. */
  function Pages(r: seq<int>): (p: seq<int>)
    ensures forall k :: 0 <= k < |p| ==> p[k] != -1
    ensures |p| <= |r|
  {
    if r == [] then []
    else Pages(r[..|r| - 1]) + (if r[|r| - 1] == -1 then [] else [r[|r| - 1]])
  }

  /** The bar the second loop of getPageNumbers builds from a list of page numbers: each
      number, preceded by -1 when it is more than one above its predecessor (the first is
      compared with 0). */
  function Bar(pageNumbers: seq<int>): (r: seq<int>)
    ensures |pageNumbers| <= |r| <= 2 * |pageNumbers|
  {
    if pageNumbers == [] then []
    else
      var n := |pageNumbers|;
      var prev := if n == 1 then 0 else pageNumbers[n - 2];
      Bar(pageNumbers[..n - 1]) + (if pageNumbers[n - 1] - prev > 1 then [-1] else []) + [pageNumbers[n - 1]]
  }

  /** getPageNumbers: the window, with an ellipsis wherever two shown pages are not
      neighbours, and nowhere else. */
  method GetPageNumbers(currentPage: int, totalPages: int) returns (result: seq<int>)
    ensures result == Bar(Window(currentPage, totalPages))
  {
    var pageNumbers := [1];
    var lo := Max(2, currentPage - 1);
    var hi := Min(totalPages - 1, currentPage + 1);
    var i := lo;
    while i <= hi
      invariant lo <= i <= Max(lo, hi + 1)
      invariant pageNumbers == [1] + Range(lo, i - 1)
    {
      pageNumbers := pageNumbers + [i];
      i := i + 1;
    }
    if totalPages > 1 {
      pageNumbers := pageNumbers + [totalPages];
    }
    WindowIsBuilt(currentPage, totalPages, pageNumbers);
    result := MarkGaps(pageNumbers);
  }

  lemma WindowIsBuilt(currentPage: int, totalPages: int, pageNumbers: seq<int>)
    requires pageNumbers == [1] + Range(Max(2, currentPage - 1), Min(totalPages - 1, currentPage + 1)) +
      (if totalPages > 1 then [totalPages] else [])
    ensures pageNumbers == Window(currentPage, totalPages)
  {
  }

  /** The second loop of getPageNumbers. */
  method MarkGaps(pageNumbers: seq<int>) returns (result: seq<int>)
    ensures result == Bar(pageNumbers)
  {
    result := [];
    var prev := 0;
    var k := 0;
    while k < |pageNumbers|
      invariant 0 <= k <= |pageNumbers|
      invariant result == Bar(pageNumbers[..k])
      invariant prev == if k == 0 then 0 else pageNumbers[k - 1]
    {
      var num := pageNumbers[k];
      if num - prev > 1 {
        result := result + [-1];
      }
      result := result + [num];
      assert pageNumbers[..k + 1][..k] == pageNumbers[..k];
      prev := num;
      k := k + 1;
    }
    assert pageNumbers[..k] == pageNumbers;
  }

  /** An ellipsis sits only between two page numbers that are not neighbours, and two
      adjacent page numbers are always neighbours. */
  predicate Ellipses(r: seq<int>)
  {
    (forall j :: 0 <= j < |r| ==> EllipsisBetweenGap(r, j)) &&
    (forall j :: 0 <= j < |r| - 1 ==> AdjacentAreNeighbours(r, j))
  }

  /** An ellipsis at `j` is neither first nor last and separates two page numbers that
      are more than one apart. */
  predicate EllipsisBetweenGap(r: seq<int>, j: int)
    requires 0 <= j < |r|
  {
    r[j] == -1 ==> 0 < j < |r| - 1 && r[j - 1] != -1 && r[j + 1] != -1 && r[j + 1] - r[j - 1] > 1
  }

  /** Page numbers at `j` and `j + 1` are consecutive pages. */
  predicate AdjacentAreNeighbours(r: seq<int>, j: int)
    requires 0 <= j < |r| - 1
  {
    r[j] != -1 && r[j + 1] != -1 ==> r[j + 1] == r[j] + 1
  }

  /** Entries `k - 1` and `k` are consecutive numbers. */
  predicate Consecutive(w: seq<int>, k: int)
    requires 1 <= k < |w|
  {
    w[k] == w[k - 1] + 1
  }

  /** Page numbers starting at 1, all positive and strictly increasing. */
  predicate Ascending(pageNumbers: seq<int>)
  {
    |pageNumbers| >= 1 && pageNumbers[0] == 1 &&
    (forall k :: 0 <= k < |pageNumbers| ==> pageNumbers[k] >= 1) &&
    (forall k :: 1 <= k < |pageNumbers| ==> pageNumbers[k - 1] < pageNumbers[k])
  }

  /** The bar of ascending page numbers shows exactly those pages, in order, starts with
      page 1, ends with the last of them and marks exactly the gaps between them. */
  lemma {:induction false} BarOfAscending(pageNumbers: seq<int>)
    requires Ascending(pageNumbers)
    ensures Pages(Bar(pageNumbers)) == pageNumbers
    ensures Bar(pageNumbers)[0] == 1
    ensures Bar(pageNumbers)[|Bar(pageNumbers)| - 1] == pageNumbers[|pageNumbers| - 1]
    ensures Ellipses(Bar(pageNumbers))
  {
    var n := |pageNumbers|;
    var r := Bar(pageNumbers);
    if n == 1 {
      assert r == [1];
    } else {
      var init := pageNumbers[..n - 1];
      AscendingPrefix(pageNumbers);
      BarOfAscending(init);
      var before := Bar(init);
      var prev := pageNumbers[n - 2];
      var num := pageNumbers[n - 1];
      assert prev == init[|init| - 1];
      assert prev < num;
      assert r == before + (if num - prev > 1 then [-1] else []) + [num];
      PushKeepsEllipses(before, prev, num, r);
      assert pageNumbers == init + [num];
    }
  }

  lemma AscendingPrefix(pageNumbers: seq<int>)
    requires Ascending(pageNumbers) && |pageNumbers| >= 2
    ensures Ascending(pageNumbers[..|pageNumbers| - 1])
  {
    var init := pageNumbers[..|pageNumbers| - 1];
    forall k | 1 <= k < |init|
      ensures init[k - 1] < init[k]
    {
      assert pageNumbers[k - 1] < pageNumbers[k];
    }
  }

  /** One step of the second loop keeps the bar well formed and adds `num` to its pages. */
  lemma PushKeepsEllipses(before: seq<int>, prev: int, num: int, after: seq<int>)
    requires Ellipses(before) && before != [] && before[0] == 1
    requires before[|before| - 1] == prev && prev >= 1 && num > prev
    requires after == before + (if num - prev > 1 then [-1] else []) + [num]
    ensures Ellipses(after) && after[0] == 1 && after[|after| - 1] == num
    ensures Pages(after) == Pages(before) + [num]
  {
    var n := |before|;
    var gap := num - prev > 1;
    assert |after| == n + (if gap then 2 else 1);
    assert forall j :: 0 <= j < n ==> after[j] == before[j];
    assert after[|after| - 1] == num;
    assert gap ==> after[n] == -1;
    forall j | 0 <= j < |after|
      ensures EllipsisBetweenGap(after, j)
    {
      if j < n - 1 {
        assert EllipsisBetweenGap(before, j);
      } else if j == n && gap {
        assert after[j - 1] == prev && after[j + 1] == num;
      }
    }
    forall j | 0 <= j < |after| - 1
      ensures AdjacentAreNeighbours(after, j)
    {
      if j < n - 1 {
        assert AdjacentAreNeighbours(before, j);
      }
    }
    PushPages(before, gap, num, after);
  }

  lemma PushPages(before: seq<int>, gap: bool, num: int, after: seq<int>)
    requires num != -1
    requires after == before + (if gap then [-1] else []) + [num]
    ensures Pages(after) == Pages(before) + [num]
  {
    if gap {
      assert after[..|after| - 1] == before + [-1];
      assert (before + [-1])[..|before|] == before;
    } else {
      assert after[..|after| - 1] == before;
    }
  }

  /** The bar of the window: page 1 first, the last page last, at most seven entries and
      ellipses exactly at the gaps. */
  lemma WindowBar(currentPage: int, totalPages: int)
    ensures var r := Bar(Window(currentPage, totalPages));
      Pages(r) == Window(currentPage, totalPages) && |r| >= 1 && r[0] == 1 &&
      (totalPages > 1 ==> r[|r| - 1] == totalPages) &&
      (totalPages <= 1 ==> r == [1]) &&
      Ellipses(r) && |r| <= 7
  {
    var w := Window(currentPage, totalPages);
    assert Ascending(w);
    BarOfAscending(w);
    BarGaps(w);
    if totalPages <= 1 {
      BarOfOne();
    }
  }

  lemma BarOfOne()
    ensures Bar([1]) == [1]
  {
    assert [1][..0] == [];
  }

  /** The current page, when it is one of the pages, is always shown. */
  lemma WindowBarShowsCurrent(currentPage: int, totalPages: int)
    requires 1 <= currentPage <= totalPages
    ensures currentPage in Bar(Window(currentPage, totalPages))
  {
    var w := Window(currentPage, totalPages);
    BarOfAscending(w);
    var j :| 0 <= j < |w| && w[j] == currentPage;
    PageIsShown(Bar(w), j);
  }

  /** A bar has at most one ellipsis more than pages after the second and one more
      before the last: with inner pages consecutive, at most two in all. */
  lemma {:induction false} BarGaps(pageNumbers: seq<int>)
    requires Ascending(pageNumbers)
    requires forall k :: 2 <= k < |pageNumbers| - 1 ==> Consecutive(pageNumbers, k)
    ensures |Bar(pageNumbers)| <= |pageNumbers| + (if |pageNumbers| >= 2 then 1 else 0) + (if |pageNumbers| >= 3 then 1 else 0)
  {
    var n := |pageNumbers|;
    if n > 1 {
      var init := pageNumbers[..n - 1];
      AscendingPrefix(pageNumbers);
      assert forall k :: 2 <= k < |init| ==> Consecutive(init, k) by {
        forall k | 2 <= k < |init| ensures Consecutive(init, k) {
          assert Consecutive(pageNumbers, k);
        }
      }
      BarGapsInner(init);
    }
  }

  lemma {:induction false} BarGapsInner(pageNumbers: seq<int>)
    requires Ascending(pageNumbers)
    requires forall k :: 2 <= k < |pageNumbers| ==> Consecutive(pageNumbers, k)
    ensures |Bar(pageNumbers)| <= |pageNumbers| + (if |pageNumbers| >= 2 then 1 else 0)
  {
    var n := |pageNumbers|;
    if n > 1 {
      var init := pageNumbers[..n - 1];
      AscendingPrefix(pageNumbers);
      assert forall k :: 2 <= k < |init| ==> Consecutive(init, k) by {
        forall k | 2 <= k < |init| ensures Consecutive(init, k) {
          assert Consecutive(pageNumbers, k);
        }
      }
      BarGapsInner(init);
      if n > 2 {
        assert Consecutive(pageNumbers, n - 1);
      }
    }
  }

  /** Every page number of a bar is one of its entries. */
  lemma {:induction false} PageIsShown(r: seq<int>, j: nat)
    requires j < |Pages(r)|
    ensures Pages(r)[j] in r
  {
    var init := r[..|r| - 1];
    if j < |Pages(init)| {
      PageIsShown(init, j);
      assert Pages(r)[j] == Pages(init)[j];
      assert forall x :: x in init ==> x in r;
    } else {
      assert Pages(r)[j] == r[|r| - 1];
    }
  }

  /** The "previous" arrow is disabled on page 1, the "next" arrow on the last page. */
  predicate PrevDisabled(currentPage: int) { currentPage == 1 }

  predicate NextDisabled(currentPage: int, totalPages: int) { currentPage == totalPages }

  /** From a page inside 1..totalPages the enabled arrows lead to pages inside 1..totalPages;
      but an empty list (no pages at all) still offers "next" from page 1. */
  lemma ArrowsStayInRange(currentPage: int, totalPages: int)
    ensures 1 <= currentPage <= totalPages && !PrevDisabled(currentPage) ==> 1 <= currentPage - 1
    ensures 1 <= currentPage <= totalPages && !NextDisabled(currentPage, totalPages) ==> currentPage + 1 <= totalPages
    ensures totalPages == 0 ==> !NextDisabled(1, totalPages)
  {
  }
}
