/**
 * The page window both task tables render:
 * `tasks.slice(page * rowsPerPage, page * rowsPerPage + rowsPerPage)`,
 * and the props handed to the table's pagination control.
 */
module Pagination {

  function Min(a: int, b: int): int { if a <= b then a else b }

  /** First list position shown on `page`. */
  function PageStart(page: nat, rowsPerPage: nat): nat {
    page * rowsPerPage
  }

  /**
   * JavaScript `Array.prototype.slice(begin, end)` for non-negative arguments:
   * both ends are clipped to the length, and an end before the beginning gives [].
   */
  function Slice<T>(s: seq<T>, begin: nat, end: nat): (r: seq<T>)
    ensures begin <= end <= |s| ==> r == s[begin..end]
    ensures |s| <= begin || end <= begin ==> r == []
    ensures begin <= |s| <= end ==> r == s[begin..]
  {
    var b := Min(begin, |s|);
    var e := Min(end, |s|);
    if e <= b then [] else s[b..e]
  }

  /**
   * The rows shown on `page`: the contiguous run of list elements starting at
   * `page * rowsPerPage`, at most `rowsPerPage` long, cut short by the end of the list.
   */
  function PageWindow<T>(s: seq<T>, page: nat, rowsPerPage: nat): (r: seq<T>)
    ensures |r| <= rowsPerPage
    ensures |s| <= PageStart(page, rowsPerPage) ==> r == []
    ensures PageStart(page, rowsPerPage) < |s| ==>
      |r| == Min(rowsPerPage, |s| - PageStart(page, rowsPerPage))
    ensures forall i :: 0 <= i < |r| ==> PageStart(page, rowsPerPage) + i < |s| && r[i] == s[PageStart(page, rowsPerPage) + i]
  {
    var start := PageStart(page, rowsPerPage);
    Slice(s, start, start + rowsPerPage)
  }

  /** With pages of `rowsPerPage > 0` rows, every element of the list is shown on exactly the page its position says. */
  lemma PageShowsEveryElement<T>(s: seq<T>, rowsPerPage: nat, j: nat)
    requires 0 < rowsPerPage && j < |s|
    ensures var page := j / rowsPerPage;
      && j % rowsPerPage < |PageWindow(s, page, rowsPerPage)|
      && PageWindow(s, page, rowsPerPage)[j % rowsPerPage] == s[j]
  {
    var page, row := j / rowsPerPage, j % rowsPerPage;
    assert PageStart(page, rowsPerPage) + row == j;
    assert PageStart(page, rowsPerPage) < |s|;
  }

  /** The pages do not overlap: the element at `row` of `page` is on no other page. */
  lemma PagesAreDisjoint<T>(s: seq<T>, rowsPerPage: nat, page: nat, row: nat, page': nat, row': nat)
    requires row < |PageWindow(s, page, rowsPerPage)| && row' < |PageWindow(s, page', rowsPerPage)|
    requires page != page'
    ensures PageStart(page, rowsPerPage) + row != PageStart(page', rowsPerPage) + row'
  {
    if page < page' {
      assert PageStart(page, rowsPerPage) + rowsPerPage <= PageStart(page', rowsPerPage) by {
        assert row < rowsPerPage && row' < rowsPerPage;
        assert (page + 1) * rowsPerPage == page * rowsPerPage + rowsPerPage;
        MulMonotone(page + 1, page', rowsPerPage);
      }
    } else {
      assert PageStart(page', rowsPerPage) + rowsPerPage <= PageStart(page, rowsPerPage) by {
        assert row < rowsPerPage && row' < rowsPerPage;
        assert (page' + 1) * rowsPerPage == page' * rowsPerPage + rowsPerPage;
        MulMonotone(page' + 1, page, rowsPerPage);
      }
    }
  }

  lemma MulMonotone(a: nat, b: nat, c: nat)
    requires a <= b
    ensures a * c <= b * c
  {
  }

  /** Three rows in pages of two: the first page holds two, the second one, a far page none. */
  lemma ThreeRowsInPagesOfTwo<T>(a: T, b: T, c: T)
    ensures PageWindow([a, b, c], 0, 2) == [a, b]
    ensures PageWindow([a, b, c], 1, 2) == [c]
    ensures PageWindow([a, b, c], 5, 2) == []
  {
    assert [a, b, c][0..2] == [a, b];
    assert [a, b, c][2..] == [c];
  }

  /** The props of MUI's pagination control. */
  datatype Pager = Pager(count: nat, page: nat, rowsPerPage: nat, rowsPerPageOptions: seq<nat>)
}
