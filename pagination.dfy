/**
  Pagination arithmetic of the movie listing page: the fixed page size, the
  row offset of a page, the number of pages and the "showing X to Y of Z"
  range printed above the page links.

  The page number comes from an integer cast of the `page` query parameter
  and is never validated, so every function here accepts any `int`.
 */
module Pagination {

  /** Rows per listing page (`$limit`). */
  const PageSize: int := 20

  function Min(a: int, b: int): int { if a <= b then a else b }

  function Max(a: int, b: int): int { if a >= b then a else b }

  /** Number of rows skipped before the given page (`$offset`). */
  function Offset(page: int): (r: int)
    ensures page >= 1 ==> r >= 0 && r % PageSize == 0
    ensures page < 1 ==> r < 0
  {
    (page - 1) * PageSize
  }

  /** The page on which the row at zero-based position `row` is listed. */
  function PageOfRow(row: nat): (p: int)
    ensures p >= 1
  {
    row / PageSize + 1
  }

  /** Pages partition the rows: a row lies in the offset window of exactly one page. */
  lemma RowOnExactlyOnePage(row: nat, page: int)
    ensures Offset(page) <= row < Offset(page) + PageSize <==> page == PageOfRow(row)
  {
    var q := row / PageSize;
    assert row == q * PageSize + row % PageSize;
    if page - 1 > q {
      assert Offset(page) >= (q + 1) * PageSize;
    } else if page - 1 < q {
      assert Offset(page) + PageSize <= q * PageSize;
    }
  }

  /** Number of pages for `total` matching rows (`ceil($totalMovies / $limit)`):
      the least page count whose pages hold every row. */
  function TotalPages(total: nat): (r: nat)
    ensures r * PageSize >= total
    ensures r > 0 ==> (r - 1) * PageSize < total
    ensures r == 0 <==> total == 0
  {
    (total + PageSize - 1) / PageSize
  }

  /** A page number at least 1 selects a non-empty window of rows exactly when
      it is at most the page count; beyond that the query starts past the end. */
  lemma PageHasRowsIffInRange(total: nat, page: int)
    requires page >= 1
    ensures Offset(page) < total <==> page <= TotalPages(total)
  {
    var tp := TotalPages(total);
    if page <= tp {
      assert Offset(page) == (page - 1) * PageSize <= (tp - 1) * PageSize;
    } else {
      assert Offset(page) >= tp * PageSize;
    }
  }

  /** The "showing `first` to `last` of `total`" line. */
  datatype ShownRange = ShownRange(first: int, last: int, total: nat)

  /** The range printed for a page (`$offset + 1` to `min($offset + $limit, $totalMovies)`):
      it never ends past the total and never spans more than one page of rows. */
  function DisplayRange(page: int, total: nat): (r: ShownRange)
    ensures r.total == total && r.last <= total
    ensures r.last - r.first + 1 <= PageSize
  {
    ShownRange(Offset(page) + 1, Min(Offset(page) + PageSize, total), total)
  }

  /** For a page inside the listing the range is a non-empty run of rows
      within 1..total, and a full page of rows on every page but the last. */
  lemma DisplayRangeWithinTotal(page: int, total: nat)
    requires 1 <= page <= TotalPages(total)
    ensures var r := DisplayRange(page, total);
      1 <= r.first <= r.last <= total &&
      (page < TotalPages(total) ==> r.last - r.first + 1 == PageSize)
  {
    PageHasRowsIffInRange(total, page);
    if page < TotalPages(total) {
      PageHasRowsIffInRange(total, page + 1);
    }
  }

  /** The ranges of consecutive pages follow each other without gap or overlap,
      starting at row 1 and ending at the total. */
  lemma DisplayRangesTile(page: int, total: nat)
    requires 1 <= page < TotalPages(total)
    ensures DisplayRange(page + 1, total).first == DisplayRange(page, total).last + 1
    ensures DisplayRange(1, total).first == 1
    ensures DisplayRange(TotalPages(total), total).last == total
  {
    PageHasRowsIffInRange(total, page + 1);
    var tp := TotalPages(total);
    assert Offset(tp) + PageSize >= total;
  }

  /** A page number past the last page (which the page accepts unclamped)
      prints a range whose first row lies after its last row. */
  lemma DisplayRangeInvertedBeyondLastPage(page: int, total: nat)
    requires page > TotalPages(total)
    ensures DisplayRange(page, total).first > DisplayRange(page, total).last
  {
    var tp := TotalPages(total);
    assert Offset(page) >= tp * PageSize >= total;
  }
}
