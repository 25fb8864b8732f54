/**
 * The pagination metadata every list endpoint returns: the page count is the
 * ceiling of `total / limit`, and the next and previous flags compare the
 * requested page with it. Page and limit are JavaScript numbers, so NaN and a
 * zero or negative limit are possible inputs where a handler does not clamp.
 */
module Pagination {
  import opened Wrappers
  import opened JsNumbers

  datatype PaginationMeta = PaginationMeta(
    total: nat,
    page: Option<int>,
    limit: Option<int>,
    totalPages: Number,
    hasNextPage: bool,
    hasPrevPage: bool)

  /** `generatePaginationMeta(total, page, limit)` */
  function GeneratePaginationMeta(total: nat, page: Option<int>, limit: Option<int>): (m: PaginationMeta)
    ensures m.total == total && m.page == page && m.limit == limit
    ensures m.hasPrevPage <==> page.Some? && page.value > 1
    ensures limit.Some? && limit.value > 0 ==>
              m.totalPages.Finite? && (m.totalPages.n - 1) * limit.value < total <= m.totalPages.n * limit.value
  {
    var totalPages := CeilRatio(total, limit);
    PaginationMeta(total, page, limit, totalPages, Less(page, totalPages), page.Some? && page.value > 1)
  }

  /** Multiplying by a positive limit keeps the order of page numbers. */
  lemma MulStrictMonotone(a: int, b: int, l: int)
    requires l >= 1
    ensures a < b <==> a * l < b * l
  {
    if a < b {
      assert b * l - a * l == (b - a) * l;
      MulPositive(b - a, l);
    } else {
      assert a * l - b * l == (a - b) * l;
      MulNonNegative(a - b, l);
    }
  }

  lemma MulPositive(a: int, b: int)
    requires a >= 1 && b >= 1
    ensures a * b >= 1
  {
  }

  /**
   * With a numeric page and a positive limit there is a next page exactly
   * when the items up to the end of this page are fewer than the total.
   */
  lemma HasNextIffMoreItems(total: nat, page: int, limit: int)
    requires limit >= 1
    ensures GeneratePaginationMeta(total, Some(page), Some(limit)).hasNextPage <==> page * limit < total
  {
    var m := GeneratePaginationMeta(total, Some(page), Some(limit));
    var r := m.totalPages.n;
    MulStrictMonotone(page, r, limit);
    MulStrictMonotone(page, r - 1, limit);
  }

  /** The page before the first is never reported: page 1 has no previous page, every later page has one. */
  lemma HasPrevIffAfterFirst(total: nat, page: int, limit: Option<int>)
    ensures GeneratePaginationMeta(total, Some(page), limit).hasPrevPage <==> page >= 2
  {
  }

  /** Twenty-five items, ten per page, make three pages: page 1 has only a next page, page 3 only a previous one, page 4 neither a next page nor a fourth page. */
  lemma TwentyFiveByTen()
    ensures var m := GeneratePaginationMeta(25, Some(1), Some(10));
            m.totalPages == Finite(3) && m.hasNextPage && !m.hasPrevPage
    ensures var m := GeneratePaginationMeta(25, Some(3), Some(10));
            m.totalPages == Finite(3) && !m.hasNextPage && m.hasPrevPage
    ensures var m := GeneratePaginationMeta(25, Some(4), Some(10));
            m.totalPages == Finite(3) && !m.hasNextPage && m.hasPrevPage
  {
    assert CeilDiv(25, 10) == 3;
  }

  /** A limit of 0 divides by zero: the page count is Infinity, so every numeric page has a next page, or NaN when there are no items, so none has. */
  lemma ZeroLimit(total: nat, page: int)
    ensures var m := GeneratePaginationMeta(total, Some(page), Some(0));
            && (total > 0 ==> m.totalPages == Infinity && m.hasNextPage)
            && (total == 0 ==> m.totalPages == NaN && !m.hasNextPage)
  {
  }

  /** A NaN page has neither a next nor a previous page, and a NaN limit makes the page count NaN. */
  lemma NaNInputs(total: nat, page: Option<int>, limit: Option<int>)
    ensures page.None? ==> !GeneratePaginationMeta(total, page, limit).hasNextPage && !GeneratePaginationMeta(total, page, limit).hasPrevPage
    ensures limit.None? ==> GeneratePaginationMeta(total, page, limit).totalPages == NaN && !GeneratePaginationMeta(total, page, limit).hasNextPage
  {
  }
}
