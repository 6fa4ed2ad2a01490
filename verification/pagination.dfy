/**
 * `usePagination` (src/hooks/usePagination.ts): the current page, moved one step at a time within the
 * page count the last response reported, and the totals and flags derived from that response.
 */
module Pagination {
  import opened Wrappers

  const DefaultPageSize: int := 10
  const FirstPage: int := 1

  /** The totals a paginated response reports. */
  datatype Totals = Totals(total: int, totalPages: int)

  /** `pageSize = 10` in the destructuring: only a missing option takes the default (0 stays 0). */
  function PageSize(option: Option<int>): (r: int)
    ensures option.None? ==> r == DefaultPageSize
    ensures option.Some? ==> r == option.value
  {
    option.GetOr(DefaultPageSize)
  }

  /** `paginatedData?.totalPages || 0`. */
  function TotalPages(data: Option<Totals>): (r: int)
    ensures data.None? ==> r == 0
    ensures data.Some? ==> r == data.value.totalPages
  {
    if data.Some? then data.value.totalPages else 0
  }

  /** `paginatedData?.total || 0`. */
  function Total(data: Option<Totals>): (r: int)
    ensures data.None? ==> r == 0
    ensures data.Some? ==> r == data.value.total
  {
    if data.Some? then data.value.total else 0
  }

  /** A navigation request. */
  datatype Move = Next | Previous

  /** The page after one request, against a page count. */
  function Step(page: int, move: Move, totalPages: int): int {
    match move
    case Next => if page < totalPages then page + 1 else page
    case Previous => if page > 1 then page - 1 else page
  }

  /** The page after a series of requests. */
  function Run(page: int, moves: seq<Move>, totalPages: int): int
    decreases |moves|
  {
    if moves == [] then page else Run(Step(page, moves[0], totalPages), moves[1..], totalPages)
  }

  function Max(a: int, b: int): int {
    if a < b then b else a
  }

  /** A page within `1 .. max(1, totalPages)`. */
  predicate InBounds(page: int, totalPages: int) {
    1 <= page <= Max(1, totalPages)
  }

  /** From any page in bounds (the first page among them), no series of requests leaves the bounds. */
  lemma {:induction false} NavigationStaysInBounds(page: int, moves: seq<Move>, totalPages: int)
    requires InBounds(page, totalPages)
    ensures InBounds(Run(page, moves, totalPages), totalPages)
    decreases |moves|
  {
    if moves != [] {
      NavigationStaysInBounds(Step(page, moves[0], totalPages), moves[1..], totalPages);
    }
  }

  /** A step forward and one back return to the page, whenever the step forward was possible. */
  lemma {:induction false} NextThenPreviousReturns(page: int, totalPages: int)
    requires 1 <= page < totalPages
    ensures Run(page, [Next, Previous], totalPages) == page
  {
    assert [Next, Previous][1..] == [Previous];
  }

  class PaginationState {
    var page: int
    const pageSize: int

    constructor(pageSizeOption: Option<int>)
      ensures page == FirstPage && pageSize == PageSize(pageSizeOption)
      ensures InBounds(page, 0)
    {
      page := FirstPage;
      pageSize := PageSize(pageSizeOption);
    }

    /** `hasNextPage`. */
    predicate HasNextPage(totalPages: int)
      reads this
    {
      page < totalPages
    }

    /** `hasPreviousPage`. */
    predicate HasPreviousPage()
      reads this
    {
      page > 1
    }

    /** `nextPage`: one page on when there is a next page, otherwise nothing changes. */
    method NextPage(totalPages: int)
      modifies this
      ensures page == Step(old(page), Next, totalPages)
      ensures old(HasNextPage(totalPages)) ==> page == old(page) + 1
      ensures !old(HasNextPage(totalPages)) ==> page == old(page)
      ensures InBounds(old(page), totalPages) ==> InBounds(page, totalPages)
    {
      if page < totalPages {
        page := page + 1;
      }
    }

    /** `previousPage`: one page back when there is a previous page, otherwise nothing changes. */
    method PreviousPage()
      modifies this
      ensures forall totalPages :: page == Step(old(page), Previous, totalPages)
      ensures old(HasPreviousPage()) ==> page == old(page) - 1
      ensures !old(HasPreviousPage()) ==> page == old(page)
      ensures forall totalPages :: InBounds(old(page), totalPages) ==> InBounds(page, totalPages)
    {
      if page > 1 {
        page := page - 1;
      }
    }

    /** `setPage`: any page may be set directly; the bounds are kept only by the two steps. */
    method SetPage(p: int)
      modifies this
      ensures page == p
    {
      page := p;
    }
  }
}
