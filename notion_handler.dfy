// internal/api/handlers/notion_handler.go carries its own copies of the
// pagination helpers, identical in text to those of utils/utils.go. They
// are modelled by those definitions; each copy states the contract the
// handler relies on.

module NotionHandler {
  import opened Models
  import opened Strconv
  import Pagination

  /** parsePaginationParams: the page size is the default or lies in
      [1, 100], and lies in [1, 100] whenever a positive integer was asked
      for; the offset is the cursor's value when that is a non-negative
      integer and 0 otherwise; the cursor is kept as given. */
  function ParsePaginationParams(pageSizeParam: string, cursorParam: string, defaultPageSize: int): (p: PaginationParams)
    ensures p.pageSize == defaultPageSize || 1 <= p.pageSize <= Pagination.MaxPageSize
    ensures Pagination.IsPositiveInteger(pageSizeParam) ==>
      1 <= p.pageSize <= Pagination.MaxPageSize && p.pageSize == Pagination.Min(Atoi(pageSizeParam).value, Pagination.MaxPageSize)
    ensures !Pagination.IsPositiveInteger(pageSizeParam) ==> p.pageSize == defaultPageSize
    ensures p.cursor == cursorParam
    ensures p.offset >= 0
    ensures Pagination.IsOffset(cursorParam) ==> p.offset == Atoi(cursorParam).value
    ensures !Pagination.IsOffset(cursorParam) ==> p.offset == 0
  {
    Pagination.ParsePaginationParams(pageSizeParam, cursorParam, defaultPageSize)
  }

  /** applyPagination: hasMore says whether entries remain after this page;
      the page is the slice [offset, min(offset + pageSize, total)) or empty
      past the end; nextCursor is the decimal of offset + pageSize exactly
      when hasMore. */
  function ApplyPagination(entries: seq<EntryResult>, params: PaginationParams): (r: PaginatedResponse)
    requires Pagination.SliceableBy(entries, params)
    ensures r.hasMore <==> params.offset + params.pageSize < |entries|
    ensures params.offset < |entries| ==> r.entries == entries[params.offset..Pagination.Min(params.offset + params.pageSize, |entries|)]
    ensures params.offset >= |entries| ==> r.entries == []
    ensures 0 <= params.pageSize ==> |r.entries| <= params.pageSize
    ensures r.hasMore ==> r.nextCursor == Itoa(params.offset + params.pageSize)
    ensures !r.hasMore ==> r.nextCursor == ""
  {
    Pagination.ApplyPagination(entries, params)
  }

  /** min: a lower bound of both arguments that is one of them. */
  function Min(a: int, b: int): (r: int)
    ensures r <= a && r <= b
    ensures r == a || r == b
  {
    Pagination.Min(a, b)
  }

  /** With the configured default page size, the parsed parameters can
      always be handed to applyPagination without the slice panicking. */
  lemma ParsedParamsAreSliceable(entries: seq<EntryResult>, pageSizeParam: string, cursorParam: string)
    ensures Pagination.SliceableBy(entries, ParsePaginationParams(pageSizeParam, cursorParam, DefaultPageSize))
    ensures 1 <= ParsePaginationParams(pageSizeParam, cursorParam, DefaultPageSize).pageSize <= Pagination.MaxPageSize
  {
  }
}
