// ParsePaginationParams, ApplyPagination and min of utils/utils.go. The
// HTTP request is reduced to the two raw query values it is read from;
// a cursor is nothing but the decimal form of an offset.

module Pagination {
  import opened Models
  import opened Strconv

  /** The cap applied to a requested page size. */
  const MaxPageSize: int := 100

  function Min(a: int, b: int): (r: int)
    ensures r <= a && r <= b
    ensures r == a || r == b
  {
    if a < b then a else b
  }

  /** The pageSize query value is a positive integer. */
  predicate IsPositiveInteger(pageSizeParam: string)
  {
    pageSizeParam != "" && Atoi(pageSizeParam).Some? && Atoi(pageSizeParam).value > 0
  }

  /** The cursor query value is a non-negative integer. */
  predicate IsOffset(cursorParam: string)
  {
    cursorParam != "" && Atoi(cursorParam).Some? && Atoi(cursorParam).value >= 0
  }

  function ParsePaginationParams(pageSizeParam: string, cursorParam: string, defaultPageSize: int): (p: PaginationParams)
    ensures p.cursor == cursorParam
    ensures p.pageSize == defaultPageSize || 1 <= p.pageSize <= MaxPageSize
    ensures IsPositiveInteger(pageSizeParam) ==> p.pageSize == Min(Atoi(pageSizeParam).value, MaxPageSize)
    ensures !IsPositiveInteger(pageSizeParam) ==> p.pageSize == defaultPageSize
    ensures p.offset >= 0
    ensures IsOffset(cursorParam) ==> p.offset == Atoi(cursorParam).value
    ensures !IsOffset(cursorParam) ==> p.offset == 0
  {
    var pageSize :=
      if pageSizeParam == "" then defaultPageSize
      else match Atoi(pageSizeParam)
        case Some(size) => if size > 0 then (if size > MaxPageSize then MaxPageSize else size) else defaultPageSize
        case None => defaultPageSize;
    var offset :=
      if cursorParam == "" then 0
      else match Atoi(cursorParam)
        case Some(n) => if n >= 0 then n else 0
        case None => 0;
    PaginationParams(cursorParam, pageSize, offset)
  }

  /** The slice entries[offset:end] in Go panics unless 0 <= offset <= end;
      this is what that demands of the parameters when the slice is taken. */
  predicate SliceableBy(entries: seq<EntryResult>, params: PaginationParams)
  {
    params.offset < |entries| ==> 0 <= params.offset && 0 <= params.pageSize
  }

  function ApplyPagination(entries: seq<EntryResult>, params: PaginationParams): (r: PaginatedResponse)
    requires SliceableBy(entries, params)
    ensures r.hasMore <==> params.offset + params.pageSize < |entries|
    ensures params.offset < |entries| ==>
      r.entries == entries[params.offset..Min(params.offset + params.pageSize, |entries|)]
    ensures params.offset >= |entries| ==> r.entries == []
    ensures 0 <= params.pageSize ==> |r.entries| <= params.pageSize
    ensures r.nextCursor != "" <==> r.hasMore
    ensures r.hasMore ==> r.nextCursor == Itoa(params.offset + params.pageSize)
  {
    var total := |entries|;
    var hasMore := params.offset + params.pageSize < total;
    var endIndex := Min(params.offset + params.pageSize, total);
    var page := if params.offset < total then entries[params.offset..endIndex] else [];
    var nextCursor := if hasMore then Itoa(params.offset + params.pageSize) else "";
    PaginatedResponse(page, nextCursor, hasMore)
  }

  /** Page sizes given as integers: a size above the cap is capped, a
      positive one is taken as is, anything else falls back to the default. */
  lemma PageSizeOfInteger(size: int, cursorParam: string, defaultPageSize: int)
    ensures ParsePaginationParams(Itoa(size), cursorParam, defaultPageSize).pageSize
      == if size > MaxPageSize then MaxPageSize else if size > 0 then size else defaultPageSize
  {
    AtoiItoa(size);
  }

  /** A cursor written by ApplyPagination is read back by ParsePaginationParams
      as the offset it was written from. */
  lemma CursorRoundTrip(pageSizeParam: string, offset: int, defaultPageSize: int)
    requires offset >= 0
    ensures ParsePaginationParams(pageSizeParam, Itoa(offset), defaultPageSize).offset == offset
  {
    AtoiItoa(offset);
  }

  /** When a page reports more entries, the cursor it hands out starts the
      next page exactly where this one ended: no gap and no overlap. */
  lemma NextPageFollowsOn(entries: seq<EntryResult>, params: PaginationParams, pageSizeParam: string, defaultPageSize: int)
    requires 0 <= params.offset && 0 <= params.pageSize
    requires ApplyPagination(entries, params).hasMore
    ensures ParsePaginationParams(pageSizeParam, ApplyPagination(entries, params).nextCursor, defaultPageSize).offset
      == params.offset + params.pageSize
      == params.offset + |ApplyPagination(entries, params).entries|
  {
    CursorRoundTrip(pageSizeParam, params.offset + params.pageSize, defaultPageSize);
  }

  /** What a client reads by starting from the given cursor and following
      nextCursor with an unchanged page size until hasMore is false. */
  function FollowCursors(entries: seq<EntryResult>, pageSizeParam: string, cursorParam: string, defaultPageSize: int): seq<EntryResult>
    requires defaultPageSize >= 1
    decreases |entries| - ParsePaginationParams(pageSizeParam, cursorParam, defaultPageSize).offset
  {
    var params := ParsePaginationParams(pageSizeParam, cursorParam, defaultPageSize);
    var page := ApplyPagination(entries, params);
    if page.hasMore then
      NextPageFollowsOn(entries, params, pageSizeParam, defaultPageSize);
      page.entries + FollowCursors(entries, pageSizeParam, page.nextCursor, defaultPageSize)
    else page.entries
  }

  /** One step of the walk: the page at the cursor's offset, then the walk
      from the cursor that page hands out. */
  lemma FollowCursorsStep(entries: seq<EntryResult>, pageSizeParam: string, cursorParam: string, defaultPageSize: int)
    requires defaultPageSize >= 1
    ensures var page := ApplyPagination(entries, ParsePaginationParams(pageSizeParam, cursorParam, defaultPageSize));
      FollowCursors(entries, pageSizeParam, cursorParam, defaultPageSize)
        == if page.hasMore then page.entries + FollowCursors(entries, pageSizeParam, page.nextCursor, defaultPageSize)
           else page.entries
  {
  }

  /** Following the cursors from any starting cursor reads every entry from
      that cursor's offset to the end, each once and in order. */
  lemma {:induction false} FollowCursorsFrom(entries: seq<EntryResult>, pageSizeParam: string, cursorParam: string, defaultPageSize: int)
    requires defaultPageSize >= 1
    ensures var offset := ParsePaginationParams(pageSizeParam, cursorParam, defaultPageSize).offset;
      FollowCursors(entries, pageSizeParam, cursorParam, defaultPageSize)
        == if offset < |entries| then entries[offset..] else []
    decreases |entries| - ParsePaginationParams(pageSizeParam, cursorParam, defaultPageSize).offset
  {
    var params := ParsePaginationParams(pageSizeParam, cursorParam, defaultPageSize);
    var page := ApplyPagination(entries, params);
    FollowCursorsStep(entries, pageSizeParam, cursorParam, defaultPageSize);
    if page.hasMore {
      var offset, next := params.offset, params.offset + params.pageSize;
      assert page.nextCursor == Itoa(next);
      CursorRoundTrip(pageSizeParam, next, defaultPageSize);
      FollowCursorsFrom(entries, pageSizeParam, page.nextCursor, defaultPageSize);
      assert page.entries == entries[offset..next];
      SliceJoin(entries, offset, next);
    } else if params.offset < |entries| {
      assert page.entries == entries[params.offset..];
    }
  }

  lemma SliceJoin(s: seq<EntryResult>, i: int, j: int)
    requires 0 <= i <= j <= |s|
    ensures s[i..j] + s[j..] == s[i..]
  {
  }

  /** Starting without a cursor and following every nextCursor reads the
      whole list, each entry once and in order. */
  lemma FollowingCursorsReadsEveryEntry(entries: seq<EntryResult>, pageSizeParam: string, defaultPageSize: int)
    requires defaultPageSize >= 1
    ensures FollowCursors(entries, pageSizeParam, "", defaultPageSize) == entries
  {
    FollowCursorsFrom(entries, pageSizeParam, "", defaultPageSize);
  }

  /** A worked example: five entries, pages of two. */
  lemma PagingExample(e1: EntryResult, e2: EntryResult, e3: EntryResult, e4: EntryResult, e5: EntryResult)
    ensures var entries := [e1, e2, e3, e4, e5];
      && ApplyPagination(entries, ParsePaginationParams("2", "", DefaultPageSize)) == PaginatedResponse([e1, e2], "2", true)
      && ApplyPagination(entries, ParsePaginationParams("2", "2", DefaultPageSize)) == PaginatedResponse([e3, e4], "4", true)
      && ApplyPagination(entries, ParsePaginationParams("2", "4", DefaultPageSize)) == PaginatedResponse([e5], "", false)
  {
    assert Atoi("2") == Some(2) by {
      assert DigitsValue("2") == DigitsValue("") * 10 + DigitValue('2');
    }
    assert Atoi("4") == Some(4) by {
      assert DigitsValue("4") == DigitsValue("") * 10 + DigitValue('4');
    }
    assert Itoa(2) == "2" && Itoa(4) == "4";
  }
}
