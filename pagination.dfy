/**
 * `get_pagination`: the limit and offset of a list request, clamped, with
 * the filters and sorts parsed from the same query string.
 */
module Pagination {
  import opened Wrappers
  import Text
  import opened QueryParams
  import PaginationFilter
  import PaginationSort

  const DefaultLimit := 10
  const DefaultOffset := 0
  const MaxLimit := 1000
  const NotIntegers := "Limit and offset must be integers."

  datatype Page = Page(limit: int, offset: int)
  datatype PageQuery = PageQuery(page: Page, filters: PaginationFilter.Filters, sorts: PaginationSort.Sorts)

  /** `max(1, min(limit, 1000))`. */
  function ClampLimit(n: int): (r: int)
    ensures 1 <= r <= MaxLimit
    ensures 1 <= n <= MaxLimit ==> r == n
  {
    if n < 1 then 1 else if n > MaxLimit then MaxLimit else n
  }

  /** `max(0, offset)`. */
  function ClampOffset(n: int): (r: int)
    ensures r >= 0
    ensures n >= 0 ==> r == n
  {
    if n < 0 then 0 else n
  }

  /** A value read from the query, or the integer default when the key is absent. */
  function IntParam(q: Query, key: string, default: int): Option<int>
  {
    match Get(q, key)
    case None => Some(default)
    case Some(v) => Text.ParseInt(v)
  }

  /**
   * `get_pagination(request, allowed_keys)`: limit and offset are parsed
   * first and a bad one raises before any filter is read; then the filters,
   * whose own error passes through, and the sorts.
   */
  function GetPagination(q: Query, allowedKeys: Option<seq<string>>, operations: seq<string>, sortOrders: seq<string>)
    : (r: Result<PageQuery>)
    requires Parsed(q)
    ensures IntParam(q, "limit", DefaultLimit).None? || IntParam(q, "offset", DefaultOffset).None? ==> r == Err(NotIntegers)
    ensures r.Ok? ==> 1 <= r.value.page.limit <= MaxLimit && r.value.page.offset >= 0
    ensures r.Ok? ==> Ok(r.value.filters) == PaginationFilter.FilterSpec(q, allowedKeys, operations)
    ensures r.Ok? ==> r.value.sorts == PaginationSort.SortSpec(q, sortOrders)
  {
    match (IntParam(q, "limit", DefaultLimit), IntParam(q, "offset", DefaultOffset))
    case (Some(limit), Some(offset)) =>
      (match PaginationFilter.FilterSpec(q, allowedKeys, operations)
       case Err(e) => Err(e)
       case Ok(filters) =>
         Ok(PageQuery(Page(ClampLimit(limit), ClampOffset(offset)), filters, PaginationSort.SortSpec(q, sortOrders)))
      )
    case _ => Err(NotIntegers)
  }

  /** Without `limit` or `offset` in the query the page is the first ten rows. */
  lemma DefaultPage(q: Query, allowedKeys: Option<seq<string>>, operations: seq<string>, sortOrders: seq<string>)
    requires Parsed(q) && !Has(q, "limit") && !Has(q, "offset")
    requires GetPagination(q, allowedKeys, operations, sortOrders).Ok?
    ensures GetPagination(q, allowedKeys, operations, sortOrders).value.page == Page(DefaultLimit, DefaultOffset)
  {
  }

  /** Clamping is idempotent: a returned page clamps to itself. */
  lemma ClampIdempotent(limit: int, offset: int)
    ensures ClampLimit(ClampLimit(limit)) == ClampLimit(limit)
    ensures ClampOffset(ClampOffset(offset)) == ClampOffset(offset)
  {
  }

  /** Any successful parse yields a page that clamping leaves unchanged. */
  lemma PageIsClamped(q: Query, allowedKeys: Option<seq<string>>, operations: seq<string>, sortOrders: seq<string>)
    requires Parsed(q) && GetPagination(q, allowedKeys, operations, sortOrders).Ok?
    ensures var p := GetPagination(q, allowedKeys, operations, sortOrders).value.page;
      ClampLimit(p.limit) == p.limit && ClampOffset(p.offset) == p.offset
  {
  }
}
