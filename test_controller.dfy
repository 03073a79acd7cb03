/**
 * The demo's `TestController`: REST handlers that validate pagination,
 * turn a query string into a query, and delegate to the demo
 * `LogStorageService`. The search handlers are modelled as functions that
 * return the service call they make (if any) and the HTTP response; the
 * service's answer is a parameter.
 */
module DemoTestController {
  import opened Wrappers
  import opened JavaText
  import opened Time
  import opened BlockingQueue
  import opened LogEntries
  import opened DemoLogStorage
  import SimpleEsWriter

  const LogAdded: string := "Log added to queue"
  const MaxPageSize: int := 1000
  const DefaultField: string := "message"

  /** `isValidPagination`: page at least 1, size from 1 to 1000. */
  predicate IsValidPagination(page: int, size: int)
  {
    page >= 1 && size >= 1 && size <= MaxPageSize
  }

  /** `QueryBuilders.queryStringQuery(query).defaultField("message")`. */
  datatype QueryStringQuery = QueryStringQuery(query: string, defaultField: string)

  /** `buildQuery`: no query for a null or blank string; otherwise a query-string query on `message`, the text untrimmed. */
  function BuildQuery(query: Option<string>): (q: Option<QueryStringQuery>)
    ensures q.None? <==> query.None? || AllTrimmable(query.value)
    ensures q.Some? ==> q.value.query == query.value && q.value.defaultField == DefaultField
  {
    if query.None? || IsBlankText(query.value) then None
    else Some(QueryStringQuery(query.value, DefaultField))
  }

  /** A call into the demo `LogStorageService`. */
  datatype ServiceCall =
    | PageSearch(indexName: string, query: Option<QueryStringQuery>, page: int, size: int)
    | PageOfAll(indexName: string, page: int, size: int)
    | CountOf(indexName: string, query: Option<QueryStringQuery>)

  datatype Status = Ok200 | BadRequest400 | InternalServerError500

  /** A `ResponseEntity`: its status and, for 200, its body. */
  datatype Response<T> = Response(status: Status, body: Option<T>)

  /** What a handler did: the service call it made, if any, and its response. */
  datatype Handled<T> = Handled(call: Option<ServiceCall>, response: Response<T>)

  /** A made service call answered: its result as 200, or 500 when the service throws. */
  function Delegate<T>(call: ServiceCall, service: ServiceCall -> Result<T, string>): (h: Handled<T>)
    ensures h.call == Some(call)
    ensures service(call).Ok? ==> h.response == Response(Ok200, Some(service(call).value))
    ensures service(call).Err? ==> h.response == Response(InternalServerError500, None)
  {
    match service(call)
    case Ok(results) => Handled(Some(call), Response(Ok200, Some(results)))
    case Err(_) => Handled(Some(call), Response(InternalServerError500, None))
  }

  /** `/search/pagination`: invalid pagination is a 400 with no service call; otherwise one search with the built query. */
  function SearchWithPagination<T>(indexName: string, query: Option<string>, page: int, size: int, service: ServiceCall -> Result<T, string>): (h: Handled<T>)
    ensures !IsValidPagination(page, size) ==> h == Handled(None, Response(BadRequest400, None))
    ensures IsValidPagination(page, size) ==> h == Delegate(PageSearch(indexName, BuildQuery(query), page, size), service)
    ensures h.call.Some? <==> IsValidPagination(page, size)
    ensures h.response.status == BadRequest400 <==> h.call.None?
  {
    if !IsValidPagination(page, size) then Handled(None, Response(BadRequest400, None))
    else Delegate(PageSearch(indexName, BuildQuery(query), page, size), service)
  }

  /** `/search/all/pagination`: the same guard, then one unfiltered search. */
  function SearchAllWithPagination<T>(indexName: string, page: int, size: int, service: ServiceCall -> Result<T, string>): (h: Handled<T>)
    ensures !IsValidPagination(page, size) ==> h == Handled(None, Response(BadRequest400, None))
    ensures IsValidPagination(page, size) ==> h == Delegate(PageOfAll(indexName, page, size), service)
    ensures h.call.Some? <==> IsValidPagination(page, size)
    ensures h.response.status == BadRequest400 <==> h.call.None?
  {
    if !IsValidPagination(page, size) then Handled(None, Response(BadRequest400, None))
    else Delegate(PageOfAll(indexName, page, size), service)
  }

  /** `/search/total-count`: no pagination guard; one count with the built query. */
  function GetTotalCount<T>(indexName: string, query: Option<string>, service: ServiceCall -> Result<T, string>): (h: Handled<T>)
    ensures h.call == Some(CountOf(indexName, BuildQuery(query)))
    ensures h.response.status != BadRequest400
  {
    Delegate(CountOf(indexName, BuildQuery(query)), service)
  }

  /** `/search/all`: always the first page of ten. */
  function SearchAll<T>(indexName: string, service: ServiceCall -> Result<T, string>): (h: Handled<T>)
    ensures h.call == Some(PageOfAll(indexName, 1, 10))
    ensures IsValidPagination(h.call.value.page, h.call.value.size)
    ensures h.response.status != BadRequest400
  {
    Delegate(PageOfAll(indexName, 1, 10), service)
  }

  /**
   * For valid pagination with page at most 2147484 the writer's offset
   * `(page - 1) * size` is exact and not negative.
   */
  lemma ValidPaginationOffset(page: int, size: int)
    requires IsValidPagination(page, size) && page <= 2147484
    ensures SimpleEsWriter.PageOffset(page, size) == (page - 1) * size >= 0
  {
    var p := page - 1;
    MulMonotonic(p, 2147483, size);
    MulMonotonic(size, MaxPageSize, 2147483);
    assert 0 <= p * size;
  }

  /** Helper: multiplying by a non-negative factor keeps the order. */
  lemma MulMonotonic(a: int, b: int, c: int)
    requires a <= b && 0 <= c
    ensures a * c <= b * c
  {
    assert b * c == a * c + (b - a) * c;
  }

  /**
   * The guard bounds the size but not the page: page 2147485 with size
   * 1000 passes it, and the writer's 32-bit offset wraps to a negative
   * `from`. The writer's source builder refuses that offset, so the search
   * fails and the handler answers 500 instead of 400.
   */
  lemma ValidPaginationOffsetWraps()
    ensures IsValidPagination(2147485, 1000)
    ensures SimpleEsWriter.PageOffset(2147485, 1000) == -2147483296
    ensures (2147485 - 1) * 1000 > MaxInt
  {
  }

  /** The controller and the demo service it delegates to. */
  class TestController {
    const service: LogStorageService

    constructor(service: LogStorageService)
      ensures this.service == service
    {
      this.service := service;
    }

    /** `/log`: offers one entry with the given level and message, stamped `now`. */
    method AddLog(level: string, message: string, now: LocalDateTime) returns (reply: string)
      requires service.Valid()
      modifies service
      ensures service.Valid()
      ensures service.queue == Offer(old(service.queue), service.capacity, NewLogEntry(Some(level), Some(message), now))
      ensures service.drained == old(service.drained)
      ensures reply == LogAdded
    {
      service.AddLogToQueue(Some(NewLogEntry(Some(level), Some(message), now)));
      reply := LogAdded;
    }

    /** `/logNull`: offers one entry of level `test` with an empty (not null) message. */
    method AddEmptyMessageLog(now: LocalDateTime) returns (reply: string)
      requires service.Valid()
      modifies service
      ensures service.Valid()
      ensures service.queue == Offer(old(service.queue), service.capacity, LogEntry(Some("test"), Some(""), Some(now)))
      ensures service.drained == old(service.drained)
      ensures reply == LogAdded
    {
      reply := AddLog("test", "", now);
    }
  }
}
