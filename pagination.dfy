/** Criteria search replies and the pagination arithmetic of
    `runCriteriaSearch`: how the requested page and page size are reconciled
    with what the service reports, and the previous/next page guards. */
module Pagination {
  import opened Wrappers
  import opened Places

  /** What the controller sends to the search command. `page` is 1-based. */
  datatype SearchRequest = SearchRequest(name: Option<string>, year: Option<int>, limit: int, page: int)

  /** The `datas` part of a search reply. Every number may be missing; a
      non-finite or fractional number is modelled as missing. */
  datatype SearchData = SearchData(
    total: Option<int>,
    size: Option<int>,
    pages: Option<int>,
    current: Option<int>,
    records: Option<seq<Record>>)

  /** The search reply envelope. A `null` envelope is the one with every field
      missing. */
  datatype Envelope = Envelope(respCode: Option<int>, respMsg: Option<string>, datas: Option<SearchData>)

  const QueryFailedMessage := "查询失败"
  const NoDataMessage := "API 未返回数据。"

  /** The checks of `runCriteriaSearch` on the reply, in order: a thrown error,
      a non-zero `resp_code` (its message, or a default one), then a missing
      `datas`. */
  function Interpret(reply: Result<Envelope>): (r: Result<SearchData>)
    ensures r.Success? <==>
              reply.Success? && reply.value.respCode.GetOr(0) == 0 && reply.value.datas.Some?
    ensures r.Success? ==> r.value == reply.value.datas.value
    ensures reply.Failure? ==> r == Failure(reply.error)
    ensures reply.Success? && reply.value.respCode.GetOr(0) != 0 ==>
              r == Failure(reply.value.respMsg.GetOr(QueryFailedMessage))
    ensures reply.Success? && reply.value.respCode.GetOr(0) == 0 && reply.value.datas.None? ==>
              r == Failure(NoDataMessage)
  {
    match reply
    case Failure(m) => Failure(m)
    case Success(env) =>
      if env.respCode.GetOr(0) != 0 then Failure(env.respMsg.GetOr(QueryFailedMessage))
      else if env.datas.None? then Failure(NoDataMessage)
      else Success(env.datas.value)
  }

  /** `Math.ceil(a / b)` for a positive divisor. */
  function CeilDiv(a: int, b: int): (q: int)
    requires b > 0
    ensures (q - 1) * b < a <= q * b
  {
    var m := (-a) / b;
    assert -a == m * b + (-a) % b;
    -m
  }

  function Max(a: int, b: int): int {
    if a >= b then a else b
  }

  function Min(a: int, b: int): int {
    if a <= b then a else b
  }

  /** The pagination counters of the session: 0-based page, page size, total
      record count and page count. */
  datatype PageState = PageState(page: int, limit: int, total: int, pages: int)

  /** The page index the reply's `current` stands for: one less when it is at
      least 1 (a 1-based index), itself when 0, and the requested index when
      it is missing or negative. */
  function NormalizeCurrent(current: Option<int>, requested: int): int {
    if current.Some? && current.value >= 1 then current.value - 1
    else if current.Some? && current.value >= 0 then current.value
    else requested
  }

  /** The new counters after a successful search for the 0-based page
      `requestedPage` with page size `requestedLimit`. */
  function Reconcile(requestedPage: int, requestedLimit: int, data: SearchData): (s: PageState)
    ensures s.total == data.total.GetOr(0)
    ensures data.size.Some? && data.size.value > 0 ==> s.limit == data.size.value
    ensures !(data.size.Some? && data.size.value > 0) ==> s.limit == requestedLimit
    ensures data.pages.Some? && data.pages.value > 0 ==> s.pages == data.pages.value
    ensures !(data.pages.Some? && data.pages.value > 0) ==>
              s.pages == Max(CeilDiv(s.total, Max(s.limit, 1)), 1)
    ensures s.pages >= 1
    ensures 0 <= s.page < s.pages
    ensures
      var n := NormalizeCurrent(data.current, requestedPage);
      s.page == (if n < 0 then 0 else if n > s.pages - 1 then s.pages - 1 else n)
  {
    var total := data.total.GetOr(0);
    var limit := if data.size.Some? && data.size.value > 0 then data.size.value else requestedLimit;
    var pages :=
      if data.pages.Some? && data.pages.value > 0 then data.pages.value
      else Max(CeilDiv(total, Max(limit, 1)), 1);
    var maxIndex := Max(pages - 1, 0);
    PageState(Min(Max(NormalizeCurrent(data.current, requestedPage), 0), maxIndex), limit, total, pages)
  }

  /** When the service omits `pages`, the page count is the least number of
      pages of the new size that holds every record, and at least one. */
  lemma PageCountCoversTotal(requestedPage: int, requestedLimit: int, data: SearchData)
    requires !(data.pages.Some? && data.pages.value > 0)
    requires data.total.GetOr(0) > 0
    requires requestedLimit >= 1
    ensures var s := Reconcile(requestedPage, requestedLimit, data);
            s.limit >= 1 && (s.pages - 1) * s.limit < s.total <= s.pages * s.limit
  {
    var s := Reconcile(requestedPage, requestedLimit, data);
    var q := CeilDiv(s.total, s.limit);
    ProductSign(q, s.limit);
    assert q >= 1;
  }

  lemma ProductSign(a: int, b: int)
    requires b >= 1
    ensures a <= 0 ==> a * b <= 0
  {
  }

  /** A reply whose `current` already names a page in range moves the session
      exactly there. */
  lemma CurrentInRangeIsKept(requestedPage: int, requestedLimit: int, data: SearchData)
    requires data.current.Some? && 1 <= data.current.value
    requires data.current.value <= Reconcile(requestedPage, requestedLimit, data).pages
    ensures Reconcile(requestedPage, requestedLimit, data).page == data.current.value - 1
  {
  }

  /** A reply without a usable `current` keeps the requested page when that
      page still exists. */
  lemma RequestedPageIsKept(requestedPage: int, requestedLimit: int, data: SearchData)
    requires data.current.None? || data.current.value < 0
    requires 0 <= requestedPage < Reconcile(requestedPage, requestedLimit, data).pages
    ensures Reconcile(requestedPage, requestedLimit, data).page == requestedPage
  {
  }

  /** The scenario of 23 records in pages of 10, reported with 1-based
      `current`. */
  lemma ExampleReportedPages()
    ensures Reconcile(0, 10, SearchData(Some(23), Some(10), Some(3), Some(1), None))
            == PageState(0, 10, 23, 3)
  {
  }

  /** The scenario of page index 5 requested while only 12 records exist and
      the reply gives neither `pages` nor `current`. */
  lemma ExampleClampedPage()
    ensures Reconcile(5, 10, SearchData(Some(12), Some(10), None, None, None))
            == PageState(1, 10, 12, 2)
  {
    assert CeilDiv(12, 10) == 2;
  }

  // ------------------------------------------------------------ navigation

  /** The previous-page click handler: step back only from a page after the
      first. */
  function PreviousPage(page: int): (r: int)
    ensures r == page - 1 <==> page > 0
    ensures r == page <==> page <= 0
  {
    if page <= 0 then page else page - 1
  }

  /** The next-page click handler: step forward only while a further page
      exists. */
  function NextPage(page: int, pages: int): (r: int)
    ensures r == page + 1 <==> page + 1 < Max(pages, 1)
    ensures r == page <==> page + 1 >= Max(pages, 1)
  {
    if page + 1 >= Max(pages, 1) then page else page + 1
  }

  /** Whether the previous-page button is enabled. */
  predicate PreviousEnabled(page: int, total: int) {
    !(page <= 0 || total == 0)
  }

  /** Whether the next-page button is enabled. */
  predicate NextEnabled(page: int, pages: int, total: int) {
    !(total == 0 || page + 1 >= Max(pages, 1))
  }

  /** Navigation never leaves `[0, max(pages, 1) - 1]`, and an enabled button
      always moves by exactly one page. */
  lemma NavigationStaysInRange(page: int, pages: int, total: int)
    requires 0 <= page <= Max(pages, 1) - 1
    ensures 0 <= PreviousPage(page) <= Max(pages, 1) - 1
    ensures 0 <= NextPage(page, pages) <= Max(pages, 1) - 1
    ensures PreviousEnabled(page, total) ==> PreviousPage(page) == page - 1
    ensures NextEnabled(page, pages, total) ==> NextPage(page, pages) == page + 1
  {
  }
}
