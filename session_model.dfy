/** The browsing session as a value, and one transition per event handler
    of the controller. Each transition returns the new session and the
    service calls it made, in order; every asynchronous handler runs to
    completion before the next event. */
module SessionModel {
  import opened Wrappers
  import opened Text
  import opened Places
  import opened Pagination
  import opened PageSize
  import opened DetailCache

  /** The detail tabs. */
  datatype DetailMode = Basic | Source | Raw

  /** The two ways of searching. */
  datatype SearchMode = Criteria | SysIdLookup

  /** The last criteria submitted. */
  datatype Query = Query(name: Option<string>, year: Option<int>)

  /** What the results area shows: nothing, the "no matching places" note,
      or a table of records with the total record count. */
  datatype ResultsView = Cleared | NoMatches | Table(records: seq<Record>, total: int)

  datatype StatusKind = Info | Error | Succeeded

  /** The status line: empty, or a message with its variant. */
  datatype Status = Blank | Shown(text: string, kind: StatusKind)

  /** One call into the backend commands. */
  datatype ServiceCall = Searched(request: SearchRequest) | Fetched(sysId: string)

  /** The search command: a reply envelope or a thrown error. */
  type SearchService = SearchRequest -> Result<Envelope>

  /** The detail panel: the selected record, its detail and the open tab. */
  datatype View = View(record: Option<Record>, detail: Option<Detail>, mode: DetailMode)

  datatype State = State(
    query: Option<Query>,
    paging: PageState,
    cache: map<string, Detail>,
    view: View,
    searchMode: SearchMode,
    sysIdInput: string,
    results: ResultsView,
    pager: Option<Pager>,
    status: Status)

  /** A session after a handler, with the service calls the handler made. */
  datatype Step = Step(state: State, calls: seq<ServiceCall>)

  const EnterSysIdMessage := "请输入 SysId。"
  const LookupSucceededMessage := "查询成功。"

  /** `setStatus`: a message that trims to nothing (is all white space)
      clears the line. */
  function SetStatus(message: string, kind: StatusKind): (s: Status)
    ensures s == Blank <==> AllSpace(message)
    ensures s.Shown? ==> s.text == message && s.kind == kind
  {
    if AllSpace(message) then Blank else Shown(message, kind)
  }

  /** The panel after `resetDetailView`. */
  const EmptyView := View(None, None, Basic)

  /** What every handler keeps: the counters describe an existing page of a
      positive size, a selection is always a record together with its detail,
      and that detail is the cached one for the record's key; pagination
      controls exist only for a criteria search in criteria mode. */
  predicate Inv(st: State) {
    && st.paging.limit >= 1
    && st.paging.pages >= 1
    && 0 <= st.paging.page < st.paging.pages
    && (st.view.record.Some? <==> st.view.detail.Some?)
    && (st.view.record.Some? ==>
          && Key(st.view.record.value).Some?
          && Key(st.view.record.value).value in st.cache
          && st.cache[Key(st.view.record.value).value] == st.view.detail.value)
    && (st.pager.Some? ==> st.query.Some? && st.searchMode == Criteria)
  }

  /** The session once the page has loaded. */
  function Initial(): (st: State)
    ensures Inv(st)
    ensures st.paging == PageState(0, 10, 0, 1) && st.cache == map[]
    ensures st.view == EmptyView && st.searchMode == Criteria && st.status == Blank
  {
    State(None, PageState(0, 10, 0, 1), map[], EmptyView, Criteria, "", Cleared, None, Blank)
  }

  /** The results area `renderResults` builds for a record list. */
  function Listing(records: Option<seq<Record>>, total: int): (v: ResultsView)
    ensures v == NoMatches <==> records.None? || records.value == []
    ensures v.Table? ==> v.records == records.value && v.total == total
  {
    if records.None? || records.value == [] then NoMatches else Table(records.value, total)
  }

  // ------------------------------------------------------------ detail tabs

  /** A click on a detail tab. */
  function SelectTab(st: State, mode: DetailMode): State {
    st.(view := st.view.(mode := mode))
  }

  // ----------------------------------------------------------- search mode

  /** `setSearchMode`: switching to criteria empties the SysId field, leaving
      criteria removes the pagination controls, and the status is cleared. */
  function SetSearchMode(st: State, mode: SearchMode): State {
    st.(searchMode := mode,
        sysIdInput := if mode == Criteria then "" else st.sysIdInput,
        pager := if mode == Criteria then st.pager else None,
        status := Blank)
  }

  /** A click on a search-mode button: the current mode is ignored. */
  function ClickSearchMode(st: State, mode: SearchMode): State {
    if mode == st.searchMode then st else SetSearchMode(st, mode)
  }

  /** The user typing into the SysId field. */
  function EditSysId(st: State, text: string): State {
    st.(sysIdInput := text)
  }

  // -------------------------------------------------------- criteria search

  /** The request `runCriteriaSearch` sends from the stored query and
      counters. */
  function RequestFor(q: Query, paging: PageState): (r: SearchRequest)
    ensures r.name == q.name && r.year == q.year
    ensures r.limit == paging.limit && r.page == paging.page + 1
  {
    SearchRequest(q.name, q.year, paging.limit, paging.page + 1)
  }

  /** `runCriteriaSearch`. Without a stored query nothing happens. A failed
      reply clears the results and the selection and shows the error; the
      counters stay as they were. A successful one reconciles the counters,
      shows the records (with fresh pagination controls when there are records
      and the session is in criteria mode), clears the selection and the
      status. */
  function RunSearch(st: State, search: SearchService): Step {
    if st.query.None? then Step(st, [])
    else
      var req := RequestFor(st.query.value, st.paging);
      var reply := Interpret(search(req));
      Step(if reply.Failure? then Failed(st, reply.error) else SearchSucceeded(st, reply.value),
           [Searched(req)])
  }

  /** The session after a failed search or SysId lookup: results and
      selection cleared, pagination controls gone, error shown. */
  function Failed(st: State, message: string): State {
    st.(results := Cleared, pager := None, view := EmptyView, status := SetStatus(message, Error))
  }

  /** The session after a successful search reply. */
  function SearchSucceeded(st: State, data: SearchData): State {
    var p := Reconcile(st.paging.page, st.paging.limit, data);
    var listing := Listing(data.records, p.total);
    var controls := if listing.Table? && st.searchMode == Criteria then Some(FreshPager(p.limit)) else None;
    st.(paging := p, results := listing, pager := controls, view := EmptyView, status := Blank)
  }

  // --------------------------------------------------------- record action

  /** `handleRecordAction`: open `record` in tab `mode`. A record without a key
      is ignored. On success the record and its detail become the selection;
      on failure the previous selection and tab come back, or the panel is
      reset when there was none, and the error is shown. */
  function RecordAction(st: State, record: Record, mode: DetailMode, fetch: DetailService): Step {
    if Key(record).None? then Step(st, [])
    else
      var o := Ensure(st.cache, record, fetch);
      var calls := if o.fetched then [Fetched(Key(record).value)] else [];
      match o.result
      case Success(d) =>
        Step(st.(cache := o.cache, view := View(Some(record), Some(d), mode), status := Blank), calls)
      case Failure(m) =>
        var back := if st.view.record.Some? && st.view.detail.Some? then st.view else EmptyView;
        Step(st.(cache := o.cache, view := back, status := SetStatus(m, Error)), calls)
  }

  // ---------------------------------------------------------------- submit

  /** `handleSubmit`: a SysId lookup in SysId mode, otherwise a criteria
      search for the first page. */
  function Submit(st: State, nameText: string, yearText: string,
                  fetch: DetailService, search: SearchService): Step
  {
    if st.searchMode == SysIdLookup then LookUp(st, fetch)
    else RunSearch(WithCriteria(st, nameText, yearText), search)
  }

  /** The cleaned name and parsed year become the stored query, and the page
      goes back to the first. */
  function WithCriteria(st: State, nameText: string, yearText: string): State {
    st.(query := Some(Query(CleanText(Some(nameText)), ParseNumber(Some(yearText)))),
        paging := st.paging.(page := 0))
  }

  /** The SysId branch of `handleSubmit`: the trimmed field is looked up
      directly; a blank field only shows an error, a failed or empty reply
      clears the results. */
  function LookUp(st: State, fetch: DetailService): Step {
    match CleanText(Some(st.sysIdInput))
    case None => Step(st.(status := SetStatus(EnterSysIdMessage, Error)), [])
    case Some(id) =>
      match fetch(id)
      case Failure(m) => Step(Failed(st, m), [Fetched(id)])
      case Success(None) => Step(Failed(st, NotFoundMessage), [Fetched(id)])
      case Success(Some(d)) =>
        var shown := Found(st, d, fetch);
        Step(shown.state, [Fetched(id)] + shown.calls)
  }

  /** A detail the SysId lookup found: cached under its key, shown as a
      one-record table, opened in the basic tab, and success reported. */
  function Found(st: State, d: Detail, fetch: DetailService): Step {
    var cache := if Key(d.record).Some? then st.cache[Key(d.record).value := d] else st.cache;
    var listed := st.(cache := cache, results := Table([d.record], 1), pager := None, view := EmptyView);
    var action := RecordAction(listed, d.record, Basic, fetch);
    Step(action.state.(status := SetStatus(LookupSucceededMessage, Succeeded)), action.calls)
  }

  /** The query button next to a related place: put its key into the SysId
      field, switch to SysId mode and submit. */
  function QueryById(st: State, sysId: string, fetch: DetailService, search: SearchService): Step {
    Submit(SetSearchMode(EditSysId(st, sysId), SysIdLookup), "", "", fetch, search)
  }

  // ---------------------------------------------------------- navigation

  /** The previous-page button. */
  function Previous(st: State, search: SearchService): Step {
    if st.paging.page <= 0 then Step(st, [])
    else RunSearch(st.(paging := st.paging.(page := PreviousPage(st.paging.page))), search)
  }

  /** The next-page button. */
  function Next(st: State, search: SearchService): Step {
    if st.paging.page + 1 >= Max(st.paging.pages, 1) then Step(st, [])
    else RunSearch(st.(paging := st.paging.(page := NextPage(st.paging.page, st.paging.pages))), search)
  }

  // ------------------------------------------------------ page-size field

  /** ArrowUp (`up`) or ArrowDown in the page-size field: the stepped size
      becomes the page size, the first page is searched. */
  function PageSizeKey(st: State, up: bool, search: SearchService): Step
    requires st.pager.Some?
  {
    RunSearch(Stepped(st, up), search)
  }

  /** The session once an arrow key has stepped the page size, before the
      search: the field shows the new size (its last seen value is left as
      it was), the size is set and the page goes back to the first. */
  function Stepped(st: State, up: bool): State
    requires st.pager.Some?
  {
    var p := st.pager.value;
    var v := KeyStep(p.text, st.paging.limit, up);
    st.(paging := st.paging.(limit := v, page := 0),
        pager := Some(Pager(IntToString(v), p.lastValue, true)))
  }

  /** The `input` event of the page-size field. */
  function PageSizeInput(st: State, text: string): State
    requires st.pager.Some?
  {
    st.(pager := Some(OnInput(st.pager.value, text, st.paging.limit)))
  }

  /** The `change` event of the page-size field. */
  function PageSizeChange(st: State, search: SearchService): Step
    requires st.pager.Some?
  {
    var p := st.pager.value;
    match ClassifyLimit(p.text, st.paging.limit)
    case Reverted => Step(st.(pager := Some(RevertPager(p, st.paging.limit))), [])
    case Unchanged => Step(st, [])
    case Committed(n) =>
      RunSearch(WithLimit(st, n), search)
  }

  /** The session once a typed page size `n` is committed, before the
      search. */
  function WithLimit(st: State, n: int): State
    requires st.pager.Some?
  {
    st.(paging := st.paging.(limit := n, page := 0), pager := Some(st.pager.value.(lastValue := n)))
  }

  /** The scheduled reset of the step flag. */
  function StepTimer(st: State): State
    requires st.pager.Some?
  {
    st.(pager := Some(OnStepTimer(st.pager.value)))
  }

  // -------------------------------------------------------- location cell

  /** A location cell of the results table and the session after it. */
  datatype Cell = Cell(text: string, step: Step)

  /** The location cell of `record`: its own summary, else (when it has a key)
      the summary with the fetched detail or a dash when that fails, else a
      dash. */
  function LocationCell(st: State, record: Record, fetch: DetailService): Cell {
    match SummarizeRecordLocation(record, None)
    case Some(t) => Cell(t, Step(st, []))
    case None =>
      if Key(record).None? then Cell(Dash, Step(st, []))
      else
        var o := Ensure(st.cache, record, fetch);
        var text := if o.result.Success? then SummarizeRecordLocation(record, Some(o.result.value)).GetOr(Dash) else Dash;
        Cell(text, Step(st.(cache := o.cache),
                        if o.fetched then [Fetched(Key(record).value)] else []))
  }
}
