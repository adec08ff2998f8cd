/** The controller's module-level state and its event handlers, as a class
    whose fields are that state. Each handler is proved to move the fields
    exactly as the matching transition of `SessionModel` does, to log the
    service calls that transition makes, and to keep the session invariant. */
module Controller {
  import opened Wrappers
  import opened Text
  import opened Places
  import opened Pagination
  import opened PageSize
  import opened DetailCache
  import opened SessionModel
  import opened SessionProperties

  class Session {
    var criteriaQuery: Option<Query>
    var criteriaPage: int
    var criteriaLimit: int
    var criteriaTotal: int
    var criteriaPages: int
    var detailCache: map<string, Detail>
    var activeRecord: Option<Record>
    var activeDetail: Option<Detail>
    var activeMode: DetailMode
    var activeSearchMode: SearchMode
    /** The SysId field of the form. */
    var sysIdInput: string
    /** The results area. */
    var results: ResultsView
    /** The page-size field of the pagination controls, when they exist. */
    var pager: Option<Pager>
    /** The status line. */
    var status: Status
    /** Every call made to the backend commands so far, in order. */
    ghost var calls: seq<ServiceCall>

    /** The fields as a session value. */
    function Snapshot(): State
      reads this
    {
      State(criteriaQuery, PageState(criteriaPage, criteriaLimit, criteriaTotal, criteriaPages),
            detailCache, View(activeRecord, activeDetail, activeMode), activeSearchMode,
            sysIdInput, results, pager, status)
    }

    ghost predicate Valid()
      reads this
    {
      Inv(Snapshot())
    }

    /** The module's initial values followed by the page-load handler, which
        resets the detail panel and enters the current search mode. */
    constructor ()
      ensures Snapshot() == Initial() && calls == []
      ensures Valid()
    {
      criteriaQuery := None;
      criteriaPage := 0;
      criteriaLimit := 10;
      criteriaTotal := 0;
      criteriaPages := 1;
      detailCache := map[];
      activeRecord := None;
      activeDetail := None;
      activeMode := Basic;
      activeSearchMode := Criteria;
      sysIdInput := "";
      results := Cleared;
      pager := None;
      status := Blank;
      calls := [];
      new;
      ResetDetailView();
      SetSearchMode(activeSearchMode);
    }

    /** `setStatus`. */
    method ShowStatus(message: string, kind: StatusKind)
      modifies this`status
      ensures status == SetStatus(message, kind)
    {
      if |Trim(message)| == 0 {
        status := Blank;
      } else {
        status := Shown(message, kind);
      }
    }

    /** `setActiveTab`. */
    method SetActiveTab(mode: DetailMode)
      modifies this`activeMode
      ensures activeMode == mode
    {
      activeMode := mode;
    }

    /** `resetDetailView`: no selection, basic tab. */
    method ResetDetailView()
      modifies this`activeRecord, this`activeDetail, this`activeMode
      ensures View(activeRecord, activeDetail, activeMode) == EmptyView
    {
      activeRecord := None;
      activeDetail := None;
      SetActiveTab(Basic);
    }

    /** A click on a detail tab. */
    method ClickTab(mode: DetailMode)
      requires Valid()
      modifies this`activeMode
      ensures Snapshot() == SelectTab(old(Snapshot()), mode)
      ensures Valid()
    {
      SimpleHandlersKeepInv(Snapshot(), mode, activeSearchMode, sysIdInput);
      SetActiveTab(mode);
    }

    /** `setSearchMode`. */
    method SetSearchMode(mode: SearchMode)
      modifies this`activeSearchMode, this`sysIdInput, this`pager, this`status
      ensures Snapshot() == SessionModel.SetSearchMode(old(Snapshot()), mode)
      ensures old(Valid()) ==> Valid()
    {
      ghost var st0 := Snapshot();
      if Inv(st0) {
        SimpleHandlersKeepInv(st0, activeMode, mode, sysIdInput);
      }
      activeSearchMode := mode;
      if mode == Criteria {
        sysIdInput := "";
      }
      if mode != Criteria {
        pager := None;
      }
      ShowStatus("", Info);
    }

    /** A click on a search-mode button. */
    method ClickSearchMode(mode: SearchMode)
      requires Valid()
      modifies this`activeSearchMode, this`sysIdInput, this`pager, this`status
      ensures Snapshot() == SessionModel.ClickSearchMode(old(Snapshot()), mode)
      ensures Valid()
    {
      if mode == activeSearchMode {
        return;
      }
      SetSearchMode(mode);
    }

    /** The user typing into the SysId field. */
    method EditSysId(text: string)
      requires Valid()
      modifies this`sysIdInput
      ensures Snapshot() == SessionModel.EditSysId(old(Snapshot()), text)
      ensures Valid()
    {
      sysIdInput := text;
    }

    /** `renderResults` as far as session state goes: the selection is reset,
        the records (or the "no matches" note) are shown, and pagination
        controls for the current page size are built only for a criteria
        search in criteria mode with something to list. */
    method RenderResults(records: Option<seq<Record>>, total: int)
      modifies this`activeRecord, this`activeDetail, this`activeMode, this`results, this`pager
      ensures View(activeRecord, activeDetail, activeMode) == EmptyView
      ensures results == Listing(records, total)
      ensures pager == if results.Table? && activeSearchMode == Criteria && criteriaQuery.Some?
                       then Some(FreshPager(criteriaLimit)) else None
    {
      ResetDetailView();
      if records.None? || records.value == [] {
        results := NoMatches;
        pager := None;
        return;
      }
      results := Table(records.value, total);
      if activeSearchMode == Criteria && criteriaQuery.Some? {
        pager := Some(FreshPager(criteriaLimit));
      } else {
        pager := None;
      }
    }

    /** `runCriteriaSearch`. */
    method RunCriteriaSearch(search: SearchService)
      requires Valid()
      modifies this
      ensures Snapshot() == RunSearch(old(Snapshot()), search).state
      ensures calls == old(calls) + RunSearch(old(Snapshot()), search).calls
      ensures Valid()
    {
      RunSearchKeepsInv(Snapshot(), search);
      if criteriaQuery.None? {
        return;
      }
      var q := criteriaQuery.value;
      var request := SearchRequest(q.name, q.year, criteriaLimit, criteriaPage + 1);
      calls := calls + [Searched(request)];
      var reply := Interpret(search(request));
      if reply.Failure? {
        ShowFailure(reply.error);
      } else {
        ApplySearchData(reply.value);
      }
    }

    /** The error path shared by a failed search and a failed SysId lookup:
        the results area is emptied, the selection reset, the error shown. */
    method ShowFailure(message: string)
      modifies this`results, this`pager, this`activeRecord, this`activeDetail, this`activeMode,
               this`status
      ensures Snapshot() == Failed(old(Snapshot()), message)
    {
      results := Cleared;
      pager := None;
      ResetDetailView();
      ShowStatus(message, Error);
    }

    /** The success path of `runCriteriaSearch`. */
    method ApplySearchData(data: SearchData)
      requires criteriaQuery.Some?
      modifies this`criteriaPage, this`criteriaLimit, this`criteriaTotal, this`criteriaPages,
               this`results, this`pager, this`activeRecord, this`activeDetail, this`activeMode,
               this`status
      ensures Snapshot() == SearchSucceeded(old(Snapshot()), data)
    {
      ghost var st0 := Snapshot();
      ReconcileCounters(data);
      ghost var p := Reconcile(st0.paging.page, st0.paging.limit, data);
      RenderResults(data.records, criteriaTotal);
      ShowStatus("", Info);
      assert results == Listing(data.records, p.total);
      assert pager == (if results.Table? && st0.searchMode == Criteria then Some(FreshPager(p.limit)) else None);
    }

    /** The counter updates of `runCriteriaSearch` after a reply with data. */
    method ReconcileCounters(data: SearchData)
      modifies this`criteriaPage, this`criteriaLimit, this`criteriaTotal, this`criteriaPages
      ensures PageState(criteriaPage, criteriaLimit, criteriaTotal, criteriaPages)
              == Reconcile(old(criteriaPage), old(criteriaLimit), data)
    {
      var requestedPage := criteriaPage;
      criteriaTotal := data.total.GetOr(0);
      criteriaLimit := if data.size.Some? && data.size.value > 0 then data.size.value else criteriaLimit;
      if data.pages.Some? && data.pages.value > 0 {
        criteriaPages := data.pages.value;
      } else {
        criteriaPages := Max(CeilDiv(criteriaTotal, Max(criteriaLimit, 1)), 1);
      }
      var normalized := NormalizeCurrent(data.current, requestedPage);
      var maxIndex := Max(criteriaPages - 1, 0);
      criteriaPage := Min(Max(normalized, 0), maxIndex);
    }

    /** `ensureDetail`. */
    method EnsureDetail(record: Record, fetch: DetailService) returns (r: Result<Detail>)
      modifies this`detailCache, this`calls
      ensures var o := Ensure(old(detailCache), record, fetch);
              && r == o.result && detailCache == o.cache
              && calls == old(calls) + (if o.fetched then [Fetched(Key(record).value)] else [])
    {
      var key := Key(record);
      if key.None? {
        return Failure(MissingKeyMessage);
      }
      if key.value in detailCache {
        return Success(detailCache[key.value]);
      }
      calls := calls + [Fetched(key.value)];
      var reply := fetch(key.value);
      if reply.Failure? {
        return Failure(reply.error);
      }
      if reply.value.None? {
        return Failure(NotFoundMessage);
      }
      detailCache := detailCache[key.value := reply.value.value];
      return Success(reply.value.value);
    }

    /** `handleRecordAction`. */
    method HandleRecordAction(record: Record, mode: DetailMode, fetch: DetailService)
      requires Valid()
      modifies this`activeRecord, this`activeDetail, this`activeMode, this`status,
               this`detailCache, this`calls
      ensures Snapshot() == RecordAction(old(Snapshot()), record, mode, fetch).state
      ensures calls == old(calls) + RecordAction(old(Snapshot()), record, mode, fetch).calls
      ensures Valid()
    {
      RecordActionKeepsInv(Snapshot(), record, mode, fetch);
      if Key(record).None? {
        return;
      }
      var previousRecord, previousDetail, previousMode := activeRecord, activeDetail, activeMode;
      SetActiveTab(mode);
      var r := EnsureDetail(record, fetch);
      if r.Success? {
        activeRecord := Some(record);
        activeDetail := Some(r.value);
        ShowStatus("", Info);
      } else {
        if previousRecord.Some? && previousDetail.Some? {
          SetActiveTab(previousMode);
          activeRecord := previousRecord;
          activeDetail := previousDetail;
        } else {
          ResetDetailView();
        }
        ShowStatus(r.error, Error);
      }
    }

    /** `handleSubmit`. */
    method HandleSubmit(nameText: string, yearText: string, fetch: DetailService, search: SearchService)
      requires Valid()
      modifies this
      ensures Snapshot() == Submit(old(Snapshot()), nameText, yearText, fetch, search).state
      ensures calls == old(calls) + Submit(old(Snapshot()), nameText, yearText, fetch, search).calls
      ensures Valid()
    {
      SubmitKeepsInv(Snapshot(), nameText, yearText, fetch, search);
      if activeSearchMode == SysIdLookup {
        LookUpSysId(fetch);
        return;
      }
      WithCriteriaKeepsInv(Snapshot(), nameText, yearText);
      criteriaQuery := Some(Query(CleanText(Some(nameText)), ParseNumber(Some(yearText))));
      criteriaPage := 0;
      assert Snapshot() == WithCriteria(old(Snapshot()), nameText, yearText);
      RunCriteriaSearch(search);
    }

    /** The SysId branch of `handleSubmit`. */
    method LookUpSysId(fetch: DetailService)
      requires Valid()
      requires activeSearchMode == SysIdLookup
      modifies this`criteriaQuery, this`criteriaPage, this`criteriaLimit, this`criteriaTotal,
               this`criteriaPages, this`detailCache, this`activeRecord, this`activeDetail,
               this`activeMode, this`results, this`pager, this`status, this`calls
      ensures Snapshot() == LookUp(old(Snapshot()), fetch).state
      ensures calls == old(calls) + LookUp(old(Snapshot()), fetch).calls
    {
      var id := CleanText(Some(sysIdInput));
      if id.None? {
        ShowStatus(EnterSysIdMessage, Error);
        return;
      }
      calls := calls + [Fetched(id.value)];
      var reply := fetch(id.value);
      if reply.Failure? {
        ShowFailure(reply.error);
      } else if reply.value.None? {
        ShowFailure(NotFoundMessage);
      } else {
        ShowFound(reply.value.value, fetch);
      }
    }

    /** A detail the SysId lookup found. */
    method ShowFound(detail: Detail, fetch: DetailService)
      requires Valid()
      requires activeSearchMode == SysIdLookup
      modifies this`detailCache, this`activeRecord, this`activeDetail, this`activeMode,
               this`results, this`pager, this`status, this`calls
      ensures Snapshot() == Found(old(Snapshot()), detail, fetch).state
      ensures calls == old(calls) + Found(old(Snapshot()), detail, fetch).calls
    {
      if Key(detail.record).Some? {
        detailCache := detailCache[Key(detail.record).value := detail];
      }
      RenderResults(Some([detail.record]), 1);
      HandleRecordAction(detail.record, Basic, fetch);
      ShowStatus(LookupSucceededMessage, Succeeded);
    }

    /** The query button next to a related place. */
    method QueryById(sysId: string, fetch: DetailService, search: SearchService)
      requires Valid()
      modifies this
      ensures Snapshot() == SessionModel.QueryById(old(Snapshot()), sysId, fetch, search).state
      ensures calls == old(calls) + SessionModel.QueryById(old(Snapshot()), sysId, fetch, search).calls
      ensures Valid()
    {
      EditSysId(sysId);
      SetSearchMode(SysIdLookup);
      HandleSubmit("", "", fetch, search);
    }

    /** A click on the previous-page button. The button exists only inside the
        pagination controls and receives clicks only while enabled; its
        listener still checks the page itself. */
    method ClickPrevious(search: SearchService)
      requires Valid()
      requires pager.Some? && PreviousEnabled(criteriaPage, criteriaTotal)
      modifies this
      ensures Snapshot() == Previous(old(Snapshot()), search).state
      ensures calls == old(calls) + Previous(old(Snapshot()), search).calls
      ensures Valid()
    {
      if criteriaPage <= 0 {
        return;
      }
      criteriaPage := criteriaPage - 1;
      RunCriteriaSearch(search);
    }

    /** A click on the next-page button, which likewise exists only inside the
        pagination controls and receives clicks only while enabled. */
    method ClickNext(search: SearchService)
      requires Valid()
      requires pager.Some? && NextEnabled(criteriaPage, criteriaPages, criteriaTotal)
      modifies this
      ensures Snapshot() == Next(old(Snapshot()), search).state
      ensures calls == old(calls) + Next(old(Snapshot()), search).calls
      ensures Valid()
    {
      if criteriaPage + 1 >= Max(criteriaPages, 1) {
        return;
      }
      criteriaPage := criteriaPage + 1;
      RunCriteriaSearch(search);
    }

    /** ArrowUp (`up`) or ArrowDown in the page-size field. */
    method PageSizeKeyDown(up: bool, search: SearchService)
      requires Valid() && pager.Some?
      modifies this
      ensures Snapshot() == PageSizeKey(old(Snapshot()), up, search).state
      ensures calls == old(calls) + PageSizeKey(old(Snapshot()), up, search).calls
      ensures Valid()
    {
      PageSizeHandlersKeepInv(Snapshot(), up, search);
      SteppedKeepsInv(Snapshot(), up);
      StepLimit(up);
      RunCriteriaSearch(search);
    }

    /** The arrow-key part of the page-size field before its search. */
    method StepLimit(up: bool)
      requires pager.Some?
      modifies this`pager, this`criteriaLimit, this`criteriaPage
      ensures Snapshot() == Stepped(old(Snapshot()), up)
    {
      ghost var st0 := Snapshot();
      var p := pager.value;
      var newValue := KeyStep(p.text, criteriaLimit, up);
      pager := Some(Pager(IntToString(newValue), p.lastValue, true));
      criteriaLimit := newValue;
      criteriaPage := 0;
      assert Snapshot() == st0.(paging := st0.paging.(limit := newValue, page := 0),
                                pager := Some(Pager(IntToString(newValue), p.lastValue, true)));
    }

    /** The `input` event of the page-size field, after the browser changed
        its text to `text`. */
    method PageSizeInputEvent(text: string)
      requires Valid() && pager.Some?
      modifies this`pager
      ensures Snapshot() == PageSizeInput(old(Snapshot()), text)
      ensures Valid()
    {
      SimpleHandlersKeepInv(Snapshot(), activeMode, activeSearchMode, text);
      var p := pager.value;
      if p.stepping {
        pager := Some(p.(text := text));
        return;
      }
      var value := JsNumber(text);
      if value.None? {
        pager := Some(Pager(text, criteriaLimit, false));
        return;
      }
      var n := value.value;
      if n - p.lastValue == 1 || p.lastValue - n == 1 {
        var newValue := if n > p.lastValue then StepUp(p.lastValue) else StepDown(p.lastValue);
        pager := Some(Pager(IntToString(newValue), newValue, true));
      } else {
        pager := Some(Pager(text, n, false));
      }
    }

    /** The `change` event of the page-size field. */
    method PageSizeChangeEvent(search: SearchService)
      requires Valid() && pager.Some?
      modifies this
      ensures Snapshot() == PageSizeChange(old(Snapshot()), search).state
      ensures calls == old(calls) + PageSizeChange(old(Snapshot()), search).calls
      ensures Valid()
    {
      ghost var st0 := Snapshot();
      PageSizeHandlersKeepInv(st0, true, search);
      var p := pager.value;
      match ClassifyLimit(p.text, criteriaLimit)
      case Reverted =>
        pager := Some(RevertPager(p, criteriaLimit));
        assert Snapshot() == st0.(pager := Some(RevertPager(p, st0.paging.limit)));
      case Unchanged =>
      case Committed(n) =>
        WithLimitKeepsInv(st0, n);
        CommitLimit(n);
        RunCriteriaSearch(search);
    }

    /** A committed typed page size, before its search. */
    method CommitLimit(n: int)
      requires pager.Some?
      modifies this`pager, this`criteriaLimit, this`criteriaPage
      ensures Snapshot() == WithLimit(old(Snapshot()), n)
    {
      criteriaLimit := n;
      pager := Some(pager.value.(lastValue := n));
      criteriaPage := 0;
    }

    /** The scheduled reset of the step flag. */
    method StepTimerFires()
      requires Valid() && pager.Some?
      modifies this`pager
      ensures Snapshot() == StepTimer(old(Snapshot()))
      ensures Valid()
    {
      SimpleHandlersKeepInv(Snapshot(), activeMode, activeSearchMode, sysIdInput);
      pager := Some(pager.value.(stepping := false));
    }

    /** The text of `record`'s location cell in the results table. */
    method LoadLocationCell(record: Record, fetch: DetailService) returns (text: string)
      requires Valid()
      modifies this`detailCache, this`calls
      ensures text == LocationCell(old(Snapshot()), record, fetch).text
      ensures Snapshot() == LocationCell(old(Snapshot()), record, fetch).step.state
      ensures calls == old(calls) + LocationCell(old(Snapshot()), record, fetch).step.calls
      ensures Valid()
    {
      LocationCellKeepsInv(Snapshot(), record, fetch);
      var own := SummarizeRecordLocation(record, None);
      if own.Some? {
        return own.value;
      }
      if Key(record).None? {
        return Dash;
      }
      var r := EnsureDetail(record, fetch);
      if r.Failure? {
        return Dash;
      }
      return SummarizeRecordLocation(record, Some(r.value)).GetOr(Dash);
    }
  }
}
