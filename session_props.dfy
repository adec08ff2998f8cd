/** What the session handlers promise: every handler keeps the session
    invariant, and the search, selection, lookup, navigation and page-size
    handlers behave as the handlers in src/main.ts do. */
module SessionProperties {
  import opened Wrappers
  import opened Text
  import opened Places
  import opened Pagination
  import opened PageSize
  import opened DetailCache
  import opened SessionModel

  // --------------------------------------------------- invariant is kept

  lemma SimpleHandlersKeepInv(st: State, tab: DetailMode, mode: SearchMode, text: string)
    requires Inv(st)
    ensures Inv(SelectTab(st, tab))
    ensures Inv(SetSearchMode(st, mode))
    ensures Inv(ClickSearchMode(st, mode))
    ensures Inv(EditSysId(st, text))
    ensures st.pager.Some? ==> Inv(PageSizeInput(st, text)) && Inv(StepTimer(st))
  {
  }

  lemma RunSearchKeepsInv(st: State, search: SearchService)
    requires Inv(st)
    ensures Inv(RunSearch(st, search).state)
  {
  }

  lemma RecordActionKeepsInv(st: State, record: Record, mode: DetailMode, fetch: DetailService)
    requires Inv(st)
    ensures Inv(RecordAction(st, record, mode, fetch).state)
  {
  }

  lemma SubmitKeepsInv(st: State, nameText: string, yearText: string,
                       fetch: DetailService, search: SearchService)
    requires Inv(st)
    ensures Inv(Submit(st, nameText, yearText, fetch, search).state)
  {
    if st.searchMode == SysIdLookup {
      var id := CleanText(Some(st.sysIdInput));
      if id.Some? && fetch(id.value).Success? && fetch(id.value).value.Some? {
        var d := fetch(id.value).value.value;
        var cache := if Key(d.record).Some? then st.cache[Key(d.record).value := d] else st.cache;
        var shown := st.(cache := cache, results := Table([d.record], 1), pager := None, view := EmptyView);
        RecordActionKeepsInv(shown, d.record, Basic, fetch);
      }
    } else {
      WithCriteriaKeepsInv(st, nameText, yearText);
      RunSearchKeepsInv(WithCriteria(st, nameText, yearText), search);
    }
  }

  lemma WithCriteriaKeepsInv(st: State, nameText: string, yearText: string)
    requires Inv(st) && st.searchMode == Criteria
    ensures Inv(WithCriteria(st, nameText, yearText))
  {
  }

  lemma QueryByIdKeepsInv(st: State, sysId: string, fetch: DetailService, search: SearchService)
    requires Inv(st)
    ensures Inv(QueryById(st, sysId, fetch, search).state)
  {
    SubmitKeepsInv(SetSearchMode(EditSysId(st, sysId), SysIdLookup), "", "", fetch, search);
  }

  lemma NavigationKeepsInv(st: State, search: SearchService)
    requires Inv(st)
    ensures Inv(Previous(st, search).state)
    ensures Inv(Next(st, search).state)
  {
    if st.paging.page > 0 {
      RunSearchKeepsInv(st.(paging := st.paging.(page := PreviousPage(st.paging.page))), search);
    }
    if st.paging.page + 1 < Max(st.paging.pages, 1) {
      RunSearchKeepsInv(st.(paging := st.paging.(page := NextPage(st.paging.page, st.paging.pages))), search);
    }
  }

  lemma PageSizeHandlersKeepInv(st: State, up: bool, search: SearchService)
    requires Inv(st) && st.pager.Some?
    ensures Inv(PageSizeKey(st, up, search).state)
    ensures Inv(PageSizeChange(st, search).state)
  {
    SteppedKeepsInv(st, up);
    RunSearchKeepsInv(Stepped(st, up), search);
    var e := ClassifyLimit(st.pager.value.text, st.paging.limit);
    if e.Committed? {
      WithLimitKeepsInv(st, e.limit);
      RunSearchKeepsInv(WithLimit(st, e.limit), search);
    }
  }

  lemma SteppedKeepsInv(st: State, up: bool)
    requires Inv(st) && st.pager.Some?
    ensures Inv(Stepped(st, up))
  {
  }

  lemma WithLimitKeepsInv(st: State, n: int)
    requires Inv(st) && st.pager.Some? && n >= 1
    ensures Inv(WithLimit(st, n))
  {
  }

  lemma LocationCellKeepsInv(st: State, record: Record, fetch: DetailService)
    requires Inv(st)
    ensures Inv(LocationCell(st, record, fetch).step.state)
  {
  }

  // ------------------------------------------------- mode and tab switches

  /** Entering criteria mode empties the SysId field and keeps the
      pagination controls; entering SysId mode keeps the field and removes
      the controls. Either way the status is cleared and the query, counters,
      results, cache and selection are left alone; clicking the mode already
      active changes nothing. */
  lemma SearchModeSwitch(st: State, mode: SearchMode)
    ensures var s := SetSearchMode(st, mode);
            && s.searchMode == mode && s.status == Blank
            && (mode == Criteria ==> s.sysIdInput == "" && s.pager == st.pager)
            && (mode == SysIdLookup ==> s.sysIdInput == st.sysIdInput && s.pager == None)
            && s.query == st.query && s.paging == st.paging && s.results == st.results
            && s.cache == st.cache && s.view == st.view
    ensures mode == st.searchMode ==> ClickSearchMode(st, mode) == st
    ensures mode != st.searchMode ==> ClickSearchMode(st, mode) == SetSearchMode(st, mode)
  {
  }

  /** A tab click changes the open tab and nothing else: the selected record
      and its detail stay paired. */
  lemma TabClickKeepsSelection(st: State, mode: DetailMode)
    ensures var s := SelectTab(st, mode);
            s.view == View(st.view.record, st.view.detail, mode)
            && s == st.(view := s.view)
  {
  }

  // ------------------------------------------------------ criteria search

  /** A search without a stored query does nothing; with one it sends exactly
      one request, carrying the stored criteria, the page size and the
      1-based page; it never touches the query, the cache or the search
      mode. */
  lemma SearchSendsStoredCriteria(st: State, search: SearchService)
    ensures st.query.None? ==> RunSearch(st, search) == Step(st, [])
    ensures st.query.Some? ==>
              RunSearch(st, search).calls ==
                [Searched(SearchRequest(st.query.value.name, st.query.value.year,
                                        st.paging.limit, st.paging.page + 1))]
    ensures var s := RunSearch(st, search).state;
            s.query == st.query && s.cache == st.cache && s.searchMode == st.searchMode
            && s.sysIdInput == st.sysIdInput
  {
  }

  /** A failed search leaves the counters where they were (the page or size a
      control moved to stays), clears the results and the selection and shows
      the error. */
  lemma SearchFailureKeepsCounters(st: State, search: SearchService)
    requires st.query.Some?
    requires Interpret(search(RequestFor(st.query.value, st.paging))).Failure?
    ensures var s := RunSearch(st, search).state;
            var m := Interpret(search(RequestFor(st.query.value, st.paging))).error;
            && s.paging == st.paging
            && s.results == Cleared && s.pager == None && s.view == EmptyView
            && s.status == SetStatus(m, Error)
  {
  }

  /** A successful search reconciles the counters with the reply, lists its
      records, resets the selection, clears the status, and offers fresh
      pagination controls showing the new page size exactly when there are
      records to page through in criteria mode. */
  lemma SearchSuccessReconciles(st: State, search: SearchService)
    requires st.query.Some?
    requires Interpret(search(RequestFor(st.query.value, st.paging))).Success?
    ensures var s := RunSearch(st, search).state;
            var data := Interpret(search(RequestFor(st.query.value, st.paging))).value;
            && s.paging == Reconcile(st.paging.page, st.paging.limit, data)
            && s.results == Listing(data.records, s.paging.total)
            && s.view == EmptyView && s.status == Blank
            && (s.pager.Some? <==> s.results.Table? && st.searchMode == Criteria)
            && (s.pager.Some? ==> Synced(s.pager.value) && !s.pager.value.stepping
                                  && s.pager.value.lastValue == s.paging.limit)
  {
    FreshPagerIsSynced(RunSearch(st, search).state.paging.limit);
  }

  // ------------------------------------------------------- record action

  lemma RecordWithoutKeyIsIgnored(st: State, record: Record, mode: DetailMode, fetch: DetailService)
    requires Key(record).None?
    ensures RecordAction(st, record, mode, fetch) == Step(st, [])
  {
  }

  /** A successful action selects the record with its detail in the asked
      tab and clears the status; the service is asked only when the key was
      not cached, and a cached detail is the one selected. */
  lemma RecordActionSelects(st: State, record: Record, mode: DetailMode, fetch: DetailService)
    requires Key(record).Some?
    requires Ensure(st.cache, record, fetch).result.Success?
    ensures var s := RecordAction(st, record, mode, fetch);
            var d := Ensure(st.cache, record, fetch).result.value;
            && s.state.view == View(Some(record), Some(d), mode)
            && s.state.status == Blank
            && s.state.cache == st.cache[Key(record).value := d]
            && (s.calls == [] <==> Key(record).value in st.cache)
            && (Key(record).value in st.cache ==> d == st.cache[Key(record).value])
  {
  }

  /** A failed action puts back the previous selection and tab, or resets
      the panel when there was no selection, and shows the error; the cache
      is unchanged. */
  lemma RecordActionFailureRestores(st: State, record: Record, mode: DetailMode, fetch: DetailService)
    requires Inv(st)
    requires Key(record).Some?
    requires Ensure(st.cache, record, fetch).result.Failure?
    ensures var s := RecordAction(st, record, mode, fetch).state;
            && s.cache == st.cache
            && s.view == (if st.view.record.Some? then st.view else EmptyView)
            && s.status == SetStatus(Ensure(st.cache, record, fetch).result.error, Error)
            && s.results == st.results && s.paging == st.paging
  {
  }

  /** Opening a record again, in any tab and whatever the service would now
      answer, asks the service nothing and shows the same detail. */
  lemma ReopeningUsesCache(st: State, record: Record, m1: DetailMode, m2: DetailMode,
                           f: DetailService, g: DetailService)
    requires Key(record).Some?
    requires Ensure(st.cache, record, f).result.Success?
    ensures var first := RecordAction(st, record, m1, f);
            var again := RecordAction(first.state, record, m2, g);
            && again.calls == []
            && again.state.view == first.state.view.(mode := m2)
            && again.state.cache == first.state.cache
  {
    SecondLookupHitsCache(st.cache, record, record, f, g);
  }

  /** A location cell that had to fetch a detail leaves it in the cache, so
      opening that record afterwards asks the service nothing. */
  lemma LocationCellFeedsSelection(st: State, record: Record, mode: DetailMode,
                                   f: DetailService, g: DetailService)
    requires SummarizeRecordLocation(record, None).None?
    requires Key(record).Some?
    requires Ensure(st.cache, record, f).result.Success?
    ensures var cell := LocationCell(st, record, f);
            var open := RecordAction(cell.step.state, record, mode, g);
            && open.calls == []
            && open.state.view == View(Some(record), Some(Ensure(st.cache, record, f).result.value), mode)
  {
    SecondLookupHitsCache(st.cache, record, record, f, g);
  }

  /** A location cell never shows an empty text, and falls back to the dash
      when the record has neither its own locations nor a fetchable detail. */
  lemma LocationCellText(st: State, record: Record, fetch: DetailService)
    ensures LocationCell(st, record, fetch).text != []
    ensures SummarizeRecordLocation(record, None).None? && Key(record).None? ==>
              LocationCell(st, record, fetch) == Cell(Dash, Step(st, []))
    ensures SummarizeRecordLocation(record, None).Some? ==>
              LocationCell(st, record, fetch) == Cell(SummarizeRecordLocation(record, None).value, Step(st, []))
  {
    SummaryNotEmpty(record, None);
    var o := Ensure(st.cache, record, fetch);
    if o.result.Success? {
      SummaryNotEmpty(record, Some(o.result.value));
    }
  }

  // --------------------------------------------------------------- submit

  /** The fixed messages of the SysId lookup are never blank, so they always
      show. */
  lemma FixedMessagesAreShown()
    ensures SetStatus(EnterSysIdMessage, Error) == Shown(EnterSysIdMessage, Error)
    ensures SetStatus(LookupSucceededMessage, Succeeded) == Shown(LookupSucceededMessage, Succeeded)
  {
    assert !IsSpace(EnterSysIdMessage[0]);
    assert !IsSpace(LookupSucceededMessage[0]);
  }

  /** SysId mode with a blank field only reports the missing input. */
  lemma BlankSysIdOnlyWarns(st: State, nameText: string, yearText: string,
                            fetch: DetailService, search: SearchService)
    requires st.searchMode == SysIdLookup && AllSpace(st.sysIdInput)
    ensures Submit(st, nameText, yearText, fetch, search)
            == Step(st.(status := Shown(EnterSysIdMessage, Error)), [])
  {
    FixedMessagesAreShown();
  }

  /** A SysId lookup that finds a keyed detail asks the service once, for the
      trimmed key; shows a one-record table without pagination controls;
      selects the record with that detail in the basic tab; and reports
      success. */
  lemma DirectLookupOpensDetail(st: State, nameText: string, yearText: string,
                                fetch: DetailService, search: SearchService)
    requires st.searchMode == SysIdLookup && !AllSpace(st.sysIdInput)
    requires fetch(Trim(st.sysIdInput)).Success? && fetch(Trim(st.sysIdInput)).value.Some?
    requires Key(fetch(Trim(st.sysIdInput)).value.value.record).Some?
    ensures var s := Submit(st, nameText, yearText, fetch, search);
            var d := fetch(Trim(st.sysIdInput)).value.value;
            && s.calls == [Fetched(Trim(st.sysIdInput))]
            && s.state.results == Table([d.record], 1) && s.state.pager == None
            && s.state.view == View(Some(d.record), Some(d), Basic)
            && s.state.cache == st.cache[Key(d.record).value := d]
            && s.state.status == Shown(LookupSucceededMessage, Succeeded)
            && s.state.paging == st.paging && s.state.query == st.query
  {
    FoundOpensDetail(st, fetch(Trim(st.sysIdInput)).value.value, fetch);
  }

  /** Opening a found keyed detail is answered from the cache it was just
      put in, so it asks the service nothing. */
  lemma FoundOpensDetail(st: State, d: Detail, fetch: DetailService)
    requires Key(d.record).Some?
    ensures var s := Found(st, d, fetch);
            && s.calls == []
            && s.state.results == Table([d.record], 1) && s.state.pager == None
            && s.state.view == View(Some(d.record), Some(d), Basic)
            && s.state.cache == st.cache[Key(d.record).value := d]
            && s.state.status == Shown(LookupSucceededMessage, Succeeded)
            && s.state.paging == st.paging && s.state.query == st.query
  {
    FixedMessagesAreShown();
    var k := Key(d.record).value;
    var listed := st.(cache := st.cache[k := d], results := Table([d.record], 1), pager := None, view := EmptyView);
    assert Ensure(listed.cache, d.record, fetch) == Lookup(Success(d), listed.cache, false);
  }

  /** A found detail without a key is listed but not opened, and the lookup
      still reports success. */
  lemma DirectLookupWithoutKey(st: State, nameText: string, yearText: string,
                               fetch: DetailService, search: SearchService)
    requires st.searchMode == SysIdLookup && !AllSpace(st.sysIdInput)
    requires fetch(Trim(st.sysIdInput)).Success? && fetch(Trim(st.sysIdInput)).value.Some?
    requires Key(fetch(Trim(st.sysIdInput)).value.value.record).None?
    ensures var s := Submit(st, nameText, yearText, fetch, search);
            var d := fetch(Trim(st.sysIdInput)).value.value;
            && s.calls == [Fetched(Trim(st.sysIdInput))]
            && s.state.results == Table([d.record], 1)
            && s.state.view == EmptyView && s.state.cache == st.cache
            && s.state.status == Shown(LookupSucceededMessage, Succeeded)
  {
    FoundWithoutKey(st, fetch(Trim(st.sysIdInput)).value.value, fetch);
  }

  lemma FoundWithoutKey(st: State, d: Detail, fetch: DetailService)
    requires Key(d.record).None?
    ensures Found(st, d, fetch)
            == Step(st.(results := Table([d.record], 1), pager := None, view := EmptyView,
                        status := Shown(LookupSucceededMessage, Succeeded)), [])
  {
    FixedMessagesAreShown();
  }

  /** A SysId lookup that fails or finds nothing clears the results and the
      selection and shows why, without touching the cache or the counters. */
  lemma DirectLookupFailure(st: State, nameText: string, yearText: string,
                            fetch: DetailService, search: SearchService)
    requires st.searchMode == SysIdLookup && !AllSpace(st.sysIdInput)
    requires !(fetch(Trim(st.sysIdInput)).Success? && fetch(Trim(st.sysIdInput)).value.Some?)
    ensures var s := Submit(st, nameText, yearText, fetch, search);
            var reply := fetch(Trim(st.sysIdInput));
            && s.calls == [Fetched(Trim(st.sysIdInput))]
            && s.state.results == Cleared && s.state.view == EmptyView && s.state.pager == None
            && s.state.status == SetStatus(if reply.Failure? then reply.error else NotFoundMessage, Error)
            && s.state.cache == st.cache && s.state.paging == st.paging
  {
  }

  /** A criteria submit stores the cleaned name and parsed year and searches
      the first page with the current page size. */
  lemma CriteriaSubmitSearchesFirstPage(st: State, nameText: string, yearText: string,
                                        fetch: DetailService, search: SearchService)
    requires st.searchMode == Criteria
    ensures var s := Submit(st, nameText, yearText, fetch, search);
            var q := Query(CleanText(Some(nameText)), ParseNumber(Some(yearText)));
            && s.state.query == Some(q)
            && s.calls == [Searched(SearchRequest(q.name, q.year, st.paging.limit, 1))]
  {
  }

  /** The query button always ends in SysId mode and, for a non-blank key,
      looks up exactly that key first. */
  lemma QueryByIdLooksUpKey(st: State, sysId: string, fetch: DetailService, search: SearchService)
    ensures QueryById(st, sysId, fetch, search).state.searchMode == SysIdLookup
    ensures !AllSpace(sysId) ==>
              var s := QueryById(st, sysId, fetch, search);
              |s.calls| >= 1 && s.calls[0] == Fetched(Trim(sysId))
    ensures AllSpace(sysId) ==> QueryById(st, sysId, fetch, search).calls == []
  {
    SysIdSubmitCalls(SetSearchMode(EditSysId(st, sysId), SysIdLookup), "", "", fetch, search);
  }

  /** A SysId submit stays in SysId mode and, when the field is not blank,
      starts by looking up its trimmed text. */
  lemma SysIdSubmitCalls(st: State, nameText: string, yearText: string,
                         fetch: DetailService, search: SearchService)
    requires st.searchMode == SysIdLookup
    ensures Submit(st, nameText, yearText, fetch, search).state.searchMode == SysIdLookup
    ensures AllSpace(st.sysIdInput) ==> Submit(st, nameText, yearText, fetch, search).calls == []
    ensures !AllSpace(st.sysIdInput) ==>
              var s := Submit(st, nameText, yearText, fetch, search);
              |s.calls| >= 1 && s.calls[0] == Fetched(Trim(st.sysIdInput))
  {
    var id := CleanText(Some(st.sysIdInput));
    if id.Some? {
      var reply := fetch(id.value);
      if reply.Success? && reply.value.Some? {
        var d := reply.value.value;
        var cache := if Key(d.record).Some? then st.cache[Key(d.record).value := d] else st.cache;
        var shown := st.(cache := cache, results := Table([d.record], 1), pager := None, view := EmptyView);
        var action := RecordAction(shown, d.record, Basic, fetch);
        assert action.state.searchMode == SysIdLookup;
        assert ([Fetched(id.value)] + action.calls)[0] == Fetched(id.value);
      }
    }
  }

  // ----------------------------------------------------------- navigation

  /** Previous asks for the page before the current one, Next for the one
      after it, and each does nothing at its end of the range. */
  lemma NavigationRequests(st: State, search: SearchService)
    requires st.query.Some?
    ensures st.paging.page <= 0 ==> Previous(st, search) == Step(st, [])
    ensures st.paging.page > 0 ==>
              Previous(st, search).calls ==
                [Searched(SearchRequest(st.query.value.name, st.query.value.year,
                                        st.paging.limit, st.paging.page))]
    ensures st.paging.page + 1 >= Max(st.paging.pages, 1) ==> Next(st, search) == Step(st, [])
    ensures st.paging.page + 1 < Max(st.paging.pages, 1) ==>
              Next(st, search).calls ==
                [Searched(SearchRequest(st.query.value.name, st.query.value.year,
                                        st.paging.limit, st.paging.page + 2))]
  {
  }

  /** A click on an enabled navigation button always searches: previous asks
      for the page before, next for the page after, both with the stored
      criteria and the current page size. */
  lemma EnabledNavigationSearches(st: State, search: SearchService)
    requires Inv(st) && st.pager.Some?
    ensures PreviousEnabled(st.paging.page, st.paging.total) ==>
              Previous(st, search).calls ==
                [Searched(SearchRequest(st.query.value.name, st.query.value.year,
                                        st.paging.limit, st.paging.page))]
    ensures NextEnabled(st.paging.page, st.paging.pages, st.paging.total) ==>
              Next(st, search).calls ==
                [Searched(SearchRequest(st.query.value.name, st.query.value.year,
                                        st.paging.limit, st.paging.page + 2))]
  {
    NavigationRequests(st, search);
  }

  // ------------------------------------------------------ page-size field

  /** An arrow key searches the first page with the stepped page size. */
  lemma PageSizeKeyRestartsAtFirstPage(st: State, up: bool, search: SearchService)
    requires Inv(st) && st.pager.Some?
    ensures var v := KeyStep(st.pager.value.text, st.paging.limit, up);
            PageSizeKey(st, up, search).calls ==
              [Searched(SearchRequest(st.query.value.name, st.query.value.year, v, 1))]
  {
  }

  /** A committed page size searches its first page; a reverted one puts the
      current size back in the field without a request; an unchanged one does
      nothing. */
  lemma PageSizeChangeOutcomes(st: State, search: SearchService)
    requires Inv(st) && st.pager.Some?
    ensures var e := ClassifyLimit(st.pager.value.text, st.paging.limit);
            var s := PageSizeChange(st, search);
            && (e == Unchanged ==> s == Step(st, []))
            && (e == Reverted ==> s.calls == [] && s.state.paging == st.paging
                                  && Synced(s.state.pager.value)
                                  && s.state.pager.value.lastValue == st.paging.limit)
            && (e.Committed? ==>
                  s.calls == [Searched(SearchRequest(st.query.value.name, st.query.value.year, e.limit, 1))])
  {
    RevertPagerIsSynced(st.pager.value, st.paging.limit);
  }
}
