# Place-name browser session controller, modelled in Dafny

This project models the browsing-session controller of a desktop client for a
historical Chinese place-name registry (`src/main.ts`). The user searches by
name and year ("criteria" mode) or looks a record up by its `sysId` ("SysId"
mode). Results come back a page at a time, and one record at a time can be
opened in a detail panel with three tabs (basic, source, raw).

The controller keeps its state in module-level variables:
- the criteria query;
- the four pagination counters `criteriaPage`, `criteriaLimit`,
  `criteriaTotal` and `criteriaPages`;
- the `detailCache` map;
- the active record, detail and tab;
- the search mode.

The model has two layers:

- **Pure layer.** Each module turns one group of the source's functions and
  handlers into functions with contracts and lemmas:
  - `Text`: `trim`, `cleanText`/`sanitizeInput`, the integer part of
    `Number`/`String`, `parseNumber`.
  - `Places`: records, year-range texts, location summary, name-variant
    fallback.
  - `Pagination`: reply checks, reconciliation of the counters,
    previous/next guards.
  - `PageSize`: the decade-snapping stepper and the page-size field's
    `keydown`/`input`/`change` handlers.
  - `DetailCache`: `ensureDetail`.
  - `SessionModel`: the whole session as a value, with one transition per
    event handler.
  - `SessionProperties`: the lemmas about those transitions.
- **Imperative layer.** `Controller.Session` is a class whose fields are the
  module-level variables. Each handler is a method that updates the fields
  step by step, as the source does. Each method is proved to move the fields
  exactly as the matching `SessionModel` transition does, to append the
  backend calls it makes to a ghost log, and to keep the session invariant
  `SessionModel.Inv`. The location-cell fetches a search starts are separate
  events (see Left out). The invariant says:
  - `limit ≥ 1`, `pages ≥ 1` and `0 ≤ page < pages`;
  - the active record and detail are present or absent together;
  - an active detail is the cached one for its record's key;
  - pagination controls exist only in criteria mode with a stored query.

The two backend commands (`search_placenames`, `get_placename`) are
parameters. Each is a function from the request to a reply or a thrown error
message. Every asynchronous handler runs to completion before the next event
is handled.

## Model

Facts about `src/main.ts` that the rows below rely on:

- The previous/next buttons, the arrow keys and a committed typed page size
  change `criteriaPage`/`criteriaLimit` before the request is sent. A failed
  request keeps the changed values
  (`SessionProperties.SearchFailureKeepsCounters`).
- A successful search also clears the active record and detail, because
  `renderResults` resets the detail view
  (`SessionProperties.SearchSuccessReconciles`).
- Entering SysId mode removes the pagination controls but keeps the stored
  query and the counters (`SessionProperties.SearchModeSwitch`).
- The previous/next buttons exist only inside the pagination controls. They
  are disabled on the first/last page and whenever `criteriaTotal` is 0
  (`Pagination.PreviousEnabled`, `Pagination.NextEnabled`). Their click
  listeners test only the page. A reply without `total` but with several
  pages therefore leaves both buttons disabled, although their listeners
  would still search. `Controller.Session.ClickPrevious` and
  `Controller.Session.ClickNext` require the controls to exist and the
  button to be enabled. `SessionModel.Previous` and `SessionModel.Next`
  model the listeners themselves.

| member | source | states |
|---|---|---|
| `Text.Trim` | src/main.ts:160 | the result has no white space at either end, is no longer than the input, and is empty exactly when the input is all white space |
| `Text.TrimIgnoresPadding` | src/main.ts:160 | white space added around a string does not change its trimmed form |
| `Text.TrimIdempotent` | src/main.ts:160 | trimming twice is trimming once |
| `Text.CleanText` | src/main.ts:319-323 | absent exactly when the value is missing or blank; otherwise the trimmed, non-empty text |
| `Text.CleanTextIdempotent` | src/main.ts:158-162 | cleaning an already cleaned value changes nothing |
| `Text.CleanTextIgnoresPadding` | src/main.ts:158-162 | surrounding white space never changes the cleaned value |
| `Text.ParseNumber` | src/main.ts:164-170 | a present number comes only from a present, non-blank value |
| `Text.ParseNumberVersusNumber` | src/main.ts:164-170 | `parseNumber` equals `Number` of the text except that a blank text is absent instead of 0 |
| `Text.ParseNumberRoundTrip` | src/main.ts:164-170 | the decimal text of any integer parses back to that integer |
| `Text.IntToStringRoundTrip` | src/main.ts:687 | `Number(String(i)) == i`, so the page-size field shows exactly the page size it was given |
| `Places.Key` | src/main.ts:873-876 | a record has a key exactly when its `sysId` is a non-empty string, and the key is that `sysId` |
| `Places.FormatYearShort` | src/main.ts:283-288 | empty exactly for a missing year; `前` followed by the digits of the magnitude for a negative year; the decimal text otherwise |
| `Places.FormatYearShortInjective` | src/main.ts:283-288 | different years never get the same short text |
| `Places.FormatPeriodShort` | src/main.ts:290-303 | the period text is never empty; its four forms are given by `PeriodDashIffNoYears`, `PeriodCollapsesIffEqualYears` and `PeriodOneSided` |
| `Places.PeriodOneSided` | src/main.ts:300-301 | with only the start year known the text is that year followed by ` 起`; with only the end year known it is `至 ` followed by that year |
| `Places.PeriodDashIffNoYears` | src/main.ts:290-303 | the period is the dash exactly when the temporal part or both its years are missing |
| `Places.PeriodCollapsesIffEqualYears` | src/main.ts:297-299 | with both years known, the text is one year exactly when the years are equal, otherwise `start - end` |
| `Places.Dedupe` | src/main.ts:376-386 | the result holds the same strings as the input, each once, ordered by first occurrence |
| `Places.LocationTexts` | src/main.ts:378-383 | a text is in the result exactly when some entry's cleaned text is that text; each is trimmed and non-empty; never more texts than entries; empty exactly when every entry is blank |
| `Places.LocationTextsInOrder` | src/main.ts:378-383 | the texts follow the order of the entries: the texts of `a + b` are those of `a` followed by those of `b`, and one entry gives its cleaned text or nothing |
| `Places.LocationsOf` | src/main.ts:375 | the detail's location list wins whenever it is present, even when empty |
| `Places.SummaryShape` | src/main.ts:374-387 | the summary is absent exactly when no location text is non-blank; otherwise it joins the distinct texts once each, in first-seen order |
| `Places.SummaryNotEmpty` | src/main.ts:385-386 | a present summary is never the empty text |
| `Places.FindSpelling` | src/main.ts:325-331 | absent exactly when no entry is marked; otherwise the first marked entry |
| `Places.FirstPresent` | src/main.ts:346-365 | a `??` chain gives the first present candidate, and is absent only when all are |
| `Places.CandidatesAreClean` | src/main.ts:346-365 | every name candidate is absent or a trimmed non-empty text |
| `Places.NameVariantFallback` | src/main.ts:333-368 | each variant is the first non-blank candidate in source order (marked spelling, then detail and record names, then `sysId` for the simplified one), or the dash when there is none, and is never empty |
| `Pagination.Interpret` | src/main.ts:821-830 | a reply is usable exactly when no error was thrown, `resp_code` is 0 or missing and `datas` is present; the error is the thrown message, `resp_msg` (or the default text) for a non-zero code, or the no-data text |
| `Pagination.CeilDiv` | src/main.ts:839 | the ceiling of the quotient: `(q-1)*b < a <= q*b` |
| `Pagination.Reconcile` | src/main.ts:832-851 | total is the reply's total or 0; size is the reply's positive size or the requested one; pages is the reply's positive `pages` or `max(ceil(total/max(size,1)),1)`; the page is the normalised `current` (or the requested page) clamped into range; so `pages >= 1` and `0 <= page < pages` |
| `Pagination.PageCountCoversTotal` | src/main.ts:838-840 | without reported `pages`, the page count is the least number of pages of the new size that holds every record |
| `Pagination.CurrentInRangeIsKept` | src/main.ts:843-851 | a 1-based `current` that names an existing page is used as is |
| `Pagination.RequestedPageIsKept` | src/main.ts:843-851 | without a usable `current`, the requested page is kept when it still exists |
| `Pagination.ExampleReportedPages` | src/main.ts:832-851 | 23 records in pages of 10 reported with `pages` 3 and `current` 1 give page 0 of 3 |
| `Pagination.ExampleClampedPage` | src/main.ts:832-851 | page index 5 requested while 12 records exist with no `pages`/`current` gives 2 pages and page 1 |
| `Pagination.PreviousPage` | src/main.ts:782-786 | steps back by one exactly when the page is after the first, and otherwise stays |
| `Pagination.NextPage` | src/main.ts:794-798 | steps forward by one exactly when `page + 1 < max(pages, 1)`, and otherwise stays |
| `Pagination.NavigationStaysInRange` | src/main.ts:781-798 | navigation never leaves `[0, max(pages,1)-1]`, and an enabled button always moves by exactly one page |
| `PageSize.StepUp` | src/main.ts:696 | the result is a multiple of ten, at least 10 and above `cur`; it is exactly 10 for every `cur < 10`, and otherwise the next multiple of ten above `cur` (at most ten above it) |
| `PageSize.StepDown` | src/main.ts:706 | the result is at least 1; it is 1 up to 10; above 10 it is the largest multiple of ten below `cur`; it is below `cur` whenever `cur > 1` |
| `PageSize.StepDownAfterUp` | src/main.ts:696-706 | a step up then a step down never ends above the start, and returns exactly to a multiple of ten |
| `PageSize.StepUpAfterDown` | src/main.ts:696-706 | a step down then a step up never ends below the start, and returns exactly to a multiple of ten of at least 10 |
| `PageSize.SpinnerStep` | src/main.ts:727-741 | a change of exactly +1/-1 from the last value becomes the snapped step up/down; any other value stands |
| `PageSize.FreshPagerIsSynced` | src/main.ts:684-689 | new controls show the page size, remember it as the last value and are not stepping |
| `PageSize.OnInput` | src/main.ts:717-742 | while stepping, only the text changes; a non-number resets the last value to the page size; a number is replaced by the snapped step exactly when it is one away from the last value, and the field then shows the recorded value |
| `PageSize.OnStepTimer` | src/main.ts:738 | the timer clears the step flag and changes nothing else |
| `PageSize.ClassifyLimit` | src/main.ts:744-756 | a non-number or a value of at most 0 is reverted; the current size is a no-op; any other value is committed and is positive |
| `PageSize.RevertPagerIsSynced` | src/main.ts:746-749 | a reverted field shows the page size again and remembers it as the last value |
| `PageSize.StepBase` | src/main.ts:695 | an arrow key steps from the field's number unless that is missing or 0, otherwise from the page size |
| `PageSize.KeyStep` | src/main.ts:691-712 | an arrow key sets exactly `StepUp` (ArrowUp) or `StepDown` (ArrowDown) of the base; so the size is at least 1, a multiple of ten above the base for ArrowUp, and below the base for ArrowDown when the base exceeds 1 |
| `DetailCache.Ensure` | src/main.ts:872-881 | the service is asked exactly when the record has a key that is not cached; a missing key fails; a hit returns the cached detail; a fetched detail is returned and stored under the key; a failure leaves the cache unchanged; no cached entry is ever lost or changed |
| `DetailCache.SecondLookupHitsCache` | src/main.ts:876-879 | after a successful lookup, any later lookup of the same key returns the same detail without asking the service |
| `DetailCache.FailureIsNotCached` | src/main.ts:878-879 | a failed lookup leaves no trace: the next lookup of the key asks the service again |
| `SessionModel.SetStatus` | src/main.ts:146-156 | a message that is all white space clears the status line; any other is shown with its variant |
| `SessionModel.Initial` | src/main.ts:140-144 | the initial session satisfies the invariant, with page 0, size 10, total 0, one page, an empty cache and no selection |
| `SessionModel.Listing` | src/main.ts:569-592 | the "no matches" note exactly when the record list is missing or empty, otherwise a table of those records |
| `Places.SummarizeRecordLocation` | src/main.ts:374-387 | specified by `Places.SummaryShape` and `Places.SummaryNotEmpty`: absent exactly when no location text is non-blank, otherwise the distinct texts in first-seen order joined by " / " |
| `Places.NameCandidates` | src/main.ts:334-365 | specified by `Places.CandidatesAreClean`: the candidates of each variant, in the order the `??` chains try them, each absent or a trimmed non-empty text |
| `Places.CollectNameVariants` | src/main.ts:333-368 | specified by `Places.NameVariantFallback`: each variant is its first non-blank candidate, or the dash |
| `Text.ParseInteger` | src/main.ts:168 | specified by `Text.IntToStringRoundTrip`: the decimal text of every integer reads back as that integer |
| `Text.JsNumber` | src/main.ts:695 | specified by `Text.IntToStringRoundTrip` and `Text.ParseNumberVersusNumber`: `Number(String(i)) == i`, and `parseNumber` differs from it only on blank text |
| `Text.IntToString` | src/main.ts:687 | the text is non-empty and trimmed; `Text.IntToStringRoundTrip` shows `Number` reads it back |
| `Pagination.NormalizeCurrent` | src/main.ts:843-849 | specified by `Pagination.Reconcile`, `Pagination.CurrentInRangeIsKept` and `Pagination.RequestedPageIsKept`: a 1-based `current` loses one, 0 stays, a missing or negative one gives the requested page |
| `SessionModel.SelectTab` | src/main.ts:1221-1231 | specified by `SessionProperties.TabClickKeepsSelection` and `SimpleHandlersKeepInv`: only the tab changes |
| `SessionModel.SetSearchMode` | src/main.ts:193-242 | specified by `SessionProperties.SearchModeSwitch` and `SimpleHandlersKeepInv` |
| `SessionModel.ClickSearchMode` | src/main.ts:1213-1219 | specified by `SessionProperties.SearchModeSwitch`: the active mode is ignored, another one is entered |
| `SessionModel.RunSearch` | src/main.ts:807-870 | specified by `SessionProperties.SearchSendsStoredCriteria`, `SearchFailureKeepsCounters`, `SearchSuccessReconciles` and `RunSearchKeepsInv` |
| `SessionModel.Failed` | src/main.ts:863-869 | specified by `SessionProperties.SearchFailureKeepsCounters` and `DirectLookupFailure`: results, controls and selection cleared, error shown, counters kept |
| `SessionModel.SearchSucceeded` | src/main.ts:832-862 | specified by `SessionProperties.SearchSuccessReconciles` |
| `SessionModel.RecordAction` | src/main.ts:1093-1147 | specified by `SessionProperties.RecordWithoutKeyIsIgnored`, `RecordActionSelects`, `RecordActionFailureRestores`, `ReopeningUsesCache` and `RecordActionKeepsInv` |
| `SessionModel.Submit` | src/main.ts:1149-1206 | specified by `SessionProperties.CriteriaSubmitSearchesFirstPage`, `SysIdSubmitCalls` and `SubmitKeepsInv` |
| `SessionModel.LookUp` | src/main.ts:1154-1196 | specified by `SessionProperties.BlankSysIdOnlyWarns`, `DirectLookupOpensDetail`, `DirectLookupWithoutKey` and `DirectLookupFailure` |
| `SessionModel.Found` | src/main.ts:1172-1187 | specified by `SessionProperties.FoundOpensDetail` and `FoundWithoutKey` |
| `SessionModel.QueryById` | src/main.ts:413-421 | specified by `SessionProperties.QueryByIdLooksUpKey` and `QueryByIdKeepsInv` |
| `SessionModel.Previous` | src/main.ts:782-786 | specified by `SessionProperties.NavigationRequests` and `NavigationKeepsInv` |
| `SessionModel.Next` | src/main.ts:794-798 | specified by `SessionProperties.NavigationRequests` and `NavigationKeepsInv` |
| `SessionModel.PageSizeKey` | src/main.ts:691-713 | specified by `SessionProperties.PageSizeKeyRestartsAtFirstPage` and `PageSizeHandlersKeepInv` |
| `SessionModel.Stepped` | src/main.ts:694-699 | specified by `PageSize.KeyStep` and `SessionProperties.SteppedKeepsInv`: the stepped size is set and the page goes back to 0 |
| `SessionModel.PageSizeInput` | src/main.ts:717-742 | specified by `PageSize.OnInput` and `SessionProperties.SimpleHandlersKeepInv` |
| `SessionModel.PageSizeChange` | src/main.ts:744-756 | specified by `SessionProperties.PageSizeChangeOutcomes` and `PageSizeHandlersKeepInv` |
| `SessionModel.WithLimit` | src/main.ts:752-754 | specified by `SessionProperties.WithLimitKeepsInv`: a committed size is set, remembered by the field, and the page goes back to 0 |
| `SessionModel.StepTimer` | src/main.ts:738 | specified by `PageSize.OnStepTimer` and `SessionProperties.SimpleHandlersKeepInv` |
| `SessionModel.LocationCell` | src/main.ts:604-626 | specified by `SessionProperties.LocationCellText`, `LocationCellFeedsSelection` and `LocationCellKeepsInv` |
| `SessionProperties.SimpleHandlersKeepInv` | src/main.ts:193-242 | tab clicks, search-mode switches, SysId edits, page-size `input` events and the step timer keep the session invariant |
| `SessionProperties.RunSearchKeepsInv` | src/main.ts:807-870 | a criteria search keeps the invariant, whatever the service replies |
| `SessionProperties.RecordActionKeepsInv` | src/main.ts:1093-1147 | opening a record keeps the invariant: the record and detail stay paired and the detail is the cached one |
| `SessionProperties.SubmitKeepsInv` | src/main.ts:1149-1206 | a submit in either mode keeps the invariant |
| `SessionProperties.WithCriteriaKeepsInv` | src/main.ts:1199-1203 | storing new criteria and going back to the first page keeps the invariant |
| `SessionProperties.QueryByIdKeepsInv` | src/main.ts:413-421 | the query button of a related place keeps the invariant |
| `SessionProperties.NavigationKeepsInv` | src/main.ts:781-798 | the previous/next buttons keep the invariant |
| `SessionProperties.PageSizeHandlersKeepInv` | src/main.ts:691-756 | the arrow keys and the `change` event of the page-size field keep the invariant |
| `SessionProperties.SteppedKeepsInv` | src/main.ts:698-699 | an arrow key's new page size and page reset keep the invariant |
| `SessionProperties.WithLimitKeepsInv` | src/main.ts:752-754 | committing a positive page size keeps the invariant |
| `SessionProperties.LocationCellKeepsInv` | src/main.ts:604-626 | filling a location cell keeps the invariant |
| `SessionProperties.SearchModeSwitch` | src/main.ts:193-242 | entering criteria mode empties the SysId field; entering SysId mode removes the pagination controls; the status is cleared; query, counters, results, cache and selection are untouched; clicking the active mode does nothing |
| `SessionProperties.TabClickKeepsSelection` | src/main.ts:1221-1231 | a tab click changes only the open tab |
| `SessionProperties.SearchSendsStoredCriteria` | src/main.ts:807-821 | without a query nothing happens; with one the search itself sends exactly one search request, with the stored criteria, the page size and the 1-based page; query, cache and mode are untouched by the search (the location-cell fetches it starts are separate events, see Left out) |
| `SessionProperties.SearchFailureKeepsCounters` | src/main.ts:863-869 | a failed search leaves the four counters as they were at the request, clears the results, the controls and the selection, and shows the error |
| `SessionProperties.SearchSuccessReconciles` | src/main.ts:832-862 | a successful search sets the counters to `Reconcile` of the reply, lists its records, resets the selection, clears the status, and builds fresh controls showing the new size exactly when there are records and the mode is criteria |
| `SessionProperties.RecordWithoutKeyIsIgnored` | src/main.ts:1094 | a record without a `sysId` changes nothing and calls nothing |
| `SessionProperties.RecordActionSelects` | src/main.ts:1126-1135 | on success the record and its detail become the selection together, in the requested tab; the service is asked only on a cache miss |
| `SessionProperties.RecordActionFailureRestores` | src/main.ts:1136-1146 | on failure the previous record, detail and tab come back exactly, or the panel is reset when nothing was selected; the cache, results and counters are unchanged and the error is shown |
| `SessionProperties.ReopeningUsesCache` | src/main.ts:1127 | opening the same record again, in any tab, asks the service nothing and shows the same detail |
| `SessionProperties.LocationCellFeedsSelection` | src/main.ts:612 | a detail fetched for a location cell is the one a later selection shows, without a second fetch |
| `SessionProperties.LocationCellText` | src/main.ts:604-626 | a location cell is never empty; it shows the record's own summary when it has one and a dash for a record with neither locations nor key |
| `SessionProperties.FixedMessagesAreShown` | src/main.ts:1157 | the lookup's fixed messages are never blank, so they always show |
| `SessionProperties.BlankSysIdOnlyWarns` | src/main.ts:1155-1162 | a blank SysId only shows the "enter a SysId" error and calls nothing |
| `SessionProperties.DirectLookupOpensDetail` | src/main.ts:1164-1187 | a keyed detail found by SysId is fetched once, cached, listed as a one-record table without controls, opened in the basic tab, and success is reported; counters and query are untouched |
| `SessionProperties.FoundOpensDetail` | src/main.ts:1172-1187 | opening a found keyed detail is served from the cache it was just put in |
| `SessionProperties.DirectLookupWithoutKey` | src/main.ts:1172-1187 | a found detail without a key is listed but not opened, and success is still reported |
| `SessionProperties.FoundWithoutKey` | src/main.ts:1172-1187 | the state after listing a found detail that has no key |
| `SessionProperties.DirectLookupFailure` | src/main.ts:1166-1194 | a failed or empty lookup clears the results, the controls and the selection and shows why; cache and counters are untouched |
| `SessionProperties.CriteriaSubmitSearchesFirstPage` | src/main.ts:1199-1205 | a criteria submit stores the cleaned name and parsed year and requests page 1 with the current page size |
| `SessionProperties.QueryByIdLooksUpKey` | src/main.ts:413-421 | the query button always ends in SysId mode and, for a non-blank key, first looks up exactly that key |
| `SessionProperties.SysIdSubmitCalls` | src/main.ts:1154-1167 | a SysId submit stays in SysId mode, calls nothing for a blank field and otherwise starts by fetching the trimmed key |
| `SessionProperties.NavigationRequests` | src/main.ts:781-798 | previous requests the page before and next the page after, as 1-based numbers, and each does nothing at its end of the range |
| `SessionProperties.EnabledNavigationSearches` | src/main.ts:778-798 | a click on an enabled previous/next button always sends one search, for the page before or after, with the stored criteria and the current page size |
| `SessionProperties.PageSizeKeyRestartsAtFirstPage` | src/main.ts:691-712 | an arrow key requests page 1 with the stepped page size |
| `SessionProperties.PageSizeChangeOutcomes` | src/main.ts:744-756 | a committed size requests its page 1; a reverted one restores the field without a request; an unchanged one does nothing |
| `Controller.Session.constructor` | src/main.ts:1208-1211 | the initial session after the page-load handler, with an empty call log |
| `Controller.Session.ShowStatus` | src/main.ts:146-156 | the status line becomes `SetStatus` of the message |
| `Controller.Session.SetActiveTab` | src/main.ts:172-173 | the active tab becomes the given one |
| `Controller.Session.ResetDetailView` | src/main.ts:268-281 | record and detail are cleared together and the tab becomes basic |
| `Controller.Session.ClickTab` | src/main.ts:1221-1231 | the fields follow `SelectTab`, and the invariant is kept |
| `Controller.Session.SetSearchMode` | src/main.ts:193-242 | the fields follow the model's `SetSearchMode` |
| `Controller.Session.ClickSearchMode` | src/main.ts:1213-1219 | the fields follow `ClickSearchMode`, and the invariant is kept |
| `Controller.Session.EditSysId` | src/main.ts:1155 | only the SysId field changes |
| `Controller.Session.RenderResults` | src/main.ts:555-669 | the selection is reset; the records or the "no matches" note are shown; controls are built only for a non-empty table in criteria mode with a stored query |
| `Controller.Session.RunCriteriaSearch` | src/main.ts:807-870 | the fields follow `RunSearch`, the search request is appended to the call log, and the invariant is kept (location-cell fetches are logged by `LoadLocationCell`) |
| `Controller.Session.ShowFailure` | src/main.ts:863-869 | results and controls are cleared, the selection is reset and the error is shown |
| `Controller.Session.ApplySearchData` | src/main.ts:832-862 | the fields follow `SearchSucceeded` |
| `Controller.Session.ReconcileCounters` | src/main.ts:832-851 | the four counters become `Reconcile` of the old page, the old size and the reply |
| `Controller.Session.EnsureDetail` | src/main.ts:872-881 | the result and the new cache are those of `Ensure`, and a fetch is logged exactly when the service was asked |
| `Controller.Session.HandleRecordAction` | src/main.ts:1093-1147 | the fields follow `RecordAction`, and the invariant is kept |
| `Controller.Session.HandleSubmit` | src/main.ts:1149-1206 | the fields follow `Submit`, and the invariant is kept |
| `Controller.Session.LookUpSysId` | src/main.ts:1154-1196 | the fields follow `LookUp` |
| `Controller.Session.ShowFound` | src/main.ts:1172-1187 | the fields follow `Found` |
| `Controller.Session.QueryById` | src/main.ts:413-421 | the fields follow the model's `QueryById`, and the invariant is kept |
| `Controller.Session.ClickPrevious` | src/main.ts:778-786 | for a click on the enabled button inside the controls, the fields follow `Previous`, the search is logged, and the invariant is kept |
| `Controller.Session.ClickNext` | src/main.ts:789-798 | for a click on the enabled button inside the controls, the fields follow `Next`, the search is logged, and the invariant is kept |
| `Controller.Session.PageSizeKeyDown` | src/main.ts:691-713 | the fields follow `PageSizeKey`, and the invariant is kept |
| `Controller.Session.StepLimit` | src/main.ts:694-699 | the fields follow `Stepped`: the field shows the new size, the size is set and the page is 0 |
| `Controller.Session.PageSizeInputEvent` | src/main.ts:717-742 | the fields follow `PageSizeInput`, and the invariant is kept |
| `Controller.Session.PageSizeChangeEvent` | src/main.ts:744-756 | the fields follow `PageSizeChange`, and the invariant is kept |
| `Controller.Session.CommitLimit` | src/main.ts:752-754 | the size and the field's last value become the committed size and the page becomes 0 |
| `Controller.Session.StepTimerFires` | src/main.ts:738 | the fields follow `StepTimer`, and the invariant is kept |
| `Controller.Session.LoadLocationCell` | src/main.ts:604-626 | the text and the new fields are those of `LocationCell` |

## Left out

- Rendering is left out. This covers building the results table, the detail
  tabs (`renderBasic`, `renderSource`, `renderRaw`, `renderEmptyState`),
  focus and selection calls, and element visibility. The model keeps only
  what the rendering changes in session state: results shown or cleared,
  pagination controls present or absent, the status line.
- `highlightJson` and `extractTextFromHtml` are left out. They are cosmetic
  or depend on the browser's HTML parser.
- Transient loading texts are not modelled: "正在查询…", the loading
  placeholders, and the loading status of a record action. Each handler runs
  to completion, so these texts are always replaced before the next event.
- Concurrency is left out. Two in-flight requests never interleave in the
  model. The stale-cell check (`isConnected` / `dataset.sysId`) is therefore
  not modelled, and neither is any race between overlapping searches or
  detail loads. The source has no single-flight deduplication in
  `ensureDetail`, no request tokens and no search sequence numbers, so the
  model has none either.
- SessionProperties.SearchSendsStoredCriteria: `renderResults` starts an
  `ensureDetail` fetch for every listed record that has a `sysId` but no
  location text of its own (src/main.ts:604-623). The model treats these
  fetches as later, independent `LoadLocationCell` events. So the search's
  own call log and cache update leave them out.
- Controller.Session.RunCriteriaSearch: likewise logs only the search
  request. Each location-cell fetch is logged, and its detail cached, by a
  separate `Controller.Session.LoadLocationCell` call.
- The `setTimeout(…, 0)` that clears the step flag becomes an explicit event,
  `Controller.Session.StepTimerFires`.
- The regular-expression script tests in `collectNameVariants` are not
  modelled. Each spelling entry carries three booleans standing for their
  outcomes; only the fallback order is modelled.
- `Text.ParseNumber`: `Number(…)` is modelled only for an optional sign
  followed by decimal digits. Fractional, exponent, hexadecimal and infinite
  forms are treated as not-a-number. So a fractional page size, page count or
  `current` in a reply is treated as missing, and fractional page sizes typed
  into the field are reverted.
- `DetailCache.Ensure`: `get_placename` can answer JSON `null`. The source
  would store and return `null`. The model treats that reply as the
  not-found failure and caches nothing, which matches the SysId lookup's
  handling at src/main.ts:1168-1170.
- Only the display-only fields of a detail that the modelled helpers read
  are kept. Feature type, reasons, historical relations and coordinates are
  left out.
- The fallback pagination arithmetic inside `renderResults`
  (src/main.ts:561-567) is not modelled. It only computes display texts.
- Detail-tab rendering on a tab click is not modelled; only the active tab
  changes.
- src-tauri/src/lib.rs is not part of this model. It is HTTP plumbing
  between the client and the registry service.
