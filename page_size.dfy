/** The page-size field of the pagination controls: the decade-snapping
    stepper behind the arrow keys and the spinner buttons, and the validation
    of a typed page size. */
module PageSize {
  import opened Wrappers
  import opened Text

  /** The next larger page size: 10 below 10, otherwise the next multiple of
      ten above `cur`. */
  function StepUp(cur: int): (r: int)
    ensures r % 10 == 0 && r >= 10 && r > cur
    ensures cur < 10 ==> r == 10
    ensures cur >= 0 ==> r - 10 <= cur
  {
    if cur < 10 then 10 else (cur / 10) * 10 + 10
  }

  /** The next smaller page size: 1 up to 10, otherwise the largest multiple
      of ten below `cur` (`Math.ceil(cur / 10 - 1) * 10`). */
  function StepDown(cur: int): (r: int)
    ensures r >= 1
    ensures cur > 1 ==> r < cur
    ensures cur <= 10 ==> r == 1
    ensures cur > 10 ==> r % 10 == 0 && r < cur <= r + 10
  {
    if cur <= 10 then 1
    else
      var q := -((-(cur - 10)) / 10);
      assert -(cur - 10) == ((-(cur - 10)) / 10) * 10 + (-(cur - 10)) % 10;
      q * 10
  }

  /** Stepping up and then down never ends above the start, and returns
      exactly to a multiple of ten. */
  lemma {:induction false} StepDownAfterUp(cur: int)
    requires cur >= 1
    ensures StepDown(StepUp(cur)) <= cur
    ensures cur % 10 == 0 ==> StepDown(StepUp(cur)) == cur
  {
    var u := StepUp(cur);
    if u > 10 {
      MultiplesOfTen(StepDown(u), u - 10);
    }
  }

  /** Stepping down and then up never ends below the start, and returns
      exactly to a multiple of ten. */
  lemma {:induction false} StepUpAfterDown(cur: int)
    ensures StepUp(StepDown(cur)) >= cur
    ensures cur % 10 == 0 && cur >= 10 ==> StepUp(StepDown(cur)) == cur
  {
    var d := StepDown(cur);
    if cur > 10 {
      MultiplesOfTen(StepUp(d), d + 10);
    }
  }

  /** Two multiples of ten less than ten apart are equal. */
  lemma MultiplesOfTen(a: int, b: int)
    requires a % 10 == 0 && b % 10 == 0 && b - 10 < a < b + 10
    ensures a == b
  {
    assert a == (a / 10) * 10 && b == (b / 10) * 10;
  }

  /** The `input` handler's spinner detection: a change of exactly one from
      the last seen value is replaced by the snapped step in that direction;
      any other value stands. */
  function SpinnerStep(value: int, last: int): (r: int)
    ensures value == last + 1 ==> r == StepUp(last)
    ensures value == last - 1 ==> r == StepDown(last)
    ensures value != last + 1 && value != last - 1 ==> r == value
  {
    if value - last == 1 || last - value == 1 then
      (if value > last then StepUp(last) else StepDown(last))
    else value
  }

  /** The page-size field of the controls: the text it shows, the last value
      the `input` handler saw, and whether a step is in progress. */
  datatype Pager = Pager(text: string, lastValue: int, stepping: bool)

  /** The field shows the number its handlers last recorded. */
  predicate Synced(p: Pager) {
    JsNumber(p.text) == Some(p.lastValue)
  }

  /** The controls as `buildPaginationControls` creates them for page size
      `limit`; they show that size and are synced with it. */
  function FreshPager(limit: int): Pager {
    Pager(IntToString(limit), limit, false)
  }

  lemma FreshPagerIsSynced(limit: int)
    ensures Synced(FreshPager(limit)) && !FreshPager(limit).stepping && FreshPager(limit).lastValue == limit
  {
    IntToStringRoundTrip(limit);
  }

  /** The `input` handler after the browser changed the field to `text`,
      while the session's page size is `limit`. */
  function OnInput(p: Pager, text: string, limit: int): (q: Pager)
    ensures p.stepping ==> q == p.(text := text)
    ensures !p.stepping && JsNumber(text).None? ==> q == Pager(text, limit, false)
    ensures !p.stepping && JsNumber(text).Some? ==>
              && Synced(q)
              && q.lastValue == SpinnerStep(JsNumber(text).value, p.lastValue)
              && (q.stepping <==> (JsNumber(text).value - p.lastValue == 1
                                   || p.lastValue - JsNumber(text).value == 1))
              && (!q.stepping ==> q.text == text)
  {
    if p.stepping then p.(text := text)
    else
      match JsNumber(text)
      case None => Pager(text, limit, false)
      case Some(n) =>
        if n - p.lastValue == 1 || p.lastValue - n == 1 then
          var v := SpinnerStep(n, p.lastValue);
          IntToStringRoundTrip(v);
          Pager(IntToString(v), v, true)
        else Pager(text, n, false)
  }

  /** The reset of the step flag that the handlers schedule. */
  function OnStepTimer(p: Pager): (q: Pager)
    ensures !q.stepping && q.text == p.text && q.lastValue == p.lastValue
  {
    p.(stepping := false)
  }

  /** The three outcomes of the `change` handler. */
  datatype LimitEdit = Reverted | Unchanged | Committed(limit: int)

  /** The `change` handler's verdict on the field's text while the session's
      page size is `limit`: a non-number or a value of at most zero is
      reverted, the current size is kept, anything else is committed. */
  function ClassifyLimit(text: string, limit: int): (e: LimitEdit)
    ensures e == Reverted <==> JsNumber(text).None? || JsNumber(text).value <= 0
    ensures e == Unchanged <==> limit > 0 && JsNumber(text) == Some(limit)
    ensures e.Committed? ==> e.limit >= 1 && e.limit != limit && JsNumber(text) == Some(e.limit)
  {
    match JsNumber(text)
    case None => Reverted
    case Some(n) =>
      if n <= 0 then Reverted
      else if n == limit then Unchanged
      else Committed(n)
  }

  /** The field after a reverted edit shows the session's page size again
      and is synced with it. */
  function RevertPager(p: Pager, limit: int): Pager {
    Pager(IntToString(limit), limit, p.stepping)
  }

  lemma RevertPagerIsSynced(p: Pager, limit: int)
    ensures Synced(RevertPager(p, limit)) && RevertPager(p, limit).lastValue == limit
    ensures RevertPager(p, limit).stepping == p.stepping
  {
    IntToStringRoundTrip(limit);
  }

  /** The value an arrow key steps from: the field's number unless it is
      missing or 0 (`Number(value) || criteriaLimit`). */
  function StepBase(text: string, limit: int): (b: int)
    ensures JsNumber(text).Some? && JsNumber(text).value != 0 ==> b == JsNumber(text).value
    ensures !(JsNumber(text).Some? && JsNumber(text).value != 0) ==> b == limit
  {
    match JsNumber(text)
    case Some(n) => if n != 0 then n else limit
    case None => limit
  }

  /** The page size an arrow key sets: always at least 1, above the base for
      ArrowUp and below it for ArrowDown (unless the base is already 1 or
      less). */
  function KeyStep(text: string, limit: int, up: bool): (r: int)
    ensures up ==> r == StepUp(StepBase(text, limit))
    ensures !up ==> r == StepDown(StepBase(text, limit))
    ensures r >= 1
    ensures up ==> r > StepBase(text, limit) && r % 10 == 0
    ensures !up && StepBase(text, limit) > 1 ==> r < StepBase(text, limit)
  {
    var b := StepBase(text, limit);
    if up then StepUp(b) else StepDown(b)
  }
}
