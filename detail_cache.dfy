/** `ensureDetail`: the memo of fetched details, keyed by `sysId`. */
module DetailCache {
  import opened Wrappers
  import opened Places

  const MissingKeyMessage := "记录缺少 sysId，无法获取详情。"
  const NotFoundMessage := "未找到对应地名。"

  /** The detail command for one `sysId`: a detail, `null`, or a thrown error. */
  type DetailService = string -> Result<Option<Detail>>

  /** The outcome of one lookup: the detail or error returned, the cache
      afterwards, and whether the service was asked. */
  datatype Lookup = Lookup(result: Result<Detail>, cache: map<string, Detail>, fetched: bool)

  /** `ensureDetail(record)` against `cache`. A record without a key is
      refused; a cached key is answered from the cache; otherwise the service
      is asked once and a detail it returns is stored under the key. */
  function Ensure(cache: map<string, Detail>, record: Record, fetch: DetailService): (o: Lookup)
    ensures o.fetched <==> Key(record).Some? && Key(record).value !in cache
    ensures Key(record).None? ==> o.result == Failure(MissingKeyMessage)
    ensures Key(record).Some? && Key(record).value in cache ==>
              o.result == Success(cache[Key(record).value])
    ensures o.fetched ==> match fetch(Key(record).value)
                          case Success(Some(d)) => o.result == Success(d)
                          case Success(None) => o.result == Failure(NotFoundMessage)
                          case Failure(m) => o.result == Failure(m)
    ensures o.result.Success? ==>
              Key(record).Some? && o.cache == cache[Key(record).value := o.result.value]
    ensures o.result.Failure? ==> o.cache == cache
    ensures forall k :: k in cache ==> k in o.cache && o.cache[k] == cache[k]
  {
    match Key(record)
    case None => Lookup(Failure(MissingKeyMessage), cache, false)
    case Some(k) =>
      if k in cache then Lookup(Success(cache[k]), cache, false)
      else
        match fetch(k)
        case Failure(m) => Lookup(Failure(m), cache, true)
        case Success(None) => Lookup(Failure(NotFoundMessage), cache, true)
        case Success(Some(d)) => Lookup(Success(d), cache[k := d], true)
  }

  /** Once a lookup succeeded, every later lookup of the same key, by any
      record and whatever the service would now answer, returns the same
      detail without asking the service and without changing the cache. This
      is why the results list's location fetches and an explicit selection
      see the same detail. */
  lemma SecondLookupHitsCache(cache: map<string, Detail>, r1: Record, r2: Record,
                              f: DetailService, g: DetailService)
    requires Ensure(cache, r1, f).result.Success?
    requires Key(r2) == Key(r1)
    ensures var o := Ensure(cache, r1, f);
            Ensure(o.cache, r2, g) == Lookup(o.result, o.cache, false)
  {
  }

  /** A failed lookup leaves no trace: the next one for that key asks the
      service again and behaves as if the failure never happened. */
  lemma FailureIsNotCached(cache: map<string, Detail>, record: Record,
                           f: DetailService, g: DetailService)
    requires Ensure(cache, record, f).result.Failure?
    ensures Ensure(Ensure(cache, record, f).cache, record, g) == Ensure(cache, record, g)
    ensures Key(record).Some? ==> Ensure(Ensure(cache, record, f).cache, record, g).fetched
  {
  }
}
