/**
 * The cache decision of `APIManager.get` (utils.js).  The network is not
 * modelled: `response` is what `fetch` would answer if it were asked, and the
 * `fetched` result says whether it was asked.  The clock is read twice by the
 * source, once by `CacheManager.get` before the request and once by
 * `CacheManager.set` after it; `readAt` and `storeAt` are those two readings.
 */
module Api {
  import opened Wrappers
  import opened JsValues
  import opened Cache

  /** The answer `fetch` would give: a transport failure, or a status with a body that parses as JSON or not. */
  datatype Response = NetworkFailure | Reply(status: int, body: Option<Value>)

  /** Why `APIManager.get` throws. */
  datatype GetError =
    | NetworkError        // `fetch` itself rejects
    | HttpError(status: int)  // `!response.ok`: `Error('HTTP ' + status)`
    | InvalidJson         // `response.json()` rejects

  /** `response.ok`: a status in the range 200-299. */
  predicate IsOk(status: int) {
    200 <= status <= 299
  }

  /** The result of one call, the cache map after it, and whether the network was consulted. */
  datatype Step = Step(result: Result<Value, GetError>, cache: Store, fetched: bool)

  /** `APIManager.get(endpoint, useCache, ttl)` as a function of the cache map. */
  function GetStep(c: Store, endpoint: string, useCache: bool, ttl: Option<int>,
                   readAt: int, storeAt: int, response: Response): (s: Step)
    // a truthy cached value is served without a request
    ensures !s.fetched <==> useCache && Lookup(c, endpoint, readAt).Some? && Truthy(Lookup(c, endpoint, readAt).value)
    ensures !s.fetched ==> s.result == Ok(Lookup(c, endpoint, readAt).value) && s.cache == c
    // without the cache, the map is neither read nor written
    ensures !useCache ==> s.cache == c
    // a failed request writes nothing (the read may still have dropped an expired entry)
    ensures s.result.Err? ==> s.fetched && s.cache == (if useCache then AfterGet(c, endpoint, readAt) else c)
    ensures s.result.Err? <==> s.fetched && (response.NetworkFailure? || !IsOk(response.status) || response.body.None?)
    // a successful request is returned and stored under the exact endpoint string
    ensures s.fetched && s.result.Ok? ==> response.Reply? && response.body == Some(s.result.value)
    ensures s.fetched && s.result.Ok? && useCache ==>
      s.cache == Stored(AfterGet(c, endpoint, readAt), endpoint, s.result.value, ttl, storeAt)
  {
    var cached := if useCache then Lookup(c, endpoint, readAt) else None;
    var c1 := if useCache then AfterGet(c, endpoint, readAt) else c;
    if cached.Some? && Truthy(cached.value) then Step(Ok(cached.value), c1, false)
    else
      match response
      case NetworkFailure => Step(Err(NetworkError), c1, true)
      case Reply(status, body) =>
        if !IsOk(status) then Step(Err(HttpError(status)), c1, true)
        else if body.None? then Step(Err(InvalidJson), c1, true)
        else Step(Ok(body.value), if useCache then Stored(c1, endpoint, body.value, ttl, storeAt) else c1, true)
  }

  /** `APIManager.get`, acting on the shared `CacheManager`. */
  method Get(cm: CacheManager, endpoint: string, useCache: bool, ttl: Option<int>,
             readAt: int, storeAt: int, response: Response)
    returns (result: Result<Value, GetError>, fetched: bool)
    modifies cm
    ensures Step(result, cm.cache, fetched) == GetStep(old(cm.cache), endpoint, useCache, ttl, readAt, storeAt, response)
  {
    if useCache {
      var cached := cm.Get(endpoint, readAt);
      if cached.Some? && Truthy(cached.value) {
        return Ok(cached.value), false;
      }
    }
    fetched := true;
    match response
    case NetworkFailure =>
      result := Err(NetworkError);
    case Reply(status, body) =>
      if !IsOk(status) {
        result := Err(HttpError(status));
      } else if body.None? {
        result := Err(InvalidJson);
      } else {
        if useCache {
          cm.Set(endpoint, body.value, ttl, storeAt);
        }
        result := Ok(body.value);
      }
  }

  /**
   * Two calls for a path that is not cached: the first asks the network, and
   * the second, made no later than the first entry's expiry, is served from the
   * cache with the same value, provided that value is truthy.
   */
  lemma OneFetchWithinTtl(c: Store, endpoint: string, ttl: Option<int>, readAt1: int, storeAt1: int,
                          status: int, v: Value, ttl2: Option<int>, readAt2: int, storeAt2: int, response2: Response)
    requires Lookup(c, endpoint, readAt1) == None
    requires IsOk(status) && Truthy(v)
    requires readAt2 <= storeAt1 + EffectiveTtl(ttl)
    ensures var s1 := GetStep(c, endpoint, true, ttl, readAt1, storeAt1, Reply(status, Some(v)));
            var s2 := GetStep(s1.cache, endpoint, true, ttl2, readAt2, storeAt2, response2);
            s1.fetched && !s2.fetched && s1.result == s2.result == Ok(v)
  {
  }

  /** Once the stored entry has expired, the next call asks the network again. */
  lemma RefetchAfterExpiry(c: Store, endpoint: string, ttl: Option<int>, readAt1: int, storeAt1: int,
                           status: int, v: Value, ttl2: Option<int>, readAt2: int, storeAt2: int, response2: Response)
    requires IsOk(status)
    requires readAt2 > storeAt1 + EffectiveTtl(ttl)
    ensures var s1 := GetStep(c, endpoint, true, ttl, readAt1, storeAt1, Reply(status, Some(v)));
            s1.fetched ==> GetStep(s1.cache, endpoint, true, ttl2, readAt2, storeAt2, response2).fetched
  {
  }

  /** After `delete(endpoint)` or `deleteByPrefix` with a prefix of it, the next call asks the network. */
  lemma RefetchAfterInvalidation(c: Store, endpoint: string, prefix: string, ttl: Option<int>,
                                 readAt: int, storeAt: int, response: Response)
    requires prefix <= endpoint
    ensures GetStep(c - {endpoint}, endpoint, true, ttl, readAt, storeAt, response).fetched
    ensures GetStep(WithoutPrefix(c, prefix), endpoint, true, ttl, readAt, storeAt, response).fetched
  {
  }

  /**
   * A falsy body (`null`, `false`, `0`, `''`) is stored but never served: every
   * later call asks the network again, however soon it comes.
   */
  lemma FalsyValueRefetched(c: Store, endpoint: string, ttl: Option<int>, readAt1: int, storeAt1: int,
                            status: int, v: Value, ttl2: Option<int>, readAt2: int, storeAt2: int, response2: Response)
    requires Lookup(c, endpoint, readAt1) == None
    requires IsOk(status) && !Truthy(v)
    ensures var s1 := GetStep(c, endpoint, true, ttl, readAt1, storeAt1, Reply(status, Some(v)));
            s1.fetched && endpoint in s1.cache
            && GetStep(s1.cache, endpoint, true, ttl2, readAt2, storeAt2, response2).fetched
  {
  }
}
