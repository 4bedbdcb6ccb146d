/** The subscriber-count endpoint (vibe-coding-landing/src/app/api/count/route.ts):
    a module-level cache of the last count, valid for 60 seconds, in front
    of `getSubscriberCount`. */
module CountRoute {
  import opened Types
  import opened Database
  import opened ApiUtils

  const Ttl := 60000
  const CachedMessage := "Cached subscriber count"
  const FetchedMessage := "Subscriber count retrieved successfully"
  const FetchFailed := "Failed to fetch subscriber count"

  /** The cache's `data` (the cached count) and `timestamp`. */
  datatype CacheState = CacheState(data: Option<int>, timestamp: int)

  const InitialCache := CacheState(None, 0)

  /** The cache answers: it holds a count younger than the TTL. */
  predicate IsHit(cache: CacheState, now: int) {
    cache.data.Some? && now - cache.timestamp < Ttl
  }

  /** `result.data || 0` */
  function CountOf(result: DbResult<int>): (n: int)
    ensures result.data.Some? ==> n == result.data.value
    ensures result.data.None? ==> n == 0
  {
    if result.data.Some? && result.data.value != 0 then result.data.value else 0
  }

  /** The response of `countHandler` at time `now`. */
  function CountResponse(cache: CacheState, now: int, rows: seq<Subscriber>, backend: Backend): Response {
    if IsHit(cache, now) then CreateSuccessResponse(CountData(cache.data.value), CachedMessage)
    else
      var result := GetSubscriberCount(rows, backend);
      if result.error.Some? then CreateErrorResponse(FetchFailed, 500)
      else CreateSuccessResponse(CountData(CountOf(result)), FetchedMessage)
  }

  /** The cache after `countHandler` at time `now`. */
  function CountCacheAfter(cache: CacheState, now: int, rows: seq<Subscriber>, backend: Backend): CacheState {
    if IsHit(cache, now) then cache
    else
      var result := GetSubscriberCount(rows, backend);
      if result.error.Some? then cache
      else CacheState(Some(CountOf(result)), now)
  }

  /** The module-level `cache` object. */
  class CountCache {
    var data: Option<int>
    var timestamp: int

    constructor()
      ensures data == InitialCache.data && timestamp == InitialCache.timestamp
    {
      data := None;
      timestamp := 0;
    }

    function State(): CacheState
      reads this
    {
      CacheState(data, timestamp)
    }

    /** `countHandler` */
    method CountHandler(now: int, rows: seq<Subscriber>, backend: Backend) returns (response: Response)
      modifies this
      ensures response == CountResponse(old(State()), now, rows, backend)
      ensures State() == CountCacheAfter(old(State()), now, rows, backend)
    {
      if data.Some? && now - timestamp < Ttl {
        return CreateSuccessResponse(CountData(data.value), CachedMessage);
      }
      var result := GetSubscriberCount(rows, backend);
      if result.error.Some? {
        return CreateErrorResponse(FetchFailed, 500);
      }
      var countData := CountOf(result);
      data := Some(countData);
      timestamp := now;
      return CreateSuccessResponse(CountData(countData), FetchedMessage);
    }
  }

  /** A hit answers from the cache whatever the table holds or the service
      would do: the database is not consulted. */
  lemma HitIgnoresDatabase(cache: CacheState, now: int, rows: seq<Subscriber>, backend: Backend,
                           rows': seq<Subscriber>, backend': Backend)
    requires IsHit(cache, now)
    ensures CountResponse(cache, now, rows, backend) == CountResponse(cache, now, rows', backend')
    ensures CountResponse(cache, now, rows, backend).body == SuccessBody(CountData(cache.data.value), CachedMessage)
    ensures CountCacheAfter(cache, now, rows, backend) == cache
  {
  }

  /** From 60000 ms after the timestamp on, the cache misses; an answered
      fetch reports the table's row count and refreshes the cache. */
  lemma ExpiredRefetches(cache: CacheState, now: int, rows: seq<Subscriber>)
    requires now - cache.timestamp >= Ttl
    ensures !IsHit(cache, now)
    ensures CountResponse(cache, now, rows, Answer).body == SuccessBody(CountData(|rows|), FetchedMessage)
    ensures CountCacheAfter(cache, now, rows, Answer) == CacheState(Some(|rows|), now)
  {
  }

  /** A failed fetch is a 500 and leaves the cache as it was. */
  lemma FetchErrorKeepsCache(cache: CacheState, now: int, rows: seq<Subscriber>, backend: Backend)
    requires !IsHit(cache, now)
    requires !backend.Answer? && (backend.Fails? ==> backend.err.Truthy())
    ensures CountResponse(cache, now, rows, backend) == CreateErrorResponse(FetchFailed, 500)
    ensures CountCacheAfter(cache, now, rows, backend) == cache
  {
  }

  /** Within the TTL after a successful fetch, every request is a cache hit
      reporting the fetched count, even if the table has changed. */
  lemma CountStableWithinTtl(cache: CacheState, t: int, rows: seq<Subscriber>, backend: Backend,
                             t': int, rows': seq<Subscriber>, backend': Backend)
    requires !IsHit(cache, t)
    requires CountResponse(cache, t, rows, backend).status == 200
    requires t <= t' < t + Ttl
    ensures var first := CountResponse(cache, t, rows, backend);
      var cache' := CountCacheAfter(cache, t, rows, backend);
      first.body.SuccessBody? && IsHit(cache', t')
      && CountResponse(cache', t', rows', backend').body == SuccessBody(first.body.data, CachedMessage)
  {
  }

  /** `GET`: the handler behind CORS and a check for GET, without rate limiting. */
  const CountOptions := ApiOptions(Some(["GET"]), true, false)

  method Get(limiter: RateLimiter, cache: CountCache, request: Request, now: int, rows: seq<Subscriber>, backend: Backend)
    returns (response: Response)
    modifies limiter, cache
    ensures var early := GateResponse(old(limiter.store), CountOptions, request, now);
      early.Some? ==> response == early.value && cache.State() == old(cache.State())
    ensures var early := GateResponse(old(limiter.store), CountOptions, request, now);
      early.None? ==> response == FinishResponse(CountOptions, Responds(CountResponse(old(cache.State()), now, rows, backend)))
                      && cache.State() == CountCacheAfter(old(cache.State()), now, rows, backend)
    ensures limiter.store == old(limiter.store)
  {
    var early := Gate(limiter, CountOptions, request, now);
    if early.Some? {
      return early.value;
    }
    var handled := cache.CountHandler(now, rows, backend);
    response := FinishResponse(CountOptions, Responds(handled));
  }

  /** The count endpoint never touches the rate limiter, and a GET that is
      not a preflight always reaches the handler. */
  lemma CountNotRateLimited(store: map<string, RateRecord>, request: Request, now: int)
    ensures GateStore(store, CountOptions, request, now) == store
    ensures request.verb == "GET" ==> GateResponse(store, CountOptions, request, now).None?
    ensures request.verb != "GET" && request.verb != "OPTIONS" ==>
      GateResponse(store, CountOptions, request, now).value.status == 405
  {
  }

  /** The route's own `OPTIONS` export: an empty 200 with CORS headers. */
  function CountPreflight(): (r: Response)
    ensures r.status == 200 && r.body == NoBody && r.corsHeaders
    ensures HandleCors("OPTIONS") == Some(r)
  {
    Response(200, NoBody, true)
  }

  /** The route's own `OPTIONS` export answers as the wrapped GET handler's
      CORS stage would, without touching the rate-limit store. */
  lemma CountPreflightMatchesGate(store: map<string, RateRecord>, request: Request, now: int)
    requires request.verb == "OPTIONS"
    ensures GateResponse(store, CountOptions, request, now) == Some(CountPreflight())
    ensures GateStore(store, CountOptions, request, now) == store
  {
    PreflightFirst(store, CountOptions, request, now);
  }
}
