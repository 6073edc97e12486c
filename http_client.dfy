/**
 * `fetchJson`: a JSON fetch with an in-memory TTL response cache and a retry policy for
 * GET requests. The network is an oracle `network(attempt)` saying what the `attempt`-th
 * call of `fetch` produced; the clock is the `now` parameter for the cache checks, and the
 * end time reported with each response.
 */
module HttpClient {
  import opened Wrappers
  import Text
  import Metrics

  const DEFAULT_RETRIES: int := 2
  const DEFAULT_RETRY_BASE_MS: int := 250
  const DEFAULT_CACHE_TTL_MS: int := 0
  const TIMING_NAME: string := "external.http"

  /** A decoded body; `EmptyObject` is the `{}` used when there is none or it does not parse. */
  datatype Data = EmptyObject | Json(text: string)

  /** The `options` argument; a `None` field falls back to its default. */
  datatype Options = Options(retries: Option<int>, retryBaseMs: Option<int>, cacheTtlMs: Option<int>,
                             verb: Option<string>)

  /** One call of `fetch`: a response with its status, its parsed body, the milliseconds the
      attempt took and the clock when it ended; or a thrown error. */
  datatype Outcome =
    | Responded(status: int, data: Data, elapsedMs: int, doneAt: int)
    | Threw(message: string)

  datatype FetchResult = FetchResult(ok: bool, status: int, data: Data, cached: bool, error: Option<string>)

  datatype CacheEntry = CacheEntry(expiresAt: int, value: Data)

  /** `response.ok`. */
  predicate ResponseOk(status: int) {
    200 <= status <= 299
  }

  /** `(init.method ?? "GET").toUpperCase()`. */
  function MethodOf(opts: Options): string {
    Text.ToUpper(opts.verb.GetOr("GET"))
  }

  /** The cache key `${method}:${url}`. */
  function CacheKey(verb: string, url: string): (key: string)
    ensures |key| == |verb| + 1 + |url|
    ensures key[..|verb|] == verb && key[|verb|] == ':' && key[|verb| + 1..] == url
  {
    verb + ":" + url
  }

  /** The same method with different URLs never shares a cache entry, and a method's spelling
      in any ASCII case maps to one entry. */
  lemma CacheKeysSeparateUrls(opts1: Options, opts2: Options, url1: string, url2: string)
    requires MethodOf(opts1) == MethodOf(opts2)
    ensures CacheKey(MethodOf(opts1), url1) == CacheKey(MethodOf(opts2), url2) <==> url1 == url2
  {
    var m := MethodOf(opts1);
    if CacheKey(m, url1) == CacheKey(m, url2) {
      assert url1 == CacheKey(m, url1)[|m| + 1..];
    }
  }

  // ---- cache ----

  /** What `pruneCache(now)` leaves: exactly the entries that expire after `now`. */
  function Pruned(cache: map<string, CacheEntry>, now: int): (p: map<string, CacheEntry>)
    ensures forall k :: k in p <==> k in cache && cache[k].expiresAt > now
    ensures forall k | k in p :: p[k] == cache[k]
  {
    map k | k in cache && cache[k].expiresAt > now :: cache[k]
  }

  /** The cache answers the request: caching is on and the entry has not expired. */
  predicate Hit(cache: map<string, CacheEntry>, ttl: int, key: string, now: int) {
    ttl > 0 && key in cache && cache[key].expiresAt > now
  }

  // ---- retry policy ----

  /** Attempt `attempt` is followed by another one: only GET retries, only before the last
      permitted attempt, and only after a thrown error or a 5xx response. */
  predicate Retryable(o: Outcome, attempt: nat, allowRetry: bool, retries: int) {
    allowRetry && attempt < retries && (o.Threw? || (!ResponseOk(o.status) && o.status >= 500))
  }

  /** The attempt whose outcome is returned, counting from attempt `k`. */
  function LastAttempt(network: nat -> Outcome, allowRetry: bool, retries: int, k: nat): (last: nat)
    requires k <= retries
    ensures k <= last <= retries
    ensures forall j | k <= j < last :: Retryable(network(j), j, allowRetry, retries)
    ensures !Retryable(network(last), last, allowRetry, retries)
    decreases retries - k
  {
    if Retryable(network(k), k, allowRetry, retries) then LastAttempt(network, allowRetry, retries, k + 1)
    else k
  }

  /** The attempt that stops the loop is the first one that may not be retried. */
  lemma {:induction false} LastAttemptIs(network: nat -> Outcome, allowRetry: bool, retries: int, k: nat, a: nat)
    requires k <= a <= retries
    requires forall j | k <= j < a :: Retryable(network(j), j, allowRetry, retries)
    requires !Retryable(network(a), a, allowRetry, retries)
    ensures LastAttempt(network, allowRetry, retries, k) == a
    decreases a - k
  {
    if k < a {
      LastAttemptIs(network, allowRetry, retries, k + 1, a);
    }
  }

  /** How many times `fetch` is called. */
  function AttemptCount(network: nat -> Outcome, allowRetry: bool, retries: int): (n: nat)
    ensures retries < 0 ==> n == 0
    ensures retries >= 0 ==> 1 <= n <= retries + 1
    ensures retries >= 0 && !allowRetry ==> n == 1
  {
    if retries < 0 then 0 else LastAttempt(network, allowRetry, retries, 0) + 1
  }

  /** The result built from the outcome of the last attempt. */
  function Final(o: Outcome): (r: FetchResult)
    ensures !r.cached
    ensures r.ok <==> o.Responded? && ResponseOk(o.status)
    ensures o.Threw? ==> r == FetchResult(false, 0, EmptyObject, false, Some(o.message))
    ensures o.Responded? ==> r.status == o.status && r.data == o.data && r.error.None?
  {
    match o
    case Responded(status, data, _, _) => FetchResult(ResponseOk(status), status, data, false, None)
    case Threw(message) => FetchResult(false, 0, EmptyObject, false, Some(message))
  }

  /** The result of the attempt loop. */
  function LoopResult(network: nat -> Outcome, allowRetry: bool, retries: int): (r: FetchResult)
    ensures retries < 0 ==> r == FetchResult(false, 0, EmptyObject, false, None)
    ensures retries >= 0 ==> r == Final(network(AttemptCount(network, allowRetry, retries) - 1))
  {
    if retries < 0 then FetchResult(false, 0, EmptyObject, false, None)
    else Final(network(LastAttempt(network, allowRetry, retries, 0)))
  }

  /** The sleeps between the first `n` attempts: `retryBaseMs * (k + 1)` after attempt `k`. */
  function Delays(retryBaseMs: int, n: nat): (d: seq<int>)
    ensures |d| == n
    ensures forall k | 0 <= k < n :: d[k] == retryBaseMs * (k + 1)
  {
    if n == 0 then [] else Delays(retryBaseMs, n - 1) + [retryBaseMs * n]
  }

  /** The attempts among the first `n` that produced a response, and their total duration. */
  function Responses(network: nat -> Outcome, n: nat): (c: nat)
    ensures c <= n
  {
    if n == 0 then 0 else Responses(network, n - 1) + (if network(n - 1).Responded? then 1 else 0)
  }

  function ElapsedTotal(network: nat -> Outcome, n: nat): int {
    if n == 0 then 0
    else ElapsedTotal(network, n - 1) + (if network(n - 1).Responded? then network(n - 1).elapsedMs else 0)
  }

  /** The `external.http` timer after the samples of the first `n` attempts. */
  function TimerAfter(t: Metrics.Timer, network: nat -> Outcome, n: nat): Metrics.Timer {
    Metrics.Timer(t.count + Responses(network, n), t.totalMs + ElapsedTotal(network, n))
  }

  /** The cache after a miss: a successful response is stored for `ttl` milliseconds from the
      end of its attempt when caching is on; nothing else is. */
  function StoreIfOk(cache: map<string, CacheEntry>, key: string, ttl: int, r: FetchResult,
                     network: nat -> Outcome, attempts: nat): (c: map<string, CacheEntry>)
    ensures !(r.ok && ttl > 0 && attempts > 0 && network(attempts - 1).Responded?) ==> c == cache
    ensures r.ok && ttl > 0 && attempts > 0 && network(attempts - 1).Responded? ==>
      c == cache[key := CacheEntry(network(attempts - 1).doneAt + ttl, r.data)]
  {
    if r.ok && ttl > 0 && attempts > 0 && network(attempts - 1).Responded? then
      cache[key := CacheEntry(network(attempts - 1).doneAt + ttl, r.data)]
    else cache
  }

  /** Every attempt before the returned one failed in a retryable way, so the returned
      result never hides a success or a 4xx answer. */
  lemma RetriedOnlyAfterServerErrors(network: nat -> Outcome, allowRetry: bool, retries: int, j: nat)
    requires j + 1 < AttemptCount(network, allowRetry, retries)
    ensures allowRetry
    ensures network(j).Threw? || (network(j).status >= 500 && !ResponseOk(network(j).status))
  {
  }

  /** A GET whose every attempt throws: all permitted attempts are made and the last
      error is returned with status 0. */
  lemma AllThrowsExhaustRetries(network: nat -> Outcome, retries: int, message: string)
    requires retries >= 0
    requires forall k :: network(k) == Threw(message)
    ensures AttemptCount(network, true, retries) == retries + 1
    ensures LoopResult(network, true, retries) == FetchResult(false, 0, EmptyObject, false, Some(message))
  {
    forall j | 0 <= j < retries
      ensures Retryable(network(j), j, true, retries)
    {
    }
    LastAttemptIs(network, true, retries, 0, retries);
  }

  /** A stored success answers the same request until it expires. */
  lemma StoredSuccessHits(cache: map<string, CacheEntry>, key: string, ttl: int, r: FetchResult,
                          network: nat -> Outcome, attempts: nat, later: int)
    requires r.ok && ttl > 0 && attempts > 0 && network(attempts - 1).Responded?
    requires later < network(attempts - 1).doneAt + ttl
    ensures Hit(StoreIfOk(cache, key, ttl, r, network, attempts), ttl, key, later)
    ensures StoreIfOk(cache, key, ttl, r, network, attempts)[key].value == r.data
  {
  }

  /** The module-level response cache. */
  class Client {
    var cache: map<string, CacheEntry>

    constructor ()
      ensures cache == map[]
    {
      cache := map[];
    }

    /** `pruneCache(now)`: one pass over the entries, deleting the expired ones. */
    method Prune(now: int)
      modifies this
      ensures cache == Pruned(old(cache), now)
    {
      var pending := cache.Keys;
      while pending != {}
        invariant pending <= old(cache).Keys
        invariant forall k :: k in cache <==> k in old(cache) && (k in pending || old(cache)[k].expiresAt > now)
        invariant forall k | k in cache :: cache[k] == old(cache)[k]
        decreases pending
      {
        var k :| k in pending;
        if cache[k].expiresAt <= now {
          cache := cache - {k};
        }
        pending := pending - {k};
      }
      assert cache == Pruned(old(cache), now);
    }

    /** `fetchJson(url, options)`. `attempts` counts the calls of `fetch`, `delays` the
        sleeps between them; each response adds one `external.http` timing sample. */
    method FetchJson(url: string, opts: Options, now: int, network: nat -> Outcome, metrics: Metrics.Registry)
      returns (r: FetchResult, attempts: nat, delays: seq<int>)
      modifies this, metrics
      ensures var ttl := opts.cacheTtlMs.GetOr(DEFAULT_CACHE_TTL_MS);
        var key := CacheKey(MethodOf(opts), url);
        Hit(old(cache), ttl, key, now) ==>
          && r == FetchResult(true, 200, old(cache)[key].value, true, None)
          && attempts == 0 && delays == []
          && cache == Pruned(old(cache), now)
          && metrics.timers == old(metrics.timers)
      ensures var ttl := opts.cacheTtlMs.GetOr(DEFAULT_CACHE_TTL_MS);
        var retries := opts.retries.GetOr(DEFAULT_RETRIES);
        var key := CacheKey(MethodOf(opts), url);
        var allowRetry := MethodOf(opts) == "GET";
        !Hit(old(cache), ttl, key, now) ==>
          && r == LoopResult(network, allowRetry, retries)
          && attempts == AttemptCount(network, allowRetry, retries)
          && delays == Delays(opts.retryBaseMs.GetOr(DEFAULT_RETRY_BASE_MS), if attempts == 0 then 0 else attempts - 1)
          && cache == StoreIfOk(if ttl > 0 then Pruned(old(cache), now) else old(cache), key, ttl, r, network, attempts)
          && TimersAfter(metrics.timers, old(metrics.timers), network, attempts)
      ensures metrics.counters == old(metrics.counters)
    {
      var ttl := opts.cacheTtlMs.GetOr(DEFAULT_CACHE_TTL_MS);
      var retries := opts.retries.GetOr(DEFAULT_RETRIES);
      var retryBaseMs := opts.retryBaseMs.GetOr(DEFAULT_RETRY_BASE_MS);
      var verb := MethodOf(opts);
      var key := CacheKey(verb, url);
      if ttl > 0 {
        Prune(now);
        if key in cache && cache[key].expiresAt > now {
          r := FetchResult(true, 200, cache[key].value, true, None);
          attempts, delays := 0, [];
          return;
        }
      }
      r, attempts, delays := Attempts(network, verb == "GET", retries, retryBaseMs, metrics);
      if r.ok && ttl > 0 {
        cache := cache[key := CacheEntry(network(attempts - 1).doneAt + ttl, r.data)];
      }
    }
  }

  /** The timers after the samples of the first `n` attempts: the `external.http` timer has
      gained them and no other timer moved. */
  predicate TimersAfter(timers: map<string, Metrics.Timer>, before: map<string, Metrics.Timer>,
                        network: nat -> Outcome, n: nat) {
    && Metrics.TimerOrEmpty(timers, TIMING_NAME) == TimerAfter(Metrics.TimerOrEmpty(before, TIMING_NAME), network, n)
    && (Responses(network, n) > 0 ==> TIMING_NAME in timers)
    && timers - {TIMING_NAME} == before - {TIMING_NAME}
  }

  /** One more attempt: its sample, if it responded, is added to the timer. */
  lemma TimersStep(before: map<string, Metrics.Timer>, timers: map<string, Metrics.Timer>,
                   after: map<string, Metrics.Timer>, network: nat -> Outcome, n: nat)
    requires TimersAfter(timers, before, network, n)
    requires !network(n).Responded? ==> after == timers
    requires network(n).Responded? ==>
      && TIMING_NAME in after
      && after[TIMING_NAME].count == Metrics.TimerOrEmpty(timers, TIMING_NAME).count + 1
      && after[TIMING_NAME].totalMs == Metrics.TimerOrEmpty(timers, TIMING_NAME).totalMs + network(n).elapsedMs
      && after == timers[TIMING_NAME := after[TIMING_NAME]]
    ensures TimersAfter(after, before, network, n + 1)
  {
  }

  /** The attempt loop of `fetchJson`. */
  method Attempts(network: nat -> Outcome, allowRetry: bool, retries: int, retryBaseMs: int, metrics: Metrics.Registry)
    returns (r: FetchResult, attempts: nat, delays: seq<int>)
    modifies metrics
    ensures r == LoopResult(network, allowRetry, retries)
    ensures attempts == AttemptCount(network, allowRetry, retries)
    ensures r.ok ==> attempts > 0 && network(attempts - 1).Responded?
    ensures delays == Delays(retryBaseMs, if attempts == 0 then 0 else attempts - 1)
    ensures TimersAfter(metrics.timers, old(metrics.timers), network, attempts)
    ensures metrics.counters == old(metrics.counters)
  {
    delays := [];
    var attempt: nat := 0;
    while attempt <= retries
      invariant retries >= 0 ==> attempt <= retries
      invariant retries < 0 ==> attempt == 0
      invariant forall j | 0 <= j < attempt :: Retryable(network(j), j, allowRetry, retries)
      invariant delays == Delays(retryBaseMs, attempt)
      invariant TimersAfter(metrics.timers, old(metrics.timers), network, attempt)
      invariant metrics.counters == old(metrics.counters)
      decreases retries - attempt
    {
      var o := network(attempt);
      ghost var timers := metrics.timers;
      if o.Responded? {
        metrics.Timing(TIMING_NAME, o.elapsedMs);
      }
      TimersStep(old(metrics.timers), timers, metrics.timers, network, attempt);
      if !Retryable(o, attempt, allowRetry, retries) {
        break;
      }
      delays := delays + [retryBaseMs * (attempt + 1)];
      attempt := attempt + 1;
    }
    if attempt <= retries {
      // the loop stopped at an attempt that may not be retried
      var o := network(attempt);
      LastAttemptIs(network, allowRetry, retries, 0, attempt);
      if o.Responded? {
        r := FetchResult(ResponseOk(o.status), o.status, o.data, false, None);
      } else {
        r := FetchResult(false, 0, EmptyObject, false, Some(o.message));
      }
      attempts := attempt + 1;
    } else {
      r := FetchResult(false, 0, EmptyObject, false, None);
      attempts := 0;
    }
  }

  /** A GET against an unreachable host with the default policy: three attempts, sleeps of
      250 and 500 ms, and `ok: false` with the error message. */
  method OfflineExample(metrics: Metrics.Registry)
    modifies metrics
  {
    var client := new Client();
    var network := (k: nat) => Threw("offline");
    var opts := Options(None, None, None, None);
    AllThrowsExhaustRetries(network, DEFAULT_RETRIES, "offline");
    assert MethodOf(opts) == "GET";
    var r, attempts, delays := client.FetchJson("https://example.com", opts, 0, network, metrics);
    assert !r.ok && r.status == 0 && r.error == Some("offline");
    assert attempts == 3;
    assert delays == [250, 500];
  }
}
