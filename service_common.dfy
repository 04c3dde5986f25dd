/**
  What the three verification services share: the argument a caller passes,
  the configuration the services read at construction, the clock readings a
  rate-limited request consumes, the cache key of a verification, the
  messages of the failures every service reports the same way, and the
  report `get_cache_stats` returns.
 */
module ServiceCommon {
  import opened Base
  import opened SimpleCacheModel
  import RateLimit

  // ---------------------------------------------------------------- the caller's argument

  /** The number a caller passes in: a Python `str`, or any other value. */
  datatype Arg = Str(s: string) | NotStr

  /** `if not number or not isinstance(number, str)` lets the call through: a non-empty string. */
  predicate ValidArg(a: Arg)
  {
    a.Str? && a.s != ""
  }

  // ---------------------------------------------------------------- configuration

  /**
    The settings the services read from the environment when they are
    constructed: `CACHE_ENABLED`, `RATE_LIMIT_DELAY`, `CACHE_TTL` and
    `CACHE_MAX_SIZE`.
   */
  datatype Settings = Settings(cacheEnabled: bool, rateLimitDelay: real, cacheTtl: int, cacheMaxSize: int)

  /** The values used when the environment sets none of them. */
  const DefaultSettings: Settings := Settings(true, 1.5, 3600, 1000)

  /** The testing configuration: no cache, no delay. */
  const TestingSettings: Settings := Settings(false, 0.0, 3600, 1000)

  /** `use_cache and Config.CACHE_ENABLED`: caching needs both the caller and the configuration. */
  function ServiceCaching(cfg: Settings, useCache: bool): bool
  {
    useCache && cfg.cacheEnabled
  }

  /** The entry lifetime: the constructor's `cache_ttl`, or the configured one when it is None. */
  function ServiceTtl(cfg: Settings, cacheTtl: Option<int>): int
  {
    if cacheTtl.Some? then cacheTtl.value else cfg.cacheTtl
  }

  /** The rate limiter's delay: the constructor's `rate_limit_delay` unless None (0.0 counts as given). */
  function ServiceDelay(cfg: Settings, delay: Option<real>): real
  {
    if delay.Some? then delay.value else cfg.rateLimitDelay
  }

  // ---------------------------------------------------------------- the clock

  /**
    The readings one `rate_limiter.wait()` consumes: the clock before it, the
    random jitter, and how much later than asked the sleep ended.
   */
  datatype Tick = Tick(now: real, jitter: real, overshoot: real)

  predicate TickOk(t: Tick)
  {
    0.0 <= t.jitter <= RateLimit.JitterMax && t.overshoot >= 0.0
  }

  // ---------------------------------------------------------------- the cache key

  const KeyPrefix: string := "detailed:"

  /** The key a verification is cached under. */
  function CacheKey(id: string): (r: string)
    ensures |r| == |KeyPrefix| + |id| && r[..|KeyPrefix|] == KeyPrefix && r[|KeyPrefix|..] == id
  {
    KeyPrefix + id
  }

  /** Different numbers never share a cache entry; in particular the key keeps case. */
  lemma {:induction false} CacheKeyInjective(a: string, b: string)
    ensures CacheKey(a) == CacheKey(b) <==> a == b
  {
    if CacheKey(a) == CacheKey(b) {
      assert a == CacheKey(a)[|KeyPrefix|..];
    }
  }

  // ---------------------------------------------------------------- shared messages

  /** The message of a failed search request, carrying the exception's text. */
  function ConnectFailed(error: string): string
  {
    "Failed to connect to PPB portal: " + error
  }

  /** The message of any exception the service does not raise itself. */
  function UnexpectedError(error: string): string
  {
    "Unexpected error: " + error
  }

  /** The text of the `KeyError` raised by evicting from an empty cache. */
  const DictionaryEmpty: string := "'dictionary is empty'"

  // ---------------------------------------------------------------- cache statistics

  /** What `get_cache_stats` returns: `{"cache_enabled": False}`, or the cache's statistics. */
  datatype CacheReport = CacheDisabled | CacheEnabled(stats: CacheStats)
}
