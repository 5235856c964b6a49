/** The configuration of the view counter: the deduplication cookie, the cache, the KV keys,
    the retry policy and the values shown when KV is missing or failing. */
module KvConstants {

  const DedupCookieName: string := "pv_seen"

  /** 24 hours, in milliseconds. */
  const DedupWindowMs: int := 24 * 60 * 60 * 1000

  const MaxTrackedProfiles: int := 50

  /** Used by the cache module, whose code is not part of this model. */
  const CacheTtlSeconds: int := 600
  const CacheKeyPrefix: string := "https://kv-cache/_/views/"
  const StaleCacheMaxAgeMs: int := 60 * 60 * 1000

  const GlobalViewKey: string := "global:total_portfolios"

  /** The retry policy of a KV read: how many retries after the first attempt, the first delay,
      and the factor each later delay grows by. */
  datatype RetryOptions = RetryOptions(maxRetries: int, retryDelayMs: int, backoffMultiplier: int)

  const DefaultRetryOptions: RetryOptions := RetryOptions(1, 50, 2)

  /** What a visitor sees when there is no KV binding (local development). */
  const DevProfileViews: int := 42
  const DevGlobalViews: int := 1234

  /** What a visitor sees when KV cannot be read: the visitor's own view. */
  const FallbackViewCount: int := 1
}
