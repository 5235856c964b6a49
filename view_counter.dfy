/** The page-view counter over Workers KV and the edge cache: the rate-limit retry of a KV read
    (`kvReadWithRetry`), the cache → KV → stale cache → fallback chain (`getViewCount`), the
    counted view with its cookie and IP deduplication (`handleProfileView`) and the homepage
    total (`getGlobalViewCount`). The KV namespace, the cache and the clock are parameters: each
    read is given by its outcome, and each write is recorded in an effect log. */
module ViewCounter {
  import opened Wrappers
  import opened Js
  import opened Strings
  import opened KvConstants
  import opened Deduplication

  // ---------------------------------------------------------------- the storage the counter sees

  /** What the platform provides: the KV binding and the edge cache, each possibly missing. */
  datatype Platform = Platform(hasKV: bool, hasCaches: bool)

  /** One `kv.get`: the stored value (null when absent) or a thrown error. */
  datatype KvRead = KvValue(value: Option<string>) | KvThrows(error: Thrown)

  /** One `getCachedCount`: a thrown error, no entry, or an entry with its count and whether it
      is past its lifetime (`isCacheExpired`) or past the stale limit (`isCacheTooStale`). */
  datatype CacheRead = CacheThrows | CacheMiss | CacheHit(count: JsNumber, expired: bool, tooStale: bool)

  /** The reads one `getViewCount` may make: the first cache read, the KV reads by attempt number,
      and the second cache read made after KV failed. */
  datatype ViewIo = ViewIo(firstCache: CacheRead, kv: nat -> KvRead, staleCache: CacheRead)

  /** Everything the counter does to the outside world, in order. */
  datatype Effect =
    | CacheGet(cacheKey: string)
    | CachePut(cacheKey: string, count: JsNumber, cachedAt: int)
    | KvGet(key: string)
    | KvPut(key: string, value: string, expirationTtl: Option<int>)
    | Sleep(ms: int)

  /** The number of KV reads in a log. */
  function KvReads(log: seq<Effect>): nat {
    if log == [] then 0 else (if log[0].KvGet? then 1 else 0) + KvReads(log[1..])
  }

  /** The back-off delays of a log, in order. */
  function Sleeps(log: seq<Effect>): seq<int> {
    if log == [] then [] else (if log[0].Sleep? then [log[0].ms] else []) + Sleeps(log[1..])
  }

  /** Whether a log writes to KV under `key`. */
  predicate WritesKey(log: seq<Effect>, key: string) {
    exists i :: 0 <= i < |log| && log[i].KvPut? && log[i].key == key
  }

  // ---------------------------------------------------------------- kvReadWithRetry

  /** `isRateLimitError`: an Error whose lower-cased message mentions 429, a rate limit or too
      many requests; any other thrown value is not. */
  predicate IsRateLimitError(e: Thrown) {
    match e
    case ErrorObject(m) =>
      var msg := ToLower(m);
      Contains(msg, "429") || Contains(msg, "rate limit") || Contains(msg, "too many")
    case NonError => false
  }

  /** The test ignores letter case. */
  lemma RateLimitIgnoresCase(m: string)
    ensures IsRateLimitError(ErrorObject(m)) == IsRateLimitError(ErrorObject(ToLower(m)))
  {
    ToLowerIdempotent(m);
  }

  /** The message KV's binding gives a throttled read is recognised, whatever its case. */
  lemma TooManyRequestsIsRateLimit(m: string)
    ensures ToLower(m) == "too many requests" ==> IsRateLimitError(ErrorObject(m))
    ensures IsRateLimitError(ErrorObject("Too Many Requests"))
    ensures !IsRateLimitError(NonError)
  {
    var msg := ToLower("Too Many Requests");
    assert msg == "too many requests";
    assert StartsWith(msg, "too many");
    if ToLower(m) == "too many requests" {
      assert StartsWith(ToLower(m), "too many");
    }
  }

  /** `Math.pow(base, exp)` for a natural exponent. */
  function Pow(base: int, exp: nat): int {
    if exp == 0 then 1 else base * Pow(base, exp - 1)
  }

  /** The wait after the failed attempt number `attempt`. */
  function Delay(opts: RetryOptions, attempt: nat): int {
    opts.retryDelayMs * Pow(opts.backoffMultiplier, attempt)
  }

  datatype RetryOutcome = Returned(value: Option<string>) | Rethrown(error: Thrown)

  datatype RetryRun = RetryRun(outcome: RetryOutcome, log: seq<Effect>)

  /** The reads from attempt `attempt` on: a value is returned; an error is rethrown unless it is
      a rate limit with retries left, in which case the read is repeated after a delay. With no
      attempt at all (a negative retry count) the initial `null` is thrown. */
  function RetryFrom(opts: RetryOptions, kv: nat -> KvRead, key: string, attempt: nat): RetryRun
    decreases if opts.maxRetries < attempt then 0 else opts.maxRetries - attempt + 1
  {
    if attempt > opts.maxRetries then RetryRun(Rethrown(NonError), [])
    else
      match kv(attempt)
      case KvValue(v) => RetryRun(Returned(v), [KvGet(key)])
      case KvThrows(e) =>
        if !IsRateLimitError(e) || attempt == opts.maxRetries then RetryRun(Rethrown(e), [KvGet(key)])
        else
          var rest := RetryFrom(opts, kv, key, attempt + 1);
          RetryRun(rest.outcome, [KvGet(key), Sleep(Delay(opts, attempt))] + rest.log)
  }

  /** `kvReadWithRetry`, with `kv(attempt)` the outcome of the read made at that attempt. */
  method KvReadWithRetry(opts: RetryOptions, kv: nat -> KvRead, key: string) returns (run: RetryRun)
    ensures run == RetryFrom(opts, kv, key, 0)
  {
    ghost var total := RetryFrom(opts, kv, key, 0);
    var lastError: Thrown := NonError;
    var log: seq<Effect> := [];
    var attempt: nat := 0;
    while attempt <= opts.maxRetries
      invariant attempt == 0 || attempt <= opts.maxRetries
      invariant attempt == 0 ==> lastError == NonError && log == []
      invariant total.outcome == RetryFrom(opts, kv, key, attempt).outcome
      invariant total.log == log + RetryFrom(opts, kv, key, attempt).log
      decreases opts.maxRetries - attempt
    {
      ghost var here := RetryFrom(opts, kv, key, attempt);
      ghost var before := log;
      log := log + [KvGet(key)];
      match kv(attempt) {
        case KvValue(v) =>
          assert here == RetryRun(Returned(v), [KvGet(key)]);
          return RetryRun(Returned(v), log);
        case KvThrows(e) =>
          lastError := e;
          if !IsRateLimitError(e) || attempt == opts.maxRetries {
            assert here == RetryRun(Rethrown(e), [KvGet(key)]);
            return RetryRun(Rethrown(e), log);
          }
          ghost var rest := RetryFrom(opts, kv, key, attempt + 1);
          assert here == RetryRun(rest.outcome, [KvGet(key), Sleep(Delay(opts, attempt))] + rest.log);
          log := log + [Sleep(Delay(opts, attempt))];
          AppendStep(before, KvGet(key), Sleep(Delay(opts, attempt)), rest.log);
      }
      attempt := attempt + 1;
    }
    return RetryRun(Rethrown(lastError), log);
  }

  lemma AppendStep(before: seq<Effect>, x: Effect, y: Effect, rest: seq<Effect>)
    ensures before + [x] + [y] + rest == before + ([x, y] + rest)
  {
  }

  /** A run from attempt `a`: between one and the remaining number of reads, one delay between
      each two reads, the delays growing by the back-off factor, and every read of `key`. */
  predicate RetryShaped(run: RetryRun, opts: RetryOptions, key: string, a: nat) {
    && 1 <= KvReads(run.log) <= opts.maxRetries - a + 1
    && |Sleeps(run.log)| == KvReads(run.log) - 1
    && (forall k :: 0 <= k < |Sleeps(run.log)| ==> Sleeps(run.log)[k] == Delay(opts, a + k))
    && (forall i :: 0 <= i < |run.log| && run.log[i].KvGet? ==> run.log[i].key == key)
  }

  /** How a retry step's log counts: one read and one delay in front of the rest. */
  lemma StepLog(key: string, d: int, rest: seq<Effect>)
    ensures KvReads([KvGet(key), Sleep(d)] + rest) == 1 + KvReads(rest)
    ensures Sleeps([KvGet(key), Sleep(d)] + rest) == [d] + Sleeps(rest)
  {
    var log := [KvGet(key), Sleep(d)] + rest;
    assert log[1..] == [Sleep(d)] + rest;
    assert log[1..][1..] == rest;
  }

  /** A one-read log. */
  lemma SingleLog(key: string)
    ensures KvReads([KvGet(key)]) == 1 && Sleeps([KvGet(key)]) == []
  {
    assert [KvGet(key)][1..] == [];
  }

  lemma {:induction false} RetryCounts(opts: RetryOptions, kv: nat -> KvRead, key: string, a: nat)
    requires a <= opts.maxRetries
    ensures 1 <= KvReads(RetryFrom(opts, kv, key, a).log) <= opts.maxRetries - a + 1
    ensures |Sleeps(RetryFrom(opts, kv, key, a).log)| == KvReads(RetryFrom(opts, kv, key, a).log) - 1
    ensures forall k :: 0 <= k < |Sleeps(RetryFrom(opts, kv, key, a).log)| ==>
      Sleeps(RetryFrom(opts, kv, key, a).log)[k] == Delay(opts, a + k)
    decreases opts.maxRetries - a
  {
    if kv(a).KvThrows? && IsRateLimitError(kv(a).error) && a != opts.maxRetries {
      var rest := RetryFrom(opts, kv, key, a + 1);
      RetryCounts(opts, kv, key, a + 1);
      assert RetryFrom(opts, kv, key, a).log == [KvGet(key), Sleep(Delay(opts, a))] + rest.log;
      StepLog(key, Delay(opts, a), rest.log);
    } else {
      assert RetryFrom(opts, kv, key, a).log == [KvGet(key)];
      SingleLog(key);
    }
  }

  lemma {:induction false} RetryKeys(opts: RetryOptions, kv: nat -> KvRead, key: string, a: nat)
    ensures forall i :: 0 <= i < |RetryFrom(opts, kv, key, a).log| && RetryFrom(opts, kv, key, a).log[i].KvGet? ==>
      RetryFrom(opts, kv, key, a).log[i].key == key
    decreases if opts.maxRetries < a then 0 else opts.maxRetries - a + 1
  {
    if a <= opts.maxRetries && kv(a).KvThrows? && IsRateLimitError(kv(a).error) && a != opts.maxRetries {
      RetryKeys(opts, kv, key, a + 1);
      var rest := RetryFrom(opts, kv, key, a + 1);
      assert forall i :: 2 <= i < |RetryFrom(opts, kv, key, a).log| ==> RetryFrom(opts, kv, key, a).log[i] == rest.log[i - 2];
    }
  }

  lemma RetryShape(opts: RetryOptions, kv: nat -> KvRead, key: string, a: nat)
    requires a <= opts.maxRetries
    ensures RetryShaped(RetryFrom(opts, kv, key, a), opts, key, a)
  {
    RetryCounts(opts, kv, key, a);
    RetryKeys(opts, kv, key, a);
  }

  /** At most `maxRetries + 1` reads, with delays `retryDelayMs * multiplier^k` between them. */
  lemma RetryBounded(opts: RetryOptions, kv: nat -> KvRead, key: string)
    requires opts.maxRetries >= 0
    ensures RetryShaped(RetryFrom(opts, kv, key, 0), opts, key, 0)
  {
    RetryShape(opts, kv, key, 0);
  }

  /** With the default options: at most two reads, and 50 ms between them. */
  lemma DefaultRetryAtMostTwoReads(kv: nat -> KvRead, key: string)
    ensures var run := RetryFrom(DefaultRetryOptions, kv, key, 0);
      1 <= KvReads(run.log) <= 2 && (forall k :: 0 <= k < |Sleeps(run.log)| ==> Sleeps(run.log)[k] == 50)
  {
    RetryShape(DefaultRetryOptions, kv, key, 0);
    assert Delay(DefaultRetryOptions, 0) == 50;
  }

  /** The outcome is decided by the first read that returns, fails with something other than a
      rate limit, or is the last attempt allowed; it takes exactly that many reads. */
  lemma {:induction false} RetryDecidedAt(opts: RetryOptions, kv: nat -> KvRead, key: string, a: nat, k: nat)
    requires a <= k <= opts.maxRetries
    requires forall j :: a <= j < k ==> kv(j).KvThrows? && IsRateLimitError(kv(j).error)
    requires kv(k).KvValue? || !IsRateLimitError(kv(k).error) || k == opts.maxRetries
    ensures RetryFrom(opts, kv, key, a).outcome == (if kv(k).KvValue? then Returned(kv(k).value) else Rethrown(kv(k).error))
    ensures KvReads(RetryFrom(opts, kv, key, a).log) == k - a + 1
    decreases k - a
  {
    if a < k {
      RetryDecidedAt(opts, kv, key, a + 1, k);
      var rest := RetryFrom(opts, kv, key, a + 1);
      assert RetryFrom(opts, kv, key, a).log == [KvGet(key), Sleep(Delay(opts, a))] + rest.log;
      StepLog(key, Delay(opts, a), rest.log);
    } else {
      assert RetryFrom(opts, kv, key, a).log == [KvGet(key)];
      SingleLog(key);
    }
  }

  /** An error that is not a rate limit is rethrown at once, after a single read. */
  lemma RetryRethrowsAtOnce(opts: RetryOptions, kv: nat -> KvRead, key: string)
    requires opts.maxRetries >= 0
    requires kv(0).KvThrows? && !IsRateLimitError(kv(0).error)
    ensures RetryFrom(opts, kv, key, 0) == RetryRun(Rethrown(kv(0).error), [KvGet(key)])
  {
  }

  // ---------------------------------------------------------------- getViewCount

  datatype Source = CacheSource | KvSource | FallbackSource

  datatype ViewCount = ViewCount(count: JsNumber, isStale: bool, source: Source)

  datatype ViewRead = ViewRead(result: ViewCount, log: seq<Effect>)

  const FallbackCount: ViewCount := ViewCount(Int(FallbackViewCount), false, FallbackSource)

  /** `value ? parseInt(value, 10) : 0` */
  function StoredCount(value: Option<string>): JsNumber {
    if value.None? || value.value == [] then Int(0) else ParseIntNumber(value.value)
  }

  /** A read of the cache when there is one. */
  function CacheLog(p: Platform, cacheKey: string): seq<Effect> {
    if p.hasCaches then [CacheGet(cacheKey)] else []
  }

  /** What follows a cache miss when KV is bound: the retried KV read, then either the cache
      write of the value read or, after a failure, the read of a stale cache entry. */
  function KvStage(p: Platform, key: string, cacheKey: string, io: ViewIo, nowMs: int): ViewRead {
    var run := RetryFrom(DefaultRetryOptions, io.kv, key, 0);
    match run.outcome
    case Returned(v) =>
      var count := StoredCount(v);
      ViewRead(ViewCount(count, false, KvSource),
               run.log + (if p.hasCaches then [CachePut(cacheKey, count, nowMs)] else []))
    case Rethrown(_) =>
      if p.hasCaches && io.staleCache.CacheHit? && !io.staleCache.tooStale then
        ViewRead(ViewCount(io.staleCache.count, true, CacheSource), run.log + CacheLog(p, cacheKey))
      else ViewRead(FallbackCount, run.log + CacheLog(p, cacheKey))
  }

  /** `getViewCount`: a fresh cache entry, else a KV read (cached again in the background), else a
      stale cache entry that is not too old, else the fallback of one view. It never throws. */
  function GetViewCount(p: Platform, key: string, cacheKey: string, io: ViewIo, nowMs: int): ViewRead {
    if p.hasCaches && io.firstCache.CacheHit? && !io.firstCache.expired then
      ViewRead(ViewCount(io.firstCache.count, false, CacheSource), CacheLog(p, cacheKey))
    else if !p.hasKV then ViewRead(FallbackCount, CacheLog(p, cacheKey))
    else
      var k := KvStage(p, key, cacheKey, io, nowMs);
      ViewRead(k.result, CacheLog(p, cacheKey) + k.log)
  }

  lemma NoKvGets(s: seq<Effect>)
    requires forall i :: 0 <= i < |s| ==> !s[i].KvGet?
    ensures KvReads(s) == 0
  {
    if s != [] {
      NoKvGets(s[1..]);
    }
  }

  /** Whether any entry in a log is a write to KV. */
  predicate HasKvPut(log: seq<Effect>) {
    exists i :: 0 <= i < |log| && log[i].KvPut?
  }

  lemma WritesKeyAppend(s: seq<Effect>, t: seq<Effect>, key: string)
    ensures WritesKey(s + t, key) <==> WritesKey(s, key) || WritesKey(t, key)
  {
    if WritesKey(s + t, key) {
      var i :| 0 <= i < |s + t| && (s + t)[i].KvPut? && (s + t)[i].key == key;
      if i < |s| { assert s[i] == (s + t)[i]; } else { assert t[i - |s|] == (s + t)[i]; }
    }
    if WritesKey(s, key) {
      var i :| 0 <= i < |s| && s[i].KvPut? && s[i].key == key;
      assert (s + t)[i] == s[i];
    }
    if WritesKey(t, key) {
      var i :| 0 <= i < |t| && t[i].KvPut? && t[i].key == key;
      assert (s + t)[|s| + i] == t[i];
    }
  }

  lemma HasKvPutAppend(s: seq<Effect>, t: seq<Effect>)
    ensures HasKvPut(s + t) <==> HasKvPut(s) || HasKvPut(t)
  {
    if HasKvPut(s + t) {
      var i :| 0 <= i < |s + t| && (s + t)[i].KvPut?;
      if i < |s| { assert s[i] == (s + t)[i]; } else { assert t[i - |s|] == (s + t)[i]; }
    }
    if HasKvPut(s) {
      var i :| 0 <= i < |s| && s[i].KvPut?;
      assert (s + t)[i] == s[i];
    }
    if HasKvPut(t) {
      var i :| 0 <= i < |t| && t[i].KvPut?;
      assert (s + t)[|s| + i] == t[i];
    }
  }

  /** The KV stage reads KV at most twice, never writes it, and ends with the cache write of the
      value read when KV answered and there is a cache. */
  lemma KvStageTraffic(p: Platform, key: string, cacheKey: string, io: ViewIo, nowMs: int)
    ensures var k := KvStage(p, key, cacheKey, io, nowMs);
      && KvReads(k.log) <= 2
      && !HasKvPut(k.log)
      && (k.result.source == KvSource <==> RetryFrom(DefaultRetryOptions, io.kv, key, 0).outcome.Returned?)
      && (k.result.source == KvSource && p.hasCaches ==> k.log[|k.log| - 1] == CachePut(cacheKey, k.result.count, nowMs))
  {
    var k := KvStage(p, key, cacheKey, io, nowMs);
    var run := RetryFrom(DefaultRetryOptions, io.kv, key, 0);
    RetryCounts(DefaultRetryOptions, io.kv, key, 0);
    RetryLogReadsOnly(DefaultRetryOptions, io.kv, key, 0);
    var tail := k.log[|run.log|..];
    assert k.log == run.log + tail;
    assert |tail| <= 1 && forall i :: 0 <= i < |tail| ==> tail[i].CachePut? || tail[i].CacheGet?;
    NoKvGets(tail);
    KvReadsAppend(run.log, tail);
    HasKvPutAppend(run.log, tail);
  }

  lemma KvReadsAppend(s: seq<Effect>, t: seq<Effect>)
    ensures KvReads(s + t) == KvReads(s) + KvReads(t)
  {
    if s != [] {
      assert (s + t)[1..] == s[1..] + t;
      KvReadsAppend(s[1..], t);
    } else {
      assert s + t == t;
    }
  }

  /** The fallback chain: a fresh cache entry is used as it is; a KV value is used as stored,
      with absence as zero; after a KV failure a stale entry that is not too old is used and
      marked stale; otherwise the count is one. A stale result always comes from the cache. */
  lemma ViewCountChain(p: Platform, key: string, cacheKey: string, io: ViewIo, nowMs: int)
    ensures var r := GetViewCount(p, key, cacheKey, io, nowMs).result;
      var run := RetryFrom(DefaultRetryOptions, io.kv, key, 0);
      var freshHit := p.hasCaches && io.firstCache.CacheHit? && !io.firstCache.expired;
      && (freshHit ==> r == ViewCount(io.firstCache.count, false, CacheSource))
      && (!freshHit && !p.hasKV ==> r == FallbackCount)
      && (!freshHit && p.hasKV && run.outcome.Returned? ==> r == ViewCount(StoredCount(run.outcome.value), false, KvSource))
      && (!freshHit && p.hasKV && run.outcome.Rethrown? ==>
            r == if p.hasCaches && io.staleCache.CacheHit? && !io.staleCache.tooStale
                 then ViewCount(io.staleCache.count, true, CacheSource) else FallbackCount)
      && (r.isStale ==> r.source == CacheSource)
  {
  }

  /** The traffic of one count: no KV read when the fresh entry is used or there is no KV, at
      most two KV reads otherwise, never a KV write, and a cache write exactly when KV answered
      and there is a cache. */
  lemma ViewCountTraffic(p: Platform, key: string, cacheKey: string, io: ViewIo, nowMs: int)
    ensures var r := GetViewCount(p, key, cacheKey, io, nowMs);
      var freshHit := p.hasCaches && io.firstCache.CacheHit? && !io.firstCache.expired;
      && (freshHit || !p.hasKV ==> KvReads(r.log) == 0)
      && KvReads(r.log) <= 2
      && !HasKvPut(r.log)
      && (r.result.source == KvSource <==> p.hasKV && !freshHit && RetryFrom(DefaultRetryOptions, io.kv, key, 0).outcome.Returned?)
      && (r.result.source == KvSource && p.hasCaches ==> r.log[|r.log| - 1] == CachePut(cacheKey, r.result.count, nowMs))
  {
    var r := GetViewCount(p, key, cacheKey, io, nowMs);
    var c := CacheLog(p, cacheKey);
    NoKvGets(c);
    assert !HasKvPut(c);
    if !(p.hasCaches && io.firstCache.CacheHit? && !io.firstCache.expired) && p.hasKV {
      var k := KvStage(p, key, cacheKey, io, nowMs);
      KvStageTraffic(p, key, cacheKey, io, nowMs);
      KvReadsAppend(c, k.log);
      HasKvPutAppend(c, k.log);
    }
  }

  /** A retry log holds only reads and delays. */
  lemma {:induction false} RetryLogReadsOnly(opts: RetryOptions, kv: nat -> KvRead, key: string, a: nat)
    ensures forall i :: 0 <= i < |RetryFrom(opts, kv, key, a).log| ==>
      RetryFrom(opts, kv, key, a).log[i].KvGet? || RetryFrom(opts, kv, key, a).log[i].Sleep?
    decreases if opts.maxRetries < a then 0 else opts.maxRetries - a + 1
  {
    if a <= opts.maxRetries && kv(a).KvThrows? && IsRateLimitError(kv(a).error) && a != opts.maxRetries {
      RetryLogReadsOnly(opts, kv, key, a + 1);
      var rest := RetryFrom(opts, kv, key, a + 1);
      assert forall i :: 2 <= i < |RetryFrom(opts, kv, key, a).log| ==> RetryFrom(opts, kv, key, a).log[i] == rest.log[i - 2];
    }
  }

  /** `getGlobalViewCount`: the development figure without KV, else the chain on the global key. */
  function GetGlobalViewCount(p: Platform, globalCacheKey: string, io: ViewIo, nowMs: int): ViewRead {
    if !p.hasKV then ViewRead(ViewCount(Int(DevGlobalViews), false, FallbackSource), [])
    else GetViewCount(p, GlobalViewKey, globalCacheKey, io, nowMs)
  }

  /** The homepage total: the development figure with no traffic at all without KV; otherwise
      at most two KV reads and no KV write, and a total taken from KV is the value stored under
      the global key. */
  lemma GlobalViewCountShape(p: Platform, globalCacheKey: string, io: ViewIo, nowMs: int)
    ensures var r := GetGlobalViewCount(p, globalCacheKey, io, nowMs);
      var run := RetryFrom(DefaultRetryOptions, io.kv, GlobalViewKey, 0);
      && (!p.hasKV ==> r.result == ViewCount(Int(DevGlobalViews), false, FallbackSource) && r.log == [])
      && KvReads(r.log) <= 2
      && !HasKvPut(r.log)
      && (r.result.source == KvSource ==>
            run.outcome.Returned? && r.result == ViewCount(StoredCount(run.outcome.value), false, KvSource))
  {
    if p.hasKV {
      ViewCountTraffic(p, GlobalViewKey, globalCacheKey, io, nowMs);
      ViewCountChain(p, GlobalViewKey, globalCacheKey, io, nowMs);
    }
  }

  // ---------------------------------------------------------------- handleProfileView

  const IpDedupTtl: int := 3600

  /** One request to a profile page and the outcomes of everything it may call: the cookie jar,
      the hash secret and the HMAC, the KV read of the IP key, the reads of both counters, the
      cache keys (None where building one throws), whether the KV puts of `writeViewCounts`
      succeed, and the clock. */
  datatype ViewRequest = ViewRequest(
    platform: Platform, username: string, ip: string,
    cookie: CookieRead, cookieSetSucceeds: bool,
    secret: Option<string>, hmac: (string, string) -> string, ipRead: KvRead,
    cacheKeyOf: string -> Option<string>, globalCacheKey: Option<string>,
    profileIo: ViewIo, globalIo: ViewIo, putsSucceed: bool, nowMs: int)

  datatype ProfileViewResult = ProfileViewResult(views: JsNumber, globalViews: JsNumber, isStale: bool, source: Source)

  /** What a profile page shows, the cookie it sets, and everything it does, in order. */
  datatype ProfileView = ProfileView(result: ProfileViewResult, cookieSet: Option<SetCookie>, log: seq<Effect>)

  const DevResult: ProfileViewResult := ProfileViewResult(Int(DevProfileViews), Int(DevGlobalViews), false, FallbackSource)

  const FailedResult: ProfileViewResult := ProfileViewResult(Int(FallbackViewCount), Int(FallbackViewCount), false, FallbackSource)

  function Dedup(q: ViewRequest): DedupResult {
    HandleDeduplication(q.cookie, q.username, q.nowMs, q.cookieSetSucceeds)
  }

  function DedupKey(hash: string, username: string): string {
    "dedup:" + hash + ":" + ToLower(username)
  }

  /** The IP check runs when the cookie allows counting and the request has an address. */
  predicate IpCheckRuns(q: ViewRequest) {
    Dedup(q).shouldCount && q.ip != []
  }

  /** The IP key is read when the check runs and the address could be hashed. */
  predicate IpKeyRead(q: ViewRequest) {
    IpCheckRuns(q) && GetIpHash(q.secret, q.ip, q.hmac).Ok?
  }

  /** The IP key was read and holds a value: this address saw the profile in the last hour. */
  predicate IpSeen(q: ViewRequest) {
    IpKeyRead(q) && q.ipRead.KvValue? && q.ipRead.value.Some? && q.ipRead.value.value != []
  }

  /** Whether the view is counted: the cookie allows it and the IP key does not forbid it. */
  predicate Counts(q: ViewRequest) {
    Dedup(q).shouldCount && !IpSeen(q)
  }

  /** The KV traffic of the IP check: the read of the IP key and, when the read finds nothing,
      the one-hour marker. */
  function IpEffects(q: ViewRequest): seq<Effect> {
    if !IpKeyRead(q) then []
    else
      var key := DedupKey(GetIpHash(q.secret, q.ip, q.hmac).value, q.username);
      if q.ipRead.KvThrows? then [KvGet(key)]
      else if IpSeen(q) then [KvGet(key)]
      else [KvGet(key), KvPut(key, "1", Some(IpDedupTtl))]
  }

  function ProfileRead(q: ViewRequest, cacheKey: string): ViewRead {
    GetViewCount(q.platform, ToLower(q.username), cacheKey, q.profileIo, q.nowMs)
  }

  function GlobalRead(q: ViewRequest, globalCacheKey: string): ViewRead {
    GetViewCount(q.platform, GlobalViewKey, globalCacheKey, q.globalIo, q.nowMs)
  }

  /** `writeViewCounts`: both counters to KV, then, when the puts succeed and there is a cache,
      both counters to the cache. A cache key that cannot be built ends the writes there. */
  function WriteEffects(q: ViewRequest, views: JsNumber, globalViews: JsNumber): seq<Effect> {
    var puts := [KvPut(ToLower(q.username), NumberToString(views), None),
                 KvPut(GlobalViewKey, NumberToString(globalViews), None)];
    if q.putsSucceed && q.platform.hasCaches && q.cacheKeyOf(q.username).Some? && q.globalCacheKey.Some? then
      puts + [CachePut(q.cacheKeyOf(q.username).value, views, q.nowMs),
              CachePut(q.globalCacheKey.value, globalViews, q.nowMs)]
    else puts
  }

  /** The displayed count: the stored one, plus this view when it is counted. */
  function Displayed(q: ViewRequest, stored: JsNumber): JsNumber {
    if Counts(q) then Increment(stored) else stored
  }

  /** `handleProfileView`. */
  method HandleProfileView(q: ViewRequest) returns (v: ProfileView)
    ensures !q.platform.hasKV ==> v == ProfileView(DevResult, None, [])
    ensures q.platform.hasKV && q.cacheKeyOf(q.username).None? ==>
      v == ProfileView(FailedResult, Dedup(q).cookieSet, IpEffects(q))
    ensures q.platform.hasKV && q.cacheKeyOf(q.username).Some? && q.globalCacheKey.None? ==>
      v == ProfileView(FailedResult, Dedup(q).cookieSet, IpEffects(q) + ProfileRead(q, q.cacheKeyOf(q.username).value).log)
    ensures q.platform.hasKV && q.cacheKeyOf(q.username).Some? && q.globalCacheKey.Some? ==>
      var profile := ProfileRead(q, q.cacheKeyOf(q.username).value).result;
      var global := GlobalRead(q, q.globalCacheKey.value).result;
      && v.result == ProfileViewResult(Displayed(q, profile.count), Displayed(q, global.count),
                                       profile.isStale || global.isStale, profile.source)
      && v.cookieSet == Dedup(q).cookieSet
      && v.log == IpEffects(q) + ProfileRead(q, q.cacheKeyOf(q.username).value).log
                  + GlobalRead(q, q.globalCacheKey.value).log
                  + (if Counts(q) then WriteEffects(q, v.result.views, v.result.globalViews) else [])
  {
    if !q.platform.hasKV {
      return ProfileView(DevResult, None, []);
    }
    var log: seq<Effect> := [];
    var shouldCount := true;
    var dedup := HandleDeduplication(q.cookie, q.username, q.nowMs, q.cookieSetSucceeds);
    shouldCount := dedup.shouldCount;
    if shouldCount && q.ip != [] {
      var hash := GetIpHash(q.secret, q.ip, q.hmac);
      if hash.Ok? {
        var dedupKey := DedupKey(hash.value, q.username);
        log := log + [KvGet(dedupKey)];
        match q.ipRead {
          case KvValue(seen) =>
            if seen.Some? && seen.value != [] {
              shouldCount := false;
            } else {
              log := log + [KvPut(dedupKey, "1", Some(IpDedupTtl))];
            }
          case KvThrows(_) =>
        }
      }
    }
    assert shouldCount == Counts(q);
    assert log == IpEffects(q);
    var cacheKey := q.cacheKeyOf(q.username);
    if cacheKey.None? {
      return ProfileView(FailedResult, dedup.cookieSet, log);
    }
    var profile := GetViewCount(q.platform, ToLower(q.username), cacheKey.value, q.profileIo, q.nowMs);
    log := log + profile.log;
    if q.globalCacheKey.None? {
      return ProfileView(FailedResult, dedup.cookieSet, log);
    }
    var global := GetViewCount(q.platform, GlobalViewKey, q.globalCacheKey.value, q.globalIo, q.nowMs);
    log := log + global.log;
    var displayViews := profile.result.count;
    var displayGlobal := global.result.count;
    if shouldCount {
      displayViews := Increment(displayViews);
      displayGlobal := Increment(displayGlobal);
      log := log + WriteEffects(q, displayViews, displayGlobal);
    }
    v := ProfileView(ProfileViewResult(displayViews, displayGlobal, profile.result.isStale || global.result.isStale,
                                       profile.result.source),
                     dedup.cookieSet, log);
  }

  // ---------------------------------------------------------------- what a profile view promises

  /** The counting decision: the IP key is read only when the cookie allows counting, the
      request has an address and the address could be hashed; a recent IP marker suppresses the
      count; a failure to hash the address or to read its key leaves the cookie's decision. */
  lemma CountingGate(q: ViewRequest)
    ensures Counts(q) ==> Dedup(q).shouldCount
    ensures IpSeen(q) ==> !Counts(q)
    ensures q.ip == [] || GetIpHash(q.secret, q.ip, q.hmac).Err? || q.ipRead.KvThrows? ==>
      Counts(q) == Dedup(q).shouldCount
    ensures KvReads(IpEffects(q)) == if IpKeyRead(q) then 1 else 0
    ensures IpKeyRead(q) ==> IpCheckRuns(q) && Utf16Length(q.secret.value) >= SecretMinLength
  {
    var e := IpEffects(q);
    if e != [] {
      assert e == [e[0]] + e[1..];
      NoKvGets(e[1..]);
      KvReadsAppend([e[0]], e[1..]);
      assert [e[0]][1..] == [];
    }
  }

  /** A count KV stores under a counter's key is read back as that count. */
  lemma WrittenCountReadsBack(n: JsNumber)
    ensures StoredCount(Some(NumberToString(n))) == n
  {
    ParseIntNumberToString(n);
    assert NumberToString(n) != [] by {
      if n.NaN? { assert NumberToString(n) == "NaN"; }
    }
  }

  /** `writeViewCounts` writes the two displayed figures under the handle's key and the
      global key. */
  lemma WriteEffectsPuts(q: ViewRequest, views: JsNumber, globalViews: JsNumber)
    ensures var w := WriteEffects(q, views, globalViews);
      && |w| >= 2
      && w[0] == KvPut(ToLower(q.username), NumberToString(views), None)
      && w[1] == KvPut(GlobalViewKey, NumberToString(globalViews), None)
      && WritesKey(w, ToLower(q.username)) && WritesKey(w, GlobalViewKey)
  {
    var w := WriteEffects(q, views, globalViews);
    assert w[0].KvPut? && w[0].key == ToLower(q.username);
    assert w[1].KvPut? && w[1].key == GlobalViewKey;
  }

  /** A view that is counted writes the displayed figures under the handle's key and the global
      key; a view that is not counted writes neither. */
  lemma CountedWrites(q: ViewRequest, cacheKey: string, globalCacheKey: string)
    ensures var profile := ProfileRead(q, cacheKey);
      var global := GlobalRead(q, globalCacheKey);
      var views := Displayed(q, profile.result.count);
      var globalViews := Displayed(q, global.result.count);
      var log := IpEffects(q) + profile.log + global.log + (if Counts(q) then WriteEffects(q, views, globalViews) else []);
      && (Counts(q) <==> WritesKey(log, ToLower(q.username)))
      && (Counts(q) <==> WritesKey(log, GlobalViewKey))
      && (Counts(q) ==> KvPut(ToLower(q.username), NumberToString(views), None) in log
                        && KvPut(GlobalViewKey, NumberToString(globalViews), None) in log)
  {
    var profile := ProfileRead(q, cacheKey);
    var global := GlobalRead(q, globalCacheKey);
    var views := Displayed(q, profile.result.count);
    var globalViews := Displayed(q, global.result.count);
    var front := IpEffects(q) + profile.log + global.log;
    var writes := if Counts(q) then WriteEffects(q, views, globalViews) else [];
    ViewCountTraffic(q.platform, ToLower(q.username), cacheKey, q.profileIo, q.nowMs);
    ViewCountTraffic(q.platform, GlobalViewKey, globalCacheKey, q.globalIo, q.nowMs);
    IpPutsElsewhere(q);
    NoPutsNoWrites(profile.log, ToLower(q.username));
    NoPutsNoWrites(profile.log, GlobalViewKey);
    NoPutsNoWrites(global.log, ToLower(q.username));
    NoPutsNoWrites(global.log, GlobalViewKey);
    WritesKeyAppend(IpEffects(q), profile.log, ToLower(q.username));
    WritesKeyAppend(IpEffects(q), profile.log, GlobalViewKey);
    WritesKeyAppend(IpEffects(q) + profile.log, global.log, ToLower(q.username));
    WritesKeyAppend(IpEffects(q) + profile.log, global.log, GlobalViewKey);
    WritesKeyAppend(front, writes, ToLower(q.username));
    WritesKeyAppend(front, writes, GlobalViewKey);
    if Counts(q) {
      WriteEffectsPuts(q, views, globalViews);
      assert (front + writes)[|front|] == writes[0];
      assert (front + writes)[|front| + 1] == writes[1];
    }
  }

  lemma NoPutsNoWrites(log: seq<Effect>, key: string)
    requires !HasKvPut(log)
    ensures !WritesKey(log, key)
  {
  }

  /** The IP marker is written under its own key, never under a counter's key. */
  lemma IpPutsElsewhere(q: ViewRequest)
    ensures !WritesKey(IpEffects(q), ToLower(q.username)) && !WritesKey(IpEffects(q), GlobalViewKey)
  {
    if IpKeyRead(q) {
      var key := DedupKey(GetIpHash(q.secret, q.ip, q.hmac).value, q.username);
      assert |key| > |ToLower(q.username)|;
      assert key[0] == 'd' && GlobalViewKey[0] == 'g';
    }
  }
}
