# CheckMyGit core, modelled in Dafny

CheckMyGit turns a GitHub handle into a portfolio page. This project models the logic behind
that page and proves properties about it:

- **Profile fetch and normalisation** (`src/lib/server/github.ts`):
  - GraphQL first and the REST API as the fallback, with the error classification of both;
  - the two transforms into one profile shape;
  - the language breakdown: bytes per language, the ten heaviest, percentages patched to add
    up to 100;
  - the external-contribution merge: repositories the user does not own, merged by name and
    ranked by combined count;
  - star totals, the fallback pinned list and the years active.
- **Page-view counter** (`src/lib/server/kv/*.ts`):
  - a base64 cookie of recently seen handles, and an HMAC of the visitor's IP address;
  - the rate-limit retry of a KV read;
  - the cache → KV → stale cache → fallback chain of a count;
  - the handling of one counted page view.
- **Client state holders** (`src/lib/stores/generator.svelte.ts`): the generator options with
  their URL-parameter form, the toast list, and the five-minute profile cache.
- **Rankings** (`src/lib/server/rankings.ts`): the top repositories and top users of a GitHub
  search, and `formatCount`.

Modules follow the source files:

| module | file |
|---|---|
| `GitHubTypes` | `github_types.dfy` |
| `LanguageStats` | `language_stats.dfy` |
| `ExternalContributions` | `external_contributions.dfy` |
| `GitHubNormalize` | `github_normalize.dfy` |
| `GitHubFetch` | `github_fetch.dfy` |
| `KvConstants` | `kv_constants.dfy` |
| `Deduplication` | `deduplication.dfy` |
| `ViewCounter` | `view_counter.dfy` |
| `GeneratorStore` | `generator.dfy` |
| `Rankings` | `rankings.dfy` |

Shared helpers model the JavaScript built-ins the core relies on:

- `Wrappers` and `Js` (`wrappers.dfy`): thrown values, numbers that may be NaN, `slice` ends;
- `Strings` (`strings.dfy`): trim, `toLowerCase`, `split`/`join`, `parseInt`, `String(n)`;
- `Seqs` (`seqs.dfy`): `filter`, `reduce` sums, and a stable sort;
- `Base64` (`base64.dfy`): `btoa` and `atob`.

External effects become inputs or logs. Every HTTP exchange, KV read, cache read, cookie read,
HMAC and random id enters as an input. So does the clock: one reading per call of a modelled
operation (see "## Left out"). Every KV or cache write, and every delay,
is recorded in an ordered effect log.

The loops of the source are methods with invariants:
- the language and contribution loops;
- the KV retry loop.

Each is proved equal to a specification function, and the properties are proved about that
function. The generator's three classes are Dafny classes. Their methods state the whole new
state.

## Model

| member | source | states |
|---|---|---|
| Js.Increment | src/lib/server/kv/view-counter.ts:232-235 | adding one view keeps a number a number (one more) and NaN as NaN |
| Js.ParseIntNumberToString | src/lib/server/kv/view-counter.ts:130-162 | a count written as text reads back, through `parseInt`, as the same number, NaN included |
| Strings.ToLowerIdempotent | src/lib/server/kv/deduplication.ts:17 | lower-casing twice is lower-casing once, and keeps Latin-1 text Latin-1 |
| Strings.Utf16Length | src/lib/server/kv/deduplication.ts:112 | `length` counts UTF-16 code units: between the number of code points and twice it |
| Strings.Utf16LengthBasic | src/lib/server/kv/deduplication.ts:112 | the length equals the number of code points exactly when none lies above U+FFFF |
| Strings.SplitJoin | src/lib/server/kv/deduplication.ts:11 | splitting the join of separator-free pieces gives the pieces back |
| Strings.ParseIntOfIntToString | src/lib/server/kv/deduplication.ts:18 | `parseInt(String(n), 10)` is `n` for every integer |
| Seqs.SortDescSortsAndPermutes | src/lib/server/github.ts:546 | the stable sort used for `sort((a, b) => b.x - a.x)` is a permutation and orders keys from high to low |
| Seqs.SumBySortDesc | src/lib/server/github.ts:550 | sorting does not change a `reduce` sum |
| Seqs.SumByFilterLe | src/lib/server/github.ts:403-404 | a sum over a filtered list of non-negative values is at most the sum over the whole list |
| Base64.Btoa | src/lib/server/kv/deduplication.ts:65 | `btoa` succeeds exactly on Latin-1 text |
| Base64.AtobBtoa | src/lib/server/kv/deduplication.ts:10 | `atob` of the `btoa` encoding of Latin-1 text gives the text back |
| LanguageStats.FindBucket | src/lib/server/github.ts:511 | the index of the language's Map entry, or -1 exactly when there is none |
| LanguageStats.AddBytes | src/lib/server/github.ts:511-531 | adding one mention to the Map: grows the language's entry, or appends a new one |
| LanguageStats.AddRepositoryBytes | src/lib/server/github.ts:508-532 | one repository adds its byte breakdown or, without one, its primary language with weight 1 |
| LanguageStats.AccumulateLanguageBytes | src/lib/server/github.ts:505-533 | the loops fill the Map with the buckets of all mentions in visiting order |
| LanguageStats.CalculateLanguageStats | src/lib/server/github.ts:504-556 | the method computes the specified breakdown |
| LanguageStats.BucketsSummarise | src/lib/server/github.ts:505-533 | the Map holds one entry per mentioned language, with its summed weight and first-seen colour |
| LanguageStats.Percent | src/lib/server/github.ts:543 | `Math.round(bytes / total * 100)` is the nearest integer, halves up |
| LanguageStats.TopTen | src/lib/server/github.ts:547 | `slice(0, 10)` keeps a prefix of at most ten, all of it when shorter |
| LanguageStats.FixRounding | src/lib/server/github.ts:550-553 | only the first entry's percentage changes; names, colours and sizes stay |
| LanguageStats.AdjustFirstPercentage | src/lib/server/github.ts:550-553 | the patch step of the method computes the specified rounding fix |
| LanguageStats.FixRoundingSum | src/lib/server/github.ts:550-553 | after the patch the percentages add up to 100 |
| LanguageStats.RankedFacts | src/lib/server/github.ts:539-546 | the ranked entries are the buckets as stats, sorted by size high to low, names distinct |
| LanguageStats.LanguageStatsShape | src/lib/server/github.ts:504-556 | at most ten distinct languages of the repositories, heaviest first, with summed weight and first colour; empty exactly when the total weight is 0, else the percentages add up to 100, every entry after the first holds its own rounded share and the first holds what the others leave of 100 |
| LanguageStats.StatsOfBucketsShape | src/lib/server/github.ts:535-556 | from a Map that summarises the mentions: at most ten distinct tallied languages, heaviest first, empty exactly when the total weight is 0, else percentages summing to 100, each entry after the first its own rounded share and the first the remainder |
| LanguageStats.StatsOfBucketsPercentages | src/lib/server/github.ts:543-553 | each entry after the first has `Math.round(size / total * 100)`; the first has 100 minus the others |
| LanguageStats.LanguageStatsTopTen | src/lib/server/github.ts:546-547 | a mentioned language missing from the stats means ten entries, each at least as heavy |
| ExternalContributions.FindEntry | src/lib/server/github.ts:344 | the index of the repository's Map entry, or -1 exactly when there is none |
| ExternalContributions.AddPullRequest | src/lib/server/github.ts:341-357 | one pull-request record: skipped for the user's own repository, otherwise added to or opening the entry |
| ExternalContributions.AddCommit | src/lib/server/github.ts:362-378 | one commit record: skipped, added to the entry, or opening one with 0 pull requests and 0 stars |
| ExternalContributions.MergeExternalContributions | src/lib/server/github.ts:336-379 | the two loops compute the specified Map |
| ExternalContributions.MergeSummarises | src/lib/server/github.ts:336-379 | the Map holds one entry per counted repository, with summed counts, and nothing else |
| ExternalContributions.ExternalEntries | src/lib/server/github.ts:340-382 | each listed entry is a counted repository with its sums and the owner, language and stars of its first record; none is the user's, compared case-insensitively |
| ExternalContributions.ExternalKeys | src/lib/server/github.ts:340-382 | a repository has an entry exactly when a counted record names it, and at most one |
| ExternalContributions.ExternalOrderAndTotals | src/lib/server/github.ts:381-385 | the list runs from the largest combined count down; the totals are the pull requests and commits of all counted records |
| ExternalContributions.CommitOnlyEntry | src/lib/server/github.ts:369-376 | a repository reached only by commits has 0 pull requests and 0 stars |
| GitHubNormalize.FromGraphQLRepos | src/lib/server/github.ts:301-316 | one repository per GraphQL node, in order |
| GitHubNormalize.LanguageColor | src/lib/server/github.ts:452 | the table's colour when present and non-empty, else the grey default |
| GitHubNormalize.RESTLanguage | src/lib/server/github.ts:451-453 | a primary language exactly for a non-empty language name, under that name |
| GitHubNormalize.FromRESTRepos | src/lib/server/github.ts:442-460 | only public repositories, none with a byte breakdown |
| GitHubNormalize.YearsActive | src/lib/server/github.ts:559-564 | NaN exactly for an unparsable date; otherwise at least 1, above 1 exactly when the age rounds to 2 years or more, and then the rounded count of 365-day years (so max(1, round(years))) |
| GitHubNormalize.FallbackPinnedShape | src/lib/server/github.ts:424 | at most six non-fork repositories of the list; all of them when fewer than six |
| GitHubNormalize.OriginalStarsBounded | src/lib/server/github.ts:403-404 | stars of non-fork repositories never exceed the stars of all |
| GitHubNormalize.TransformGraphQLShape | src/lib/server/github.ts:298-437 | own pinned items when any, else the fallback; external totals of the counted records; the breakdown of non-fork repositories; positive years |
| GitHubNormalize.TransformRESTShape | src/lib/server/github.ts:440-501 | only the public repositories, every one kept; no contribution data; the fallback pinned list; the public repository count |
| GitHubFetch.CleanUsername | src/lib/server/github.ts:279 | the trimmed handle with at most one leading `@` removed, exactly when it starts with one |
| GitHubFetch.GraphQLStatusErrors | src/lib/server/github.ts:164-181 | a failing status: 401 is UNAUTHORIZED, 403 is RATE_LIMIT, anything else is UNKNOWN; the status is kept |
| GitHubFetch.GraphQLNotFound | src/lib/server/github.ts:185-204 | NOT_FOUND exactly when an error mentions "Could not resolve", or when there are no errors and no user |
| GitHubFetch.GraphQLSuccess | src/lib/server/github.ts:199-207 | success exactly on an ok response without errors that holds a user; the data is its normalised profile |
| GitHubFetch.GraphQLUnauthorized | src/lib/server/github.ts:140-170 | UNAUTHORIZED exactly without a token or on a 401 |
| GitHubFetch.RESTErrors | src/lib/server/github.ts:235-252 | 404 is NOT_FOUND and 403 is RATE_LIMIT; REST never answers UNAUTHORIZED |
| GitHubFetch.RESTReposFailure | src/lib/server/github.ts:257-264 | a failing repository list gives a profile with no repositories, not an error |
| GitHubFetch.FetchFallback | src/lib/server/github.ts:277-295 | with a token, a GraphQL result other than UNAUTHORIZED is final; otherwise the REST result; the requests made, in order |
| GitHubFetch.FetchNeverUnauthorized | src/lib/server/github.ts:277-295 | the profile fetch never reports UNAUTHORIZED |
| GitHubFetch.FetchAsksREST | src/lib/server/github.ts:282-294 | REST is asked exactly without a token or after a GraphQL UNAUTHORIZED |
| Deduplication.ParsedEntries | src/lib/server/kv/deduplication.ts:6-26 | an absent, empty or undecodable cookie reads as no entries; every entry read has a non-empty, lower-cased, storable handle |
| Deduplication.FindSeen | src/lib/server/kv/deduplication.ts:33 | the index of the first entry for the handle, or -1 exactly when there is none |
| Deduplication.ShouldCountView | src/lib/server/kv/deduplication.ts:29-40 | counted exactly when no entry is for the lower-cased handle, or the first one is at least 24 hours old |
| Deduplication.UpdateSeenCookie | src/lib/server/kv/deduplication.ts:44-66 | the method returns the `btoa` of the serialised updated list |
| Deduplication.KeepRecentFacts | src/lib/server/kv/deduplication.ts:49-55 | the filter keeps exactly the entries of the list that are for other handles and younger than the window: every survivor is one, and every one survives |
| Deduplication.UpdatedSeenShape | src/lib/server/kv/deduplication.ts:44-61 | the new list starts with the handle at the current second and has at most 50 entries; after its head come only old entries for other handles, younger than the window, in their old order, and below the cap every such entry is there |
| Deduplication.ParseUpdatedCookie | src/lib/server/kv/deduplication.ts:6-66 | a cookie written for storable handles parses back to exactly the list written |
| Deduplication.DeduplicationFailsOpen | src/lib/server/kv/deduplication.ts:76-106 | an unreadable cookie counts the view; a failed cookie write does not change the decision; a cookie is set only for counted views, with the fixed name and options |
| Deduplication.RevisitCountedAfterWindow | src/lib/server/kv/deduplication.ts:29-40 | a counted view of a storable handle sets its cookie, and a later visit with that cookie is counted exactly when at least 24 hours have passed, in whole seconds |
| Deduplication.RevisitWindowBoundary | src/lib/server/kv/deduplication.ts:36-39 | with that cookie, a visit 23h59m later is not counted and one 24h01m later is |
| Deduplication.GetIpHash | src/lib/server/kv/deduplication.ts:108-120 | throws exactly when the secret is missing or shorter than 32 UTF-16 code units, with the fixed message; otherwise "" for an empty address and the HMAC for any other |
| Deduplication.AstralSecretAccepted | src/lib/server/kv/deduplication.ts:110-112 | sixteen code points above U+FFFF make a secret of length 32, which the length test accepts, so the address is hashed |
| ViewCounter.RateLimitIgnoresCase | src/lib/server/kv/view-counter.ts:22-28 | the rate-limit test does not depend on letter case |
| ViewCounter.TooManyRequestsIsRateLimit | src/lib/server/kv/view-counter.ts:22-28 | every message that lower-cases to `too many requests` is a rate limit, so the binding's message is recognised in whatever case; a thrown non-Error is not a rate limit |
| ViewCounter.KvReadWithRetry | src/lib/server/kv/view-counter.ts:43-67 | the retry loop computes the specified outcome and log of reads and back-off delays |
| ViewCounter.RetryBounded | src/lib/server/kv/view-counter.ts:50-62 | at most `maxRetries + 1` reads, with delays of `retryDelayMs * backoffMultiplier^k` between them |
| ViewCounter.DefaultRetryAtMostTwoReads | src/lib/server/kv/constants.ts:15-19 | with the default options: at most two reads, and 50 ms between them |
| ViewCounter.RetryDecidedAt | src/lib/server/kv/view-counter.ts:50-66 | the first read that returns, fails other than by rate limit, or is the last allowed decides the outcome, after exactly that many reads |
| ViewCounter.RetryRethrowsAtOnce | src/lib/server/kv/view-counter.ts:56-58 | an error that is not a rate limit is rethrown after a single read |
| ViewCounter.ViewCountChain | src/lib/server/kv/view-counter.ts:71-127 | a fresh cache entry is used; else the KV value (absent is 0); after a KV failure, a not-too-old stale entry, marked stale; else one view |
| ViewCounter.ViewCountTraffic | src/lib/server/kv/view-counter.ts:71-127 | no KV read for a fresh entry or without KV, at most two otherwise, never a KV write; a cache write exactly when KV answered and there is a cache |
| ViewCounter.GlobalViewCountShape | src/lib/server/kv/view-counter.ts:271-284 | the development figure and no traffic without KV; otherwise at most two KV reads, no KV write, and a total from KV is the value stored under the global key |
| ViewCounter.HandleProfileView | src/lib/server/kv/view-counter.ts:166-267 | development figures without KV; fallback ones when a cache key cannot be built; otherwise the stored counts plus one exactly when counted, stale when either read is, the profile's source, and the ordered log of reads and writes |
| ViewCounter.CountingGate | src/lib/server/kv/view-counter.ts:186-220 | the IP key is read only when the cookie allows counting, there is an address and it could be hashed; a marker suppresses the count; hashing or read failures keep the cookie's decision |
| ViewCounter.WrittenCountReadsBack | src/lib/server/kv/view-counter.ts:130-162 | a count stored under a counter's key reads back as that count |
| ViewCounter.WriteEffectsPuts | src/lib/server/kv/view-counter.ts:130-162 | `writeViewCounts` puts the two displayed figures under the handle's key and the global key |
| ViewCounter.CountedWrites | src/lib/server/kv/view-counter.ts:232-248 | a counted view writes the displayed figures under both counter keys; an uncounted one writes neither |
| ViewCounter.IpPutsElsewhere | src/lib/server/kv/view-counter.ts:198-208 | the one-hour IP marker is never written under a counter's key |
| GeneratorStore.TemplateNamed | src/lib/stores/generator.svelte.ts:100 | a template exactly for `github`, `bento` or `minimal`, under that name |
| GeneratorStore.ThemeNamed | src/lib/stores/generator.svelte.ts:103 | a theme exactly for `dark` or `light`, under that name |
| GeneratorStore.GetFirst | src/lib/stores/generator.svelte.ts:97-98 | `params.get` finds the value of the first pair with the name |
| GeneratorStore.ParamsOfShape | src/lib/stores/generator.svelte.ts:109-114 | `toParams` omits a default template or theme and writes any other under its name |
| GeneratorStore.ParamsRoundTrip | src/lib/stores/generator.svelte.ts:96-114 | loading the written parameters over the defaults restores template and theme; over another state, a default leaves the current value |
| GeneratorStore.ToggledShape | src/lib/stores/generator.svelte.ts:51-65 | a toggle flips its own flag and no other field, and toggling twice is the identity |
| GeneratorStore.GeneratorState.constructor | src/lib/stores/generator.svelte.ts:8-29 | the default options, not exporting, `png`, nothing shared |
| GeneratorStore.GeneratorState.SetTemplate | src/lib/stores/generator.svelte.ts:43-45 | only the template changes |
| GeneratorStore.GeneratorState.SetTheme | src/lib/stores/generator.svelte.ts:47-49 | only the theme changes |
| GeneratorStore.GeneratorState.ToggleContributions | src/lib/stores/generator.svelte.ts:51-53 | only `showContributions` flips |
| GeneratorStore.GeneratorState.ToggleLanguages | src/lib/stores/generator.svelte.ts:55-57 | only `showLanguages` flips |
| GeneratorStore.GeneratorState.ToggleProjects | src/lib/stores/generator.svelte.ts:59-61 | only `showProjects` flips |
| GeneratorStore.GeneratorState.ToggleStats | src/lib/stores/generator.svelte.ts:63-65 | only `showStats` flips |
| GeneratorStore.GeneratorState.SetAccentColor | src/lib/stores/generator.svelte.ts:67-69 | only the accent colour changes |
| GeneratorStore.GeneratorState.SetExportFormat | src/lib/stores/generator.svelte.ts:71-73 | only the export format changes |
| GeneratorStore.GeneratorState.EnterExportMode | src/lib/stores/generator.svelte.ts:75-78 | export mode and exporting both on, nothing else changes |
| GeneratorStore.GeneratorState.ExitExportMode | src/lib/stores/generator.svelte.ts:80-83 | export mode and exporting both off, nothing else changes |
| GeneratorStore.GeneratorState.Reset | src/lib/stores/generator.svelte.ts:85-93 | the seven display fields take their defaults; export and share state stay |
| GeneratorStore.GeneratorState.LoadFromParams | src/lib/stores/generator.svelte.ts:96-106 | a valid template or theme parameter replaces the field; absent or invalid ones, and all other fields, stay |
| GeneratorStore.GeneratorState.ToParams | src/lib/stores/generator.svelte.ts:109-114 | the parameters of the current template and theme, each omitted when it is the default |
| GeneratorStore.WithoutShape | src/lib/stores/generator.svelte.ts:141-143 | removal leaves no toast with the id, keeps every other in order, is idempotent, and changes nothing when no toast has the id |
| GeneratorStore.AddThenRemove | src/lib/stores/generator.svelte.ts:130-143 | adding a toast under a fresh id and removing that id restores the list |
| GeneratorStore.ToastState.Add | src/lib/stores/generator.svelte.ts:130-139 | appends the toast, returns its id, and schedules a removal after the duration (3000 by default) only when it is positive |
| GeneratorStore.ToastState.Remove | src/lib/stores/generator.svelte.ts:141-143 | the list without the toasts carrying the id |
| GeneratorStore.ToastState.Success | src/lib/stores/generator.svelte.ts:145-147 | `add` with type success |
| GeneratorStore.ToastState.Error | src/lib/stores/generator.svelte.ts:149-151 | `add` with type error |
| GeneratorStore.ToastState.Info | src/lib/stores/generator.svelte.ts:153-155 | `add` with type info |
| GeneratorStore.ToastState.Warning | src/lib/stores/generator.svelte.ts:157-159 | `add` with type warning |
| GeneratorStore.ToastState.Clear | src/lib/stores/generator.svelte.ts:161-163 | the list is empty |
| GeneratorStore.LookupIgnoresCase | src/lib/stores/generator.svelte.ts:174 | a handle and its lower-case form find the same entry |
| GeneratorStore.SetThenLookup | src/lib/stores/generator.svelte.ts:171-191 | after `set(u, p)`, any handle with the same lower-case form finds `p` up to an age of exactly five minutes and nothing after; other handles are unaffected |
| GeneratorStore.ProfileCache.Get | src/lib/stores/generator.svelte.ts:173-184 | the stored profile while at most five minutes old; an older entry is deleted and nothing returned |
| GeneratorStore.ProfileCache.Set | src/lib/stores/generator.svelte.ts:186-191 | the entry under the lower-cased handle is replaced and stamped with the current time |
| GeneratorStore.ProfileCache.Clear | src/lib/stores/generator.svelte.ts:193-195 | the cache is empty |
| GeneratorStore.ExpiredStaysGone | src/lib/stores/generator.svelte.ts:178-181 | after an expired entry is deleted, the handle finds nothing at any later time |
| Rankings.RepoSearchQuery | src/lib/server/rankings.ts:76-79 | `stars:>1000 sort:stars`, with `language:L` inserted exactly when a non-empty language is given |
| Rankings.SearchNodes | src/lib/server/rankings.ts:94-112 | a throw, a 403, another failing status, an `errors` array (empty or not) and missing nodes each give their message; otherwise the nodes |
| Rankings.HitsKeepsAll | src/lib/server/rankings.ts:116 | no node of the expected type is dropped |
| Rankings.HitsIgnoresOthers | src/lib/server/rankings.ts:116 | null nodes and nodes of another type leave no trace |
| Rankings.FetchTopRepositories | src/lib/server/rankings.ts:62-136 | no token gives the fixed failure; a failed search gives its message; otherwise success with the ranked repositories; a failure never carries data |
| Rankings.RepositoriesRanked | src/lib/server/rankings.ts:115-126 | success ranks the repository nodes 1..n in response order: entry i is the i-th repository node, ranked i+1, with all of its fields |
| Rankings.UserOf | src/lib/server/rankings.ts:190-204 | a user's total stars is the sum of the `stargazerCount` of its returned repositories |
| Rankings.FetchTopUsers | src/lib/server/rankings.ts:139-227 | no token gives the fixed failure; a failed search gives its message; otherwise the users, sorted when asked, cut by `slice(0, limit)` and ranked |
| Rankings.UsersRanked | src/lib/server/rankings.ts:188-217 | ranks exactly 1..n; at most `limit` entries for a non-negative limit; entries are users of the response; by stars, totals never increase; by followers, the response order |
| Rankings.UserTotals | src/lib/server/rankings.ts:190-194 | every user's total is the star sum of a user node of the response |
| Rankings.FormatCountShape | src/lib/server/rankings.ts:230-238 | below 1000 the plain decimal; from a million an `M` suffix, from 1000 a `k` suffix, after the count in millions or thousands rounded to a tenth and never ending in `.0` |
| Rankings.FormatCountThousandK | src/lib/server/rankings.ts:234-236 | 999950 and 999999 are written `1000k` |
| Rankings.FormatCountPromotedShape | src/lib/server/rankings.ts:230-238 | with the suffix chosen after rounding, a `k` text stays below 1000, those counts read `1M`, and all other counts are written as before |

## Left out

- I/O enters the model as outcomes:
  - `fetch`, `response.json()` and the environment (`GITHUB_TOKEN`, `IP_HASH_SECRET`);
  - the KV namespace, the edge cache and the cookie jar;
  - `Date.now()` and `crypto.randomUUID()`.
- HMAC-SHA256 is a parameter `hmac(secret, ip)`; the digest itself is not modelled.
- The cache helpers of `src/lib/server/kv/cache.ts` (`buildCacheKey`, `getCachedCount`, `setCachedCount`, expiry tests) are not part of this model.
  - Each cache read is given by its classification: thrown, miss, or hit with its count, expiry and staleness.
  - A cache key is given as an option, None where building it throws.
- Concurrency is not modelled:
  - `Promise.all`, `waitUntil`, fire-and-forget writes and `setTimeout`.
  - Writes and delays are listed in one order in the effect log: the profile count before the global one, the IP marker before both.
  - `putsSucceed` says whether the background KV puts returned normally, which decides whether the cache writes follow.
- Logging (`console.error`) is not modelled.
- `ViewCounter.HandleProfileView`: one clock reading, `nowMs`, per request. It stamps the cache write after a KV read and both cache writes of the new counts. The source reads `Date.now()` afresh for each, after awaited reads and back-off delays, so its timestamps can be later than the model's.
- `Deduplication.GetIpHash` counts the secret's length in UTF-16 code units, as `length` does (`Strings.Utf16Length`). It is the only string `length` the source reads; otherwise the model's strings are sequences of code points.
- `Deduplication.ShouldCountView` and `Deduplication.UpdateSeenCookie`: both take one clock reading, where the source reads the clock once in each.
- `toLowerCase` is exact on Latin-1 only (A–Z and U+00C0–U+00DE except U+00D7). Other code points are left unchanged.
- Numbers are unbounded integers or NaN:
  - 53-bit precision, Infinity and the exponent form of `String(n)` (at 1e21 and above) are not modelled;
  - a fractional retry option or ranking limit is not modelled.
- `Rankings.FormatCount` reads `toFixed(1)` as exact decimal rounding, halves up. Doubles round some inputs differently: 1150000 is 1.1499… as a double, so the source writes `1.1M` where the model writes `1.2M`.
- `LanguageStats.Percent` and `GitHubNormalize.YearsActive` read `Math.round` of a quotient as exact rational rounding, halves up; the floating-point quotient is not modelled.
- `GitHubFetch.FetchUserGraphQL`, `GitHubFetch.FetchUserREST` and `GitHubFetch.FetchGitHubProfile` are functions without their own ensures; what they promise is stated by the `GitHubFetch` lemmas in the table.
- `checkRateLimit` in `src/lib/server/github.ts` is a bare request and is not modelled.
- `Rankings.SearchNodes`:
  - An element of `errors` is taken to be its message.
  - An error object without a `message` (which the source would return as `error: undefined`) is not modelled.
  - An `errors` value that is truthy but not an array is not modelled.
- `Rankings.FetchTopRepositories` and `Rankings.FetchTopUsers` take every argument explicitly. The source's defaults (`language` absent, `limit = 25`, `sortBy = 'followers'`) are not modelled.
- `users.sort` sorts the local array in place. The model reassigns the local to the stable sort of its value. The fixed list of `RANKING_LANGUAGES` is not used by the fetchers and is not modelled.
- `src/lib/types/portfolio.ts` is not part of this model: the export format is kept as a string.
- `URLSearchParams` is a list of name/value pairs; percent-encoding is not modelled.
- Toast timers: `ToastState.Add` returns the delay of the scheduled removal. The removal itself is a later `Remove` call.
- `ProfileCache` stores the profile as a value; the aliasing of the stored JavaScript object is not modelled.
- `src/lib/stores/navigation.svelte.ts` (animation sequencing) and `src/lib/utils/qr.ts` (a wrapper over a QR library) are not modelled.
- The route handlers are not modelled. They pass an extra argument that the ranking fetchers do not accept.
- `ViewCounter.HandleProfileView` reaches its outer fallback only where building a cache key fails. Every other failure the source could catch is already handled inside the called functions.

## Findings

| source | as written | input that shows it | evidently intended | confidence | as-written member | corrected member |
|---|---|---|---|---|---|---|
| src/lib/server/rankings.ts:234-236 | the `k` branch is chosen before rounding, so rounding to a tenth can reach 1000.0 | 999950 (any count from 999950 to 999999) is written `1000k` | a count that rounds to a thousand thousands is written `1M` | medium, not executed | Rankings.FormatCountThousandK | Rankings.FormatCountPromotedShape |
