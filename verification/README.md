# Verified model of the LLM gateway

A Dafny model of the stateful engine of the gateway: the LRU + TTL cache, the fixed-window rate limiter, the
router with its circuit breaker, the cost tracker, the latency window, the pseudo-tokenizer, the retry wrapper,
and the chat completion handler that drives them all. Each part comes in up to three files:

- a `...Model` file with the behaviour as functions on values,
- a class file with the mutable object (`Cache`, `RateLimiter`, `Router`, `CostTracker`, `Metrics`, `Gateway`),
  whose methods keep the loops, branches and in-place updates of the C++ code and are proved equal to those functions,
- a theorem file about whole runs (`CacheRuns`, `CacheRetention`, `CacheInclusion`, `CacheCounters`, `CacheKey`,
  `KeyAmbiguity`, `LimiterRuns`, `Health`, `Routing`, `RouteLaws`, `CostRuns`, `GatewayRuns`, `GatewayCalls`,
  `GatewayAnswers`, `GatewayRotation`, `GatewayTraffic`, `GatewayLimits`). `GatewayLive` runs the live gateway through any sequence of events and proves its
  objects and answers to be those the theorem files speak of.

`dafny verify dfyconfig.toml` checks everything.

Main results, hardest first:

1. *A bigger cache never loses a hit*, for every run, also when entries expire and the two caches sweep at different
   times (`CacheInclusion.LargerCacheKeepsHits`); when nothing expires, the smaller recency list is a subsequence of the
   larger (`RecencyListIncluded`).
2. *Exactly when a lookup hits and what it returns* (`CacheRuns.HitsExactly`), the LRU guarantee
   (`CacheRetention.KeptWhileRecent`) and its exact form when nothing expires (`HitsWhileRoom`), whatever limits the
   stores read, and the exact reuse distance under one limit (`ReuseDistance`).
3. *Spend is conserved over every run of the gateway* (`GatewayRuns.SpendIsConserved`), and every cached answer was
   served before for the same key (`GatewayTraffic.HitWasServedBefore`).
4. *The exact maximum of admissions in an interval of any length* (`LimiterRuns.AdmissionsBounded`, reached for every
   limit and length by `BoundReached`), also end to end for an API key of the gateway (`GatewayLimits.TrafficBounded`,
   reached by `TrafficReached`), an exact `Retry-After`, and exactly how far a window's token count can exceed its limit
   (`GatewayTraffic.TokensBounded`, reached by `GatewayLimits.TokensReached`).
5. *Exactly when an unavailable provider is called and when it comes back*, for every request, pinned or not
   (`GatewayCalls.CalledExactly`, `RevivedExactly`), and over every run (`StaysOutExactly`, `UnavailableOnlyGrows`): it
   stays out if and only if no request that misses the cache is forced to it and answered. A request is forced to a
   provider when its model is pinned to it or when the cost strategy is down to its last resort
   (`Routing.UnavailableIsForced`); both are reached by short runs (`PinnedIsReached`, `LastResortIsReached`, a concrete
   one in `Witness.SmallGatewayReachesIt`). What makes a provider unavailable is a matter of its own calls alone
   (`GatewayCalls.UnavailableExactly`).
6. *Exactly which requests their cache key text determines* (`KeyAmbiguity.ConversationDetermined`,
   `RequestDetermined`): every conversation of two or more messages shares its text with another one.
7. *Which calls a request makes and what it answers, from what the providers return* (`GatewayAnswers.RequestEnds`), and
   that a cached answer was given to a request with the same text (`GatewayAnswers.HitHasSameText`).
8. *What each strategy decides, from the configuration and the health table alone* (`RouteLaws.LatencyRoutes`,
   `CostRoutes`, `FailoverRoutes`, `RotationRoutes`, `SmartRoutes`, `PinnedRoutes`).
9. *The live objects refine the specification over whole runs* (`GatewayLive.Serve`): every statement about runs of the
   gateway is one about its objects.
10. Rotation fairness of the router (`Routing.RotationIsFair`) and over gateway runs (`GatewayRotation.RotationIsFair`),
    the health state machine, the tokenizer's round trip and exact additivity, the closed form of the estimate a request
    is limited by (`TokenCounter.CountMessagesFormula`, `GatewayAnswers.LimitedExactly`), everything a cost summary
    reports (`CostRuns.SummaryIs`), both sides of the p99 bound.

Conventions. Money, latencies and rates are reals. Clock readings are integer nanoseconds passed in as parameters, one
for each place where the code reads the clock. Hashing, temperature printing, sorting and map iteration order are
function parameters; sorting and iteration carry the contract the C++ library gives them and nothing more, and `Witness`
shows that an insertion sort and a listing of a set meet it. What the providers answer is a parameter too (`World`), so
every statement holds for all provider behaviour.

Where code and documentation differ, the code is modelled. The repository's README.md describes normalized prompts and a
prompt-length classifier, neither of which exists. DESIGN.md says that tier limits of the API key are loaded; the limiter
only ever uses the configured defaults. DESIGN.md says that every strategy gets a fallback chain; an unpinned request has
one if and only if the strategy is failover with at least two listed providers or smart with at least two open
provider/model pairs (`Routing.ChainExactly`), so cost, latency and rotation requests make at most one provider call
(`GatewayCalls.AtMostOneCall`). DESIGN.md says that an unavailable provider is excluded; it is decided on exactly when
the request is forced to it (`Routing.UnavailableIsForced`), called exactly when that request also misses the cache and
the provider is registered (`GatewayCalls.CalledExactly`), and one answer, also on a retry, puts it back
(`GatewayCalls.RevivedExactly`). The cache key is meant to identify a request; the text it is hashed from does so exactly
when the model has no `|` and the rendered messages have a single `:` with no `|` before it
(`KeyAmbiguity.RequestDetermined`).

## Model

| member | source | states |
|---|---|---|
| CacheInclusion.LargerCacheKeepsHits | src/cache.cpp:36-118 | for limits m <= n and any timed run of lookups, stores and clears, with entries expiring anywhere: a hit in the m-cache is a hit in the n-cache with the same response |
| CacheInclusion.RecencyListIncluded | src/cache.cpp:36-118 | when nothing expires, the smaller recency list is a subsequence of the larger and its size is min(m, larger size) |
| CacheRuns.HitsExactly | src/cache.cpp:36-118 | a lookup hits if and only if the key's latest store was not cleared, not pushed out by the LRU step and has not expired, and it returns that store's response marked as cached |
| CacheRuns.RetainedIsLatest | src/cache.cpp:90-118 | what is still retained for a key is its latest uncleared store, never an older one |
| CacheRetention.KeptWhileRecent | src/cache.cpp:84-100 | whatever limits the stores read: if at every store since the key's own last use fewer distinct other keys had been used than the limit it read, only expiry or a clear can make the key miss |
| CacheRetention.FewOthersKeepRoom | src/cache.cpp:84-100 | that is so if the other keys used since are fewer than every limit read since |
| CacheRetention.HitsWhileRoom | src/cache.cpp:53-118 | when nothing expires, a key hits if and only if it was stored, not cleared, and that condition holds |
| CacheRetention.ReuseDistance | src/cache.cpp:53-118 | under one limit, when nothing expires, a key hits if and only if it was stored, not cleared, and fewer than the limit of distinct other keys were used since its last use |
| CacheRuns.ApplyKeepsInv | src/cache.cpp:36-125 | every operation keeps keys distinct, access times non-increasing from front to back, and the size within the limit last read, however much that limit shrank |
| CacheRuns.RunKeepsInv | src/cache.cpp:36-125 | the invariant holds after every run with a non-decreasing clock |
| CacheCounters.LookupsCounted | src/cache.cpp:36-76 | every lookup is counted as exactly one hit or miss, and the savings are what the returned responses had cost |
| CacheCounters.HitsCounted | src/cache.cpp:36-66 | the hits count exactly the lookups that were answered, the misses the others |
| CacheCounters.DisabledDoesNothing | src/cache.cpp:36-79 | a disabled cache counts a miss, answers nothing and stores nothing |
| CacheCounters.CapacityIs | src/cache.cpp:84-98 | a 32-bit limit of at least 0 is the limit held, a negative one becomes at least 2^64 - 2^31 |
| CacheCounters.SweepsWhenHalfFull | src/cache.cpp:97-115 | after a store exactly the new entry and the evicted list's entries are left, less the expired ones if that list was more than half full |
| CacheCounters.EntriesAccountedFor | src/cache.cpp:78-161 | every entry ever stored is still listed, counted as evicted, or was replaced, found expired or cleared |
| CacheModel.Mark | src/cache.cpp:68-72 | a hit changes only the cache flag, the request id and the latency of the stored response |
| CacheModel.MakeRoom | src/cache.cpp:97-100 | the pops leave the longest prefix of the list with room for one more entry |
| CacheModel.LiveSubseq | src/cache.cpp:142-153 | the sweep removes exactly the expired entries and keeps the order of the rest |
| Cache.Cache.constructor | src/cache.cpp:14-18 | a new cache is empty with the configured limit, converted to an unsigned size, and TTL |
| Cache.Cache.Get | src/cache.cpp:36-76 | the real list and index after a lookup stand for the specified list, with the index still exact and the counters and answer as specified |
| Cache.Cache.Put | src/cache.cpp:78-118 | the same for a store, including the re-read limits with max_entries converted to an unsigned size, replacement, eviction loop, conditional sweep and insertion |
| Cache.Cache.Clear | src/cache.cpp:120-125 | clearing empties list and index and touches no counter |
| Cache.Cache.EvictExpired | src/cache.cpp:142-153 | the backwards erase-while-walking loop leaves exactly the live entries in order and counts each erased one |
| Cache.Cache.EvictLru | src/cache.cpp:155-161 | pops the back entry, if any, from list and index and counts it |
| Cache.Cache.EvictToFit | src/cache.cpp:97-100 | the eviction loop terminates with the longest prefix that leaves room for one entry |
| Cache.Cache.MoveToFront | src/cache.cpp:61-63 | relinking through the index moves that entry to the head with its new access time and keeps all others in order |
| Cache.IndexedValues | include/cache.h:49-50 | a list and index that agree have distinct keys, exactly those of the index |
| Cache.IndexedFinds | include/cache.h:49-50 | every index entry leads to a listed node with that very key |
| CacheKey.MakeKey | src/cache.cpp:20-34 | the appending loop builds the specified text and hashes it |
| CacheKey.PreHashOfOne | src/cache.cpp:20-30 | the text of a request with one message, written out with all its separators |
| CacheKey.KeysAgree | src/cache.cpp:20-33 | two requests have the same key if and only if their whole texts have the same hash |
| CacheKey.PreHashDecodes | src/cache.cpp:20-30 | for fields without the separators, two requests have the same text before hashing if and only if they agree on model, messages and, with match_params, rendered temperature and max_tokens |
| CacheKey.PreHashIsAmbiguous | src/cache.cpp:20-30 | for every model and parameters, the conversation of two user messages x and y has the same text as one user message with the separators in its content |
| KeyAmbiguity.ConversationDetermined | src/cache.cpp:20-30 | for a fixed model, setting and parameters, the text before hashing determines the conversation if and only if the rendered messages contain exactly one ':' |
| KeyAmbiguity.LongConversationsCollide | src/cache.cpp:20-30 | every conversation of two or more messages has the same text as some other conversation |
| KeyAmbiguity.RequestDetermined | src/cache.cpp:20-30 | provided numbers print without a bar, among all requests with messages the text determines model, messages and, with match_params, rendered temperature and max_tokens if and only if the model has no bar and the rendered messages have exactly one ':' with no bar before it |
| Text.IntToStringInjective | src/cache.cpp:28 | the decimal rendering of max_tokens loses nothing |
| Text.NatToStringIs | src/cache.cpp:33 | the rendering of a number is its decimal one, without leading zeros |
| LimiterRuns.AdmissionsBounded | src/middleware/rate_limiter.cpp:12-81 | in any interval of length L >= 1 ns of any run without reset, at most (1 + ceil((L - 1 ns) / 60 s)) * rpm_limit requests of a key are admitted, none when the limit is negative or the interval empty |
| LimiterRuns.AtMostTwoWindows | src/middleware/rate_limiter.cpp:12-81 | no half-open 60-second interval admits more than 2 * rpm_limit |
| LimiterRuns.BoundReached | src/middleware/rate_limiter.cpp:71-81 | the bound is the maximum: for every rpm_limit >= 1 and every length some run with an ordered clock and no reset admits exactly that many |
| LimiterRuns.BoundReachedFrom | src/middleware/rate_limiter.cpp:12-81 | it is reached from any first operation that creates the bucket without being admitted, a denied check included, by checks of any estimate that fits the token limit |
| LimiterRuns.TwoWindowsReached | src/middleware/rate_limiter.cpp:71-81 | in particular some such run admits 2 * rpm_limit within 60 seconds |
| LimiterRuns.RetryAfterExact | src/middleware/rate_limiter.cpp:22-40 | retried after a positive whole number of seconds, a denied check that fits the limits is admitted if and only if that number is at least retry_after_sec |
| LimiterRuns.RetryAfterSuffices | src/middleware/rate_limiter.cpp:22-40 | the next check of the key, any time at or after denial plus retry_after_sec, is admitted when it fits the limits |
| LimiterRuns.DeniedUntilWindowEnd | src/middleware/rate_limiter.cpp:12-51 | before the window ends the same check stays denied, whatever checks and non-negative token records come in between |
| LimiterRuns.KeysAreIndependent | src/middleware/rate_limiter.cpp:12-69 | the answers a key gets in an interleaved run are those of the run with every other key's operations deleted |
| LimiterRuns.AdmittedWithinBudget | src/middleware/rate_limiter.cpp:18-44 | a check is admitted exactly when the remaining budgets it reports cover it, and a denial's hint lies between 1 and 60 seconds |
| LimiterRuns.CountersCountWindow | src/middleware/rate_limiter.cpp:42-81 | a bucket's counters are exactly the admissions and the tokens recorded since the operation that opened its window |
| RateLimiter.RateLimiter.CheckRequest | src/middleware/rate_limiter.cpp:12-45 | the bucket objects after a check stand for the specified buckets and the answer is the specified one; no other key's bucket changes |
| RateLimiter.RateLimiter.RecordTokens | src/middleware/rate_limiter.cpp:47-51 | tokens are added to the key's bucket without a window check |
| RateLimiter.RateLimiter.Reset | src/middleware/rate_limiter.cpp:53-56 | only the named key's bucket is forgotten |
| RateLimiter.RateLimiter.GetBucket | src/middleware/rate_limiter.cpp:58-69 | an existing bucket is returned itself, a new one is created from the defaults and shared with no other key |
| RateLimiter.Bucket.ResetIfExpired | src/middleware/rate_limiter.cpp:71-81 | counters and window start over exactly when 60 whole seconds have elapsed |
| RateLimiter.Bucket.Check | src/middleware/rate_limiter.cpp:18-44 | request limit before token limit, remaining budgets taken before the request is counted |
| Health.AvailableExactly | src/router.cpp:203-234 | over any report history the error rate stays in [0, 1], and a provider is available exactly when its last report was a success or the rate is at most one half |
| Health.LatencyWithinReports | src/router.cpp:211-215 | the average latency never leaves the range of the reported latencies |
| Health.LatencyStreak | src/router.cpp:211-215 | under a constant latency the average loses a tenth of its distance with every report |
| Health.FailureStreak | src/router.cpp:221-234 | k failures in a row raise the rate by k tenths up to 1 and trip the breaker exactly above one half |
| Health.SixTripFiveDoNot | src/router.cpp:221-234 | six consecutive failures trip from any reachable state, five from the start never do |
| Health.SuccessStreak | src/router.cpp:217-218 | k successes in a row multiply the rate by 0.95 to the k |
| Health.FourteenRecover | src/router.cpp:217-218 | fourteen successes bring any rate below one half, thirteen are not always enough |
| Health.WorseRaisesRate | src/router.cpp:203-234 | turning successes of a history into failures never lowers its final error rate |
| Health.ReportsCounted | src/router.cpp:208-225 | the two counters are the successes and the failures reported |
| Routing.StampsAre | src/router.cpp:203-226 | the table has exactly the providers reported on, each with its own name and the times of its latest success and error |
| Router.Router.Route | src/router.cpp:19-49 | the method's decision and rotation index are the specified ones for pinned requests and all five strategies |
| Router.Router.RouteCostOptimized | src/router.cpp:53-89 | the nested scan and the last resort compute the specified choice |
| Router.Router.RouteLatencyOptimized | src/router.cpp:91-111 | the scan computes the specified fastest provider |
| Router.Router.RouteRoundRobin | src/router.cpp:113-128 | picks from the available list at the index and advances it only then |
| Router.Router.RouteFailover | src/router.cpp:130-156 | the first available provider, its first configured model, the other available ones as chain |
| Router.Router.RouteSmart | src/router.cpp:158-199 | collects, scores and sorts the candidates into the specified decision and chain |
| Router.Router.ScoreProvider | src/router.cpp:255-276 | the penalties and the weight of the first configuration entry with that name |
| Router.Router.ReportSuccess | src/router.cpp:203-219 | only the reported provider's entry changes, to the specified health with its name and the time of the success |
| Router.Router.ReportFailure | src/router.cpp:221-234 | only the reported provider's entry changes, to the specified health with its name and the time of the error |
| Routing.OffersAre | src/router.cpp:168-186 | the pairs considered are exactly the models of enabled providers that are unknown or available |
| Routing.CostIsMinimal | src/router.cpp:53-89 | if some open provider has a model priced below 1e9, the cost strategy reports the lowest price, and the pair it takes is open and has that price unless the cheapest pair found first is of a provider with an empty name |
| Routing.CheapestIsMinimal | src/router.cpp:56-75 | the scan ends with the first of the cheapest priced pairs, or with none exactly when nothing costs less than 1e9 |
| Routing.OnLastResortExactly | src/router.cpp:77-78 | the scan's result is discarded if and only if nothing open is priced below 1e9 or the first of the cheapest pairs is of a provider with an empty name |
| Routing.CostIgnoresHealthExactly | src/router.cpp:77-86 | the cost strategy names an unavailable provider if and only if it is on its last resort and the first enabled provider with models is named and unavailable |
| Routing.LatencyIsMinimal | src/router.cpp:91-108 | the scan behind the latency strategy ends at a fastest open provider with a model, and at none exactly when there is none under 1e9 ms |
| RouteLaws.LatencyRoutes | src/router.cpp:40-111 | an unpinned request under the latency strategy goes to the first of the enabled, available entries with models of least average latency, unknown ones counting as 500 ms, with that entry's first model, or to none exactly when none is under 1e9 ms |
| RouteLaws.CostRoutes | src/router.cpp:40-89 | under cost, to the first of the cheapest open priced pairs under 1e9, reporting its price; without one, or if its provider has no name, to the first enabled entry with models |
| RouteLaws.FailoverRoutes | src/router.cpp:40-156 | under failover, to the first qualifying entry with its name's first configured model, all other qualifying entries in order as chain |
| RouteLaws.RotationRoutes | src/router.cpp:40-128 | under rotation, to the qualifying entry at the index modulo their number, the index moving on by one only then |
| RouteLaws.SmartRoutes | src/router.cpp:40-199 | under smart, to an open pair that no open pair outscores, or to none exactly when no pair is open |
| RouteLaws.SmartChain | src/router.cpp:158-199 | decision and chain are the best min(4, n) candidates in score order |
| RouteLaws.ScoreIs | src/router.cpp:173-182 | the score of any pair, of unknown or unavailable providers and unpriced models too, in closed form |
| RouteLaws.OffersInOrder | src/router.cpp:168-186 | the pairs considered are each open pair once, in configuration order |
| RouteLaws.PinnedRoutes | src/router.cpp:19-38 | a request is pinned if and only if its model, aliases resolved, has a colon; then provider and model are the parts at the first colon and the chain is the other providers known to be available, each once |
| RouteLaws.RouteKeepsStrategy | src/router.cpp:37-198 | the decision names the strategy in force |
| Routing.FailoverFollowsConfig | src/router.cpp:130-156 | decision and chain are exactly the enabled, available providers with models, in configuration order, the decision with the first model of the first configuration entry of its name that has models |
| Routing.SmartIsMaximal | src/router.cpp:158-199 | the smart decision is an open pair with the highest score, however ties are sorted |
| Routing.SmartKeepsTheBest | src/router.cpp:188-198 | decision and chain are the best min(4, n) candidates in score order, and nothing left out outscores anything kept |
| Routing.SmartMeetsCost | src/router.cpp:158-199 | with equal base scores and all models priced, smart picks at the price the cost strategy finds |
| Routing.ScoreMatchesDesign | DESIGN.md:42-46 | the score of a priced model of an available provider is the documented formula |
| Routing.RouteIsHealthyExactly | src/router.cpp:19-49 | any request, pinned or not, is routed to available or unknown providers only, chain included, if and only if the provider it is forced to (pinned to, or the cost strategy's last resort), if any, is empty or available |
| Routing.UnavailableIsForced | src/router.cpp:19-49 | an unavailable provider is decided on if and only if the request is forced to it, and is never in the chain |
| Routing.ChainExactly | src/router.cpp:40-48 | an unpinned request gets a fallback chain if and only if the strategy is failover with at least two listed providers or smart with at least two open pairs |
| Routing.PinnedChainExactly | src/router.cpp:25-38 | a pinned request gets one if and only if another provider is known to be available |
| Routing.PinnedFallbacks | src/router.cpp:25-38 | a pinned request keeps its provider whatever its health and falls back exactly on the other providers known to be available |
| Routing.RotationIsFair | src/router.cpp:113-128 | while the available list of n stays the same, m rotations pick every position floor(m/n) or ceil(m/n) times, whatever pinned requests and reports are interleaved |
| Routing.RotationChooses | src/router.cpp:125-127 | the position the index points at is the provider chosen |
| GatewayRotation.IndexStep | src/router.cpp:113-128 | over gateway events the rotation index moves by one at exactly the unpinned requests past the limiter and the cache that find a provider listed under round robin |
| GatewayRotation.RotatedCalls | src/router.cpp:125-127 | such a request calls the provider at the index, if it is named and registered, and no other |
| GatewayRotation.RotationIsFair | src/router.cpp:113-128 | over any stretch of any gateway run in which every event finds the same n providers listed, the m requests so routed pick every position floor(m/n) or ceil(m/n) times |
| RouterModel.Colon | src/router.cpp:26-29 | a pinned target is split at its first colon |
| GatewayRuns.SpendIsConserved | src/api/chat_completions.cpp:94-231 | over any run the tracker's state is that of recording exactly the served replies, and the cost of all successful replies, hits counted at their stored cost, is the total so recorded plus the cache savings |
| GatewayRuns.ReportedTotalsAddUp | src/api/chat_completions.cpp:203-220 | the history is the last records of the served replies, and until one is dropped the summary total plus the savings is the cost of all replies |
| GatewayRuns.SpendPerKey | src/api/chat_completions.cpp:203-220 | the spend of an API key is exactly what its provider-served replies cost |
| GatewayRuns.RefusedRequestsAreFree | src/api/chat_completions.cpp:94-201 | requests answered 429, 502 or 503 change neither costs nor savings, latencies nor tokens, and cache nothing |
| GatewayCalls.DispatchCalls | src/api/chat_completions.cpp:157-195 | a request calls its primary with the decided model, then the callable providers of the chain in order, each with its first registered model, until one succeeds, all of them if none does; all but possibly the last call fail; it succeeds exactly when the last does, a fallback's answer carrying that fallback's name; each call is reported exactly once, in order |
| GatewayAnswers.DispatchAnswers | src/api/chat_completions.cpp:161-195 | call i is answered if and only if an attempt of the i-th provider called returns within its retries; there is an answer if and only if the last call is answered, and it is the first response returned, under the fallback's name if it is a fallback |
| GatewayAnswers.RequestEnds | src/api/chat_completions.cpp:94-209 | a request is limited or cached without a call, or ends in 503 without a call exactly when its decision names no registered provider, in 502 exactly when its last call is not answered, and otherwise with that answer changed only in its request id and in its cost, which is that of its tokens at the current prices, 0.002 per thousand for unpriced models |
| GatewayCalls.EligibleInOrder | src/api/chat_completions.cpp:174-182 | the callable providers are a subsequence of the chain |
| GatewayCalls.AtMostOneCall | src/router.cpp:53-128 | an unpinned request under cost, latency or rotation makes at most one provider call |
| GatewayCalls.HealthProjects | src/api/chat_completions.cpp:157-195 | over any run the health of a provider is that of the history of its own calls, in order |
| GatewayCalls.UnavailableExactly | src/router.cpp:203-234 | after any run a provider is unavailable if and only if its last call failed and its error rate over its own calls exceeds one half |
| GatewayCalls.CalledExactly | src/api/chat_completions.cpp:94-195 | a provider unavailable when a request starts is called if and only if the request gets past the limiter, misses the cache, and is forced to that provider, which is registered; if not called, its health does not change |
| GatewayCalls.RevivedExactly | src/api/chat_completions.cpp:157-195 | an unavailable provider becomes available by exactly the events that are such requests with their call answered, on a retry or not |
| GatewayCalls.StaysOutExactly | src/api/chat_completions.cpp:144-195 | over any run, a provider unavailable at some point stays so to the end if and only if no later event revives it |
| GatewayCalls.UnavailableOnlyGrows | src/api/chat_completions.cpp:144-195 | over any run the set of unavailable providers only grows if and only if no event revives one that is unavailable at that time |
| GatewayCalls.PinnedRequestRevives | src/router.cpp:25-38 | a request pinned to an unavailable registered provider that misses the cache and is answered within its retries calls it alone and makes it available, its error rate only a twentieth lower |
| GatewayCalls.SixFailuresThenCalled | src/router.cpp:221-234 | from a fresh gateway, six failed requests to one provider make it unavailable, the next request sent to it still calls it, and that call puts it back if and only if it is answered |
| GatewayCalls.PinnedIsReached | src/router.cpp:25-38 | six failed pinned requests, then an answered one: the provider is unavailable before, called, and available after |
| GatewayCalls.LastResortIsReached | src/router.cpp:77-86 | with one enabled provider under the cost strategy six failed requests bring its last resort down, and the seventh request calls it all the same |
| Witness.SmallGatewayReachesIt | src/router.cpp:77-86 | a concrete configuration and run in which that happens |
| GatewayRuns.CountersAddUp | src/api/chat_completions.cpp:49-201 | requests are those refused as malformed plus limited answers plus hits plus misses, and misses are served replies plus errors |
| GatewayRuns.LatencyWindow | src/api/chat_completions.cpp:227-228 | the latency window is a suffix of the latencies of all served replies |
| GatewayAnswers.TokensAddUp | src/utils/metrics.cpp:29-31 | the token counter is the total of the tokens of all served replies |
| GatewayAnswers.RecordsMirrorReplies | src/api/chat_completions.cpp:211-220 | every cost record mirrors the reply to one request of the run in id, key, provider, model, tokens, latency and cost |
| GatewayTraffic.KeyTrafficBounded | src/api/chat_completions.cpp:94-106 | in any interval of length L >= 1 ns, at most (1 + ceil((L - 1 ns) / 60 s)) * rpm_limit requests of one API key get an answer other than 429, whatever the rest of the gateway does |
| GatewayLimits.NothingPasses | src/middleware/rate_limiter.cpp:30-38 | with a token limit below 6, the least estimate of a request with messages, every keyed request is answered 429 |
| GatewayLimits.TrafficBounded | src/api/chat_completions.cpp:94-106 | the maximum of the gateway: nothing below that token limit, the limiter's exact maximum from there on |
| GatewayLimits.TrafficReached | src/api/chat_completions.cpp:94-106 | for every configuration, key and length some run of requests with messages and an ordered clock reaches that maximum |
| GatewayTraffic.TokensBounded | src/api/chat_completions.cpp:95-225 | after any run the tokens counted in a key's window are 0 or exceed tpm_limit by no more than the last served reply's tokens less its estimate, which is at least 2 |
| GatewayLimits.TokensReached | src/api/chat_completions.cpp:95-225 | with rpm_limit at least 2 the bound is reached: when a first answer fills the window up to a second request's estimate, that request is served and its tokens all come on top |
| GatewayTraffic.PassedAreAdmitted | src/api/chat_completions.cpp:94-106 | the requests of a key not answered 429 are exactly those its own bucket admits in a run of its own |
| GatewayTraffic.HitWasServedBefore | src/api/chat_completions.cpp:108-231 | a cached answer is the latest one served by a provider to an earlier request with the same cache key, not cleared since and within the TTL |
| GatewayAnswers.HitHasSameText | src/cache.cpp:20-76 | if the hash separates the texts of the run, the earlier request a cached answer was served to has the same text, and so the same model, messages and, with match_params, parameters when both are free of separators or this one's text is unambiguous |
| GatewayAnswers.DisabledNeverAnswers | src/cache.cpp:36-40 | over any run of a gateway whose cache is disabled nothing is stored and no request is answered from it |
| GatewayTraffic.CacheProjects | src/api/chat_completions.cpp:108-231 | the gateway's cache is that of a lookup per request let past the limiter and a store per served non-stream reply |
| Gateway.Gateway.constructor | src/cost_tracker.cpp:13-18 | a new gateway starts with fresh, empty parts, the tracker holding the configured prices and the metrics their start time |
| GatewayLive.Serve | src/api/chat_completions.cpp:45-231 | started and driven through any run of requests, malformed requests and admin actions, the live objects and the answers are those of the specified run |
| GatewayLive.Perform | src/api/admin.cpp:131-148 | one event of any kind, clearing the cache and setting strategy or price included, takes the live objects to the specified next state with the specified answer |
| Gateway.Gateway.Handle | src/api/chat_completions.cpp:94-231 | the live objects after a request stand for the specified joint state, with the specified reply and provider calls; objects it adds are new |
| Gateway.Gateway.RejectMalformed | src/api/chat_completions.cpp:49-72 | a request refused with 400 is counted and changes nothing else |
| Gateway.Gateway.CallFallbacks | src/api/chat_completions.cpp:173-194 | the fallback loop calls registered providers in chain order until one succeeds and reports on each |
| TokenCounter.Tokenize | src/utils/token_counter.cpp:27-72 | the stateful scanner with its chunking loops yields the specified tokens |
| TokenCounter.TokenizeRoundTrip | src/utils/token_counter.cpp:27-72 | tokenizing the tokens of any text joined with spaces gives the same tokens |
| TokenCounter.TokensCoverText | src/utils/token_counter.cpp:27-72 | the tokens concatenated are the text without whitespace other than newlines |
| TokenCounter.TokensAreSmall | src/utils/token_counter.cpp:27-72 | every token is a word piece of 1 to 4 characters, a punctuation mark or a newline |
| TokenCounter.CountFormula | src/utils/token_counter.cpp:7-15 | the count is punctuation plus newlines plus ceil(len/4) over the maximal word runs |
| TokenCounter.LeadingIsMaximal | src/utils/token_counter.cpp:58-61 | the runs counted are maximal: all word characters, ended by a separator or the text |
| TokenCounter.TrailingIsMaximal | src/utils/token_counter.cpp:58-61 | the run at the end of a text is maximal too: all word characters, begun by a separator or the text |
| TokenCounter.CountConcat | src/utils/token_counter.cpp:7-15 | count(a + b) is count(a) + count(b) less exactly what merging the word run across the seam saves, which is 0 or 1 |
| TokenCounter.CountAll | src/utils/token_counter.cpp:17-25 | the accumulating loop computes the specified total |
| TokenCounter.CountMessagesConcat | src/utils/token_counter.cpp:17-25 | message totals are additive up to the two priming tokens |
| TokenCounter.CountMessagesFormula | src/utils/token_counter.cpp:17-25 | the estimate is 2, plus 4 per message, plus the marks and the pieces of the word runs of each content |
| TokenCounter.SeparatorsAre | src/utils/token_counter.cpp:27-72 | punctuation and whitespace are the characters the C locale says |
| GatewayAnswers.LimitedExactly | src/api/chat_completions.cpp:94-106 | a keyed request is answered 429 if and only if its key's window, started over after 60 whole seconds, has no request left or too few tokens for that estimate |
| GatewayAnswers.TooLargeIsLimited | src/middleware/rate_limiter.cpp:32-38 | after any run a request whose estimate alone exceeds the limit is answered 429, unless negative charges left a credit |
| CostRuns.HistoryIsSuffix | src/cost_tracker.cpp:35-61 | after any run the history is exactly the last min(n, 100000) records in order, as billed |
| CostRuns.SpendIsTotal | src/cost_tracker.cpp:48-73 | a key's spend is the sum of all its billed records, dropped ones included |
| CostRuns.SummaryWithinSpend | src/cost_tracker.cpp:69-93 | with non-negative costs a key's summary never exceeds its spend and equals it until the first record is dropped |
| CostRuns.GroupsAddUp | src/cost_tracker.cpp:75-93 | in any summary the sums by provider and by model both equal the total |
| CostRuns.SummaryIs | src/cost_tracker.cpp:75-93 | a summary's total and request count, its cached savings and count, are those of the records its key asks for; a provider is listed if and only if such a record has it, with what those of that provider cost, and so for each model |
| CostRuns.EstimateUsesPricing | src/cost_tracker.cpp:20-33 | the estimate is linear in the price get_pricing reports, default included |
| CostRuns.BilledIs | src/cost_tracker.cpp:38-46 | a stored record of a priced model is billed at its two prices per thousand tokens, any other keeps the cost it came with |
| CostRuns.BilledAtEstimate | src/cost_tracker.cpp:35-46 | re-billing a record that carries the estimate changes nothing |
| CostTracker.CostTracker.Record | src/cost_tracker.cpp:35-61 | re-bills, adds to the key's spend and appends, dropping the oldest record when full |
| CostTracker.CostTracker.GetSummary | src/cost_tracker.cpp:75-93 | the accumulating loop computes the specified summary |
| CostTracker.CostTracker.GetRecent | src/cost_tracker.cpp:95-99 | the last min(limit, size) records |
| Metrics.WindowIsSuffix | src/utils/metrics.cpp:20-27 | the window is a suffix of all observations, of an exactly known length of at most 10000 |
| Metrics.FewExceedP99 | src/utils/metrics.cpp:45-55 | strictly fewer than 1% of the window exceed the reported p99, which is one of its values |
| Metrics.EnoughReachP99 | src/utils/metrics.cpp:45-55 | at least 1% of the window reach the reported p99 |
| Metrics.SumConcat | src/utils/metrics.cpp:47 | the sum behind the mean is additive and of one latency that latency |
| Metrics.Metrics.ObserveLatency | src/utils/metrics.cpp:20-27 | appends, and drops the oldest 5000 beyond 10000 |
| Metrics.Metrics.TakeSnapshot | src/utils/metrics.cpp:33-58 | counters, uptime in seconds, exact mean and order statistic of the window, zero when empty |
| Retry.WithRetry | src/providers/base_provider.cpp:62-77 | returns the first success after k failures having slept exactly 100 * (2^k - 1) ms, or the last failure after max_retries + 1 tries |
| Retry.CallIs | src/providers/base_provider.cpp:62-77 | a call returns if and only if an attempt within its retries does, with the first that does |
| Retry.DelaysFitExactly | src/providers/base_provider.cpp:70-73 | all delays fit a 32-bit int if and only if max_retries is at most 25 |

## Left out

- HTTP server, JSON, headers, request ids, status bodies, Prometheus text: library plumbing around the modelled logic; which bodies are malformed is not modelled, only that such a request is counted.
- The four concrete providers and the outbound HTTP call: each attempt is an arbitrary success or failure.
- The legacy `/chat` endpoint: a simpler path without limiter, fallback or cost record.
- Auth and key management, config loading and the admin endpoints; clearing the cache, setting the strategy and setting a price are modelled as events between requests.
- Threads and mutexes: each request is one atomic step, and each locked method is one; overlapping requests, and the unlocked counter accesses of the cache, are not modelled.
- Floating-point rounding and machine integer overflow: reals and ideal integers; the rotation index and the counters never wrap.
- Bytes above 127 and other locales in the tokenizer: characters are classified as in the C locale, everything else is a word character.
- Cache.Cache.Put: an enabled cache with a limit of 0 is excluded for non-stream stores, where the eviction loop of the original never ends; `Gateway` and the run theorems assume a configuration without it.
- LimiterRuns.AdmissionsBounded: covers runs without `reset` of the key; a reset starts a fresh window at once.
- CostTracker.CostTracker.GetRecent: a negative limit is undefined behaviour in the original and is excluded by the type.
- Metrics.FewExceedP99: the index is computed exactly, not in binary floating point.
- The raw provider response, `hit_rate`, `get_stats`, `get_health` and `check_budget` (always true): read by no modelled decision.
- Sleeping itself: `WithRetry` returns how long it slept.
