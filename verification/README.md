# requests-middleware, modelled in Dafny

requests-middleware adds a middleware stack to requests' `HTTPAdapter`.
`MiddlewareHTTPAdapter` holds an ordered list of middlewares. Each middleware
has four hooks:

- `before_init_poolmanager` contributes keyword arguments to the connection pool;
- `before_send` may answer a request itself or let it go on;
- `before_build_response` transforms the request and raw response pair;
- `after_build_response` transforms the built `Response`.

The contrib package ships middlewares built on these hooks. This project
models the adapter and three of them: request throttling, robots.txt
enforcement and HTTP caching with cachecontrol.

Modules:

- `Http` (`http.dfy`): requests, urllib3 raw responses, requests responses,
  and the exceptions a send can end with. It also holds the two pieces of
  Python `datetime` arithmetic the throttlers use, `timedelta.seconds` and
  `datetime.hour`, over times in whole seconds.
- `Pipeline` (`pipeline.dfy`): the adapter. A middleware is a record of four
  total functions: three hooks over a state type `S`, which carries the
  middleware's mutable attributes through every call, and one stateless
  pool hook. `before_send` results are tagged by
  how `send` inspects them: a `Response`, a raw `HTTPResponse`, a falsy
  value, another truthy value, or an exception. The inherited
  `HTTPAdapter.send` and `HTTPAdapter.build_response` are a `Transport`
  oracle. Every run returns the trace of hook and transport calls, so order
  and short-circuit rules can be stated.
- `Throttle` (`throttle.dfy`): `DelayThrottler`, `RequestPerTimeThrottler`,
  `per_hour_resetter` and `ThrottleMiddleware`, as written. The current time
  is an explicit argument. Beside the checks as written stand corrected
  checks, the intended halves of the findings below; the middleware does not
  use them.
- `Robots` (`robots.dfy`): the disallow check and the per-agent, per-host
  crawl-delay bookkeeping of `RobotsMiddleware`, as written, with a corrected
  crawl-delay check beside it for the findings below. robots.txt answers and
  hostname extraction are the oracle `Rules`.
- `CacheControl` (`cachecontrolware.py`'s logic, in `cachecontrol.dfy`):
  which requests consult the cache, when a 304 is replaced, when `from_cache`
  becomes true, and when PUT or DELETE invalidate a key. The cachecontrol
  `CacheController` is the oracle `Controller`, and the cache is a map from
  cache key to entry.
- `Scenarios` (`scenarios.dfy`): the repository's test cases and
  adapter-level consequences of the middlewares, as lemmas over adapters
  with one or two middlewares mounted, including the findings' defects shown
  through `send`.

## Model

| member | source | states |
|---|---|---|
| Http.TimedeltaSeconds | requests_middleware/contrib/throttleware.py:35-36 | `elapsed.seconds` lies in [0, 86400), differs from the gap by whole days, and equals the gap when the gap is under a day |
| Http.HourOfDay | requests_middleware/contrib/throttleware.py:64 | `datetime.hour` lies in [0, 24) and is the number of whole hours in the within-day part of the instant |
| Pipeline.Base | requests_middleware/middleware.py:95-135 | every `BaseMiddleware` hook is an identity: no pool arguments, `None` from `before_send`, the pair and the response passed on unchanged |
| Pipeline.Register | requests_middleware/middleware.py:24-29 | `register` appends the middleware at the end and leaves the earlier list unchanged |
| Pipeline.FoldReversed | requests_middleware/middleware.py:39-44 | `kwargs.update(value or {})` only ever adds keys: the starting keys stay and every key any middleware returns arrives |
| Pipeline.FoldReversedPrecedence | requests_middleware/middleware.py:39-44 | the reverse-order `update` fold keeps a key iff some value sets it; on a conflict the earliest-registered value wins; a falsy value contributes nothing |
| Pipeline.FoldedKwargs | requests_middleware/middleware.py:39-44 | folding from an empty dict yields exactly the keys some middleware returns, each with the earliest-registered middleware's value |
| Pipeline.ReservedKeyReachesKwargs | requests_middleware/middleware.py:50-53 | `num_pools`, `maxsize` or `block` reaches `**kwargs` iff some middleware returns that name |
| Pipeline.InitPoolmanager | requests_middleware/middleware.py:31-53 | the pool gets `connections`, `maxsize` and `block`; its keyword arguments are the union of all contributions, with the earliest-registered middleware winning; a contribution naming `num_pools`, `maxsize` or `block` makes `PoolManager` raise `TypeError`, and only then |
| Pipeline.BeforeBuildChain | requests_middleware/middleware.py:87-88 | the `before_build_response` hooks run last-registered first, each on the pair the previous one returned |
| Pipeline.AfterBuildChain | requests_middleware/middleware.py:90-91 | the `after_build_response` hooks run last-registered first, all on the same pair, chaining the response |
| Pipeline.BuildResponse | requests_middleware/middleware.py:77-92 | `build_response` calls every `before_build_response` in reverse order, then the transport's build once on the pair the before-chain returned, then every `after_build_response` in reverse order on that pair; the result and state are the after-chain's; with no middleware it is the transport's build |
| Pipeline.BuildResponseRegisteredLast | requests_middleware/middleware.py:87-92 | after `register(m)`, `m.before_build_response` runs first on the pair as given, the earlier middlewares transform its output, the transport builds from theirs, and `m.after_build_response` runs first on the transport's response |
| Pipeline.ChainsIgnoreLaterMiddlewares | requests_middleware/middleware.py:87-91 | registering another middleware does not change what the earlier ones do while a response is built |
| Pipeline.RegisteredLastBuildsFirst | requests_middleware/middleware.py:87-91 | the most recently registered middleware sees the raw pair first and the transport's response first |
| Pipeline.RegisteredFirstBuildsLast | requests_middleware/middleware.py:87-89 | the earliest registered middleware's `before_build_response` runs last, on the pair all the others produced |
| Pipeline.SendFrom | requests_middleware/middleware.py:55-75 | `send` consults the middlewares in registration order, starting with the first, and calls the transport first when none is left |
| Pipeline.Send | requests_middleware/middleware.py:64-65 | the first call of a send is the first middleware's `before_send`, or the transport when there is none |
| Pipeline.SendAfterConsulting | requests_middleware/middleware.py:64-70 | once the first `k` middlewares have returned falsy values, the send continues from middleware `k` with the state and request they left, after exactly those `k` calls |
| Pipeline.SendShortCircuitsOnResponse | requests_middleware/middleware.py:64-67 | the first `Response` from `before_send` is the result unchanged; no later `before_send`, transport send or build happens |
| Pipeline.SendBuildsRawResponse | requests_middleware/middleware.py:68-69 | a raw `HTTPResponse` from `before_send` goes through the whole of `build_response` and nothing else |
| Pipeline.SendStopsOnOtherValue | requests_middleware/middleware.py:70-72 | another truthy value raises `ValueError`, an exception from the hook escapes, and nothing later runs |
| Pipeline.SendFallsThroughToTransport | requests_middleware/middleware.py:73-75 | when every middleware continues, the transport send is called once, after all of them, with the request they left; its error is the result, otherwise its raw response is built |
| Pipeline.TransportIffAllContinue | requests_middleware/middleware.py:64-75 | the transport is sent to iff every middleware's `before_send` continues, and never twice |
| Pipeline.RegisterKeepsEarlierConsultation | requests_middleware/middleware.py:24-29 | appending a middleware does not change what the earlier ones see or return in `send` |
| Pipeline.SendThroughOneMiddleware | requests_middleware/middleware.py:55-92 | with one middleware, the send result for each kind of `before_send` value: returned response, `ValueError`, escaped exception, or the build chain on a raw response, whether given by the hook or by the transport |
| Pipeline.BaseConsultation | requests_middleware/middleware.py:105-114 | base middlewares let every request through, unchanged |
| Pipeline.BaseBeforeBuild | requests_middleware/middleware.py:116-124 | base middlewares leave the pair unchanged |
| Pipeline.BaseAfterBuild | requests_middleware/middleware.py:126-135 | base middlewares leave the response unchanged |
| Pipeline.BasePipelineIsBareTransport | requests_middleware/middleware.py:95-135 | an adapter of base middlewares passes no pool arguments, keeps its state, and returns what the bare transport returns |
| Throttle.NewDelayThrottler | requests_middleware/contrib/throttleware.py:28-30 | a new delay throttler keeps the given delay and has no last visit |
| Throttle.DelayCheckBeforeStore | requests_middleware/contrib/throttleware.py:32-34 | `DelayThrottler.check` never raises before any `store` |
| Throttle.DelayCheckAsWritten | requests_middleware/contrib/throttleware.py:32-37 | the check only raises `ThrottleError`, never before a store, and for gaps under a day raises iff fewer than `delay` seconds have passed |
| Throttle.DelayStore | requests_middleware/contrib/throttleware.py:39-40 | `store` sets `last_visit` to now and keeps the delay |
| Throttle.DelayStoreThenCheckAsWritten | requests_middleware/contrib/throttleware.py:32-40 | after `store` at `t`, the check as written at `t'` raises iff the seconds component of `t' - t` is below the delay; `store` keeps the delay |
| Throttle.DelayStoreThenCheck | requests_middleware/contrib/throttleware.py:32-40 | after `store` at `t`, the corrected check raises iff fewer than `delay` seconds have passed |
| Throttle.DelayChecksAgreeWithinADay | requests_middleware/contrib/throttleware.py:35-36 | for gaps under a day the check as written and the corrected check agree |
| Throttle.DelayCheckMonotone | requests_middleware/contrib/throttleware.py:35-37 | for the corrected check (whole gap), a check that passes keeps passing later; `Throttle.DelayCheckAsWrittenThrottlesADayLater` shows the check as written does not |
| Throttle.DelayCheckAsWrittenThrottlesADayLater | requests_middleware/contrib/throttleware.py:35-37 | with delay 5, the check as written passes 6 s after a store but raises a whole day after it; the corrected check passes |
| Throttle.NewRateThrottler | requests_middleware/contrib/throttleware.py:45-49 | a new rate throttler keeps `count` and the resetter, has counted no visits, and was last reset now |
| Throttle.RateCheckAfterReset | requests_middleware/contrib/throttleware.py:51-56 | when the resetter fires, the count becomes 0 and `last_reset` becomes now, so the check passes iff `count > 0` |
| Throttle.RateCheckWithoutReset | requests_middleware/contrib/throttleware.py:51-56 | without a reset the check changes nothing and raises iff `visit_count >= count` |
| Throttle.RateCheck | requests_middleware/contrib/throttleware.py:51-56 | the check only raises `ThrottleError`, raises iff the count after the optional reset is at least `count`, keeps `count` and the resetter, and either resets the count to 0 or changes nothing |
| Throttle.RateStore | requests_middleware/contrib/throttleware.py:58-59 | `store` adds exactly one to `visit_count` and changes nothing else |
| Throttle.RoundsUpToCount | requests_middleware/contrib/throttleware.py:51-59 | without a reset, `count - visit_count` check-then-store rounds succeed, each adding one visit, and the next check raises |
| Throttle.PerHourResetterFiresOnNewHour | requests_middleware/contrib/throttleware.py:62-64 | the corrected resetter fires iff a later clock hour has begun, so always once an hour has passed |
| Throttle.PerHourResettersAgreeWithinADay | requests_middleware/contrib/throttleware.py:62-64 | when the two instants are less than 24 clock hours apart, the resetter as written and the corrected one agree |
| Throttle.PerHourResetterAsWrittenMissesADay | requests_middleware/contrib/throttleware.py:62-64 | the resetter as written does not fire one day and one second later; the corrected one does |
| Throttle.PerHourResetterAsWritten | requests_middleware/contrib/throttleware.py:62-64 | `per_hour_resetter` never fires for a time not strictly later, and fires only where the date-aware resetter does |
| Throttle.RequestsPerHourThrottler | requests_middleware/contrib/throttleware.py:67-70 | a fresh rate throttler with `count`, no visits, `last_reset` now, reset by `per_hour_resetter` as written |
| Throttle.PerHourFiveThenRefusedThenReset | tests/test_throttle.py:58-66 | a per-hour throttler of 5, with the resetter as written, allows five check-then-store rounds, refuses the sixth, and passes again two hours later |
| Throttle.Check | requests_middleware/contrib/throttleware.py:32-56 | a delay throttler's check is `DelayThrottler.check` as written and never changes the throttler; a rate throttler's check is `RequestPerTimeThrottler.check`, state and outcome, and never raises the visit count; every refusal is `ThrottleError` |
| Throttle.Store | requests_middleware/contrib/throttleware.py:39-59 | a delay throttler's store records now and keeps the delay; a rate throttler's store adds one visit and changes nothing else |
| Throttle.ThrottleMiddleware | requests_middleware/contrib/throttleware.py:73-83 | `before_send` only checks: it keeps the request, returns `None` iff the check passes and raises `ThrottleError` otherwise; `before_build_response` is the identity; `after_build_response` only stores and returns the response unchanged |
| Robots.RecordVisit | requests_middleware/contrib/robotware.py:44 | `visited[agent][host] = now` sets that entry and no other |
| Robots.CheckDisallow | requests_middleware/contrib/robotware.py:28-30 | `check_disallow` raises `RobotsDisallowedError` iff the rules say the url is not allowed for the agent |
| Robots.NoDelayLeavesVisited | requests_middleware/contrib/robotware.py:32-35 | with no crawl delay, the check passes and `visited` is unchanged |
| Robots.CheckCrawlDelayAsWritten | requests_middleware/contrib/robotware.py:32-44 | `check_crawl_delay` raises only `RobotsThrottledError`, records nothing when it raises, and agrees with the whole-gap check whenever the last visit is less than a day old |
| Robots.FirstVisitRecorded | requests_middleware/contrib/robotware.py:36-44 | a first visit by an agent to a host passes and records now, under the check as written and the corrected one |
| Robots.RepeatVisit | requests_middleware/contrib/robotware.py:36-44 | for the corrected check (whole gap): a repeat visit raises `RobotsThrottledError` iff the delay has not elapsed, and then records nothing; otherwise it records now |
| Robots.RepeatVisitAsWritten | requests_middleware/contrib/robotware.py:39-44 | the check as written raises iff the seconds component of the gap is below the delay, then with `RobotsThrottledError` and recording nothing; otherwise it overwrites the time with now |
| Robots.CheckTouchesOnlyItsEntry | requests_middleware/contrib/robotware.py:44 | a check writes only its own agent and host entry, so other agents and hosts are unaffected |
| Robots.CrawlDelayMonotone | requests_middleware/contrib/robotware.py:39-41 | for the corrected check (whole gap), a visit that passes would keep passing later; `Robots.CrawlDelayAsWrittenThrottlesADayLater` shows the check as written does not |
| Robots.CrawlDelayAsWrittenThrottlesADayLater | requests_middleware/contrib/robotware.py:39-41 | with delay 1, the check as written passes 5 s after a visit but raises a whole day after it; the corrected check passes |
| Robots.UserAgent | requests_middleware/contrib/robotware.py:48 | the agent is the `User-Agent` header when there is one, and absent otherwise |
| Robots.BeforeSend | requests_middleware/contrib/robotware.py:46-50 | the disallow check runs first; a disallowed request raises and records no visit; otherwise `check_crawl_delay` as written decides |
| Robots.RobotsMiddleware | requests_middleware/contrib/robotware.py:46-50 | `before_send` leaves the visits `RobotsMiddleware.before_send`'s checks leave and returns `None` iff they pass, raising their error otherwise, with the crawl delay checked as written; so it returns `None` or one of the two robots errors, never answers itself, never changes the request, and leaves the visits alone on a disallow; the build hooks are identities |
| CacheControl.BeforeSend | requests_middleware/contrib/cachecontrolware.py:28-36 | a non-GET request goes on unchanged with the cache untouched; a GET either returns a cached raw response or goes on; verb and url are kept |
| CacheControl.NonGetNeverConsultsCache | requests_middleware/contrib/cachecontrolware.py:32 | for a non-GET request the controller's answers make no difference |
| CacheControl.GetHitShortCircuits | requests_middleware/contrib/cachecontrolware.py:33-35 | a GET the cache answers returns the cached response, short-circuiting the send |
| CacheControl.GetMissAddsConditionalHeaders | requests_middleware/contrib/cachecontrolware.py:36 | on a GET miss the conditional headers are merged into the request, overriding same-named headers and keeping the others, and the request goes on |
| CacheControl.BeforeBuild | requests_middleware/contrib/cachecontrolware.py:38-70 | the request is returned unchanged and the response always carries a `from_cache` boolean |
| CacheControl.FromCachePassesThrough | requests_middleware/contrib/cachecontrolware.py:42-44 | a response already from cache gets no 304 handling and no wrapping, keeps `from_cache` true, and does not depend on the heuristic or on any controller method other than `cache_url`, which an ok PUT or DELETE still invalidates |
| CacheControl.NotModifiedReplaced | requests_middleware/contrib/cachecontrolware.py:45-51 | a GET 304 not from cache is replaced by the controller's updated response; `from_cache` becomes true iff that is a different response |
| CacheControl.FullResponseWrappedForDeferredCaching | requests_middleware/contrib/cachecontrolware.py:52-62 | any other GET response is not stored now; its body is wrapped to hand request and response to `cache_response` once read, after the heuristic if one is set |
| CacheControl.InvalidationOnlyOnOkMutation | requests_middleware/contrib/cachecontrolware.py:64-66 | for a non-GET request the response is unchanged except for `from_cache`; the cache loses the url's key iff the method is PUT or DELETE and the response is ok; no other entry changes |
| CacheControl.InvalidationIdempotent | requests_middleware/contrib/cachecontrolware.py:64-66 | invalidating twice is invalidating once, and deleting an absent key changes nothing |
| CacheControl.CacheMiddleware | requests_middleware/contrib/cachecontrolware.py:28-70 | `before_send` is the cache middleware's `before_send` and `before_build_response` its `before_build_response`, over the same controller and heuristic; no pool arguments; `before_send` never raises, only continues or answers with a raw response, and passes non-GET requests through untouched; `before_build_response` keeps the request and always sets `from_cache`; `after_build_response` is the identity |
| Scenarios.SourceAddressReachesPool | tests/test_source.py:25-28 | a `SourceMiddleware("localhost", 8080)` puts exactly `source_address = ("localhost", 8080)` into the pool arguments |
| Scenarios.TwoPoolMiddlewaresCombine | requests_middleware/middleware.py:39-44 | with two middlewares that set no explicit pool argument, the pool is built, a key the second sets reaches it, and it carries the first middleware's value when that one sets the key too |
| Scenarios.ThrottledSend | requests_middleware/contrib/throttleware.py:78-83 | a send through a throttle middleware raises `ThrottleError` iff the check refuses; otherwise it returns the transport's response and stores the visit |
| Scenarios.ThrottleDelayFirstRequest | tests/test_throttle.py:72-74 | with a 5-second delay throttler, the first request goes through and stores its time |
| Scenarios.ThrottleDelaySecondRequestRefused | tests/test_throttle.py:75-76 | a second request at the same moment raises `ThrottleError` |
| Scenarios.ThrottleDelayLaterRequestPasses | tests/test_throttle.py:77-79 | a request six seconds later goes through |
| Scenarios.ThrottleDelayADayLaterRefused | requests_middleware/contrib/throttleware.py:35-37 | through the adapter, a request exactly a day after the stored one raises `ThrottleError`, as the check is written |
| Scenarios.RobotsDelayADayLaterRefused | requests_middleware/contrib/robotware.py:38-41 | through the adapter, with a one-second crawl delay, a visit exactly a day after the last one raises `RobotsThrottledError` and records nothing, as the check is written |
| Scenarios.RobotsDelayIntegration | tests/test_robots.py:138-145 | with a 1-second crawl delay for "robot" and none for "human", "robot" then "human" pass, "robot" again at once raises `RobotsThrottledError`, and "robot" five seconds later, after the refused request, passes |
| Scenarios.RobotsDisallowIntegration | tests/test_robots.py:127-130 | a disallowed url raises `RobotsDisallowedError` after one `before_send`, records nothing and sends nothing |
| Scenarios.CacheRespectIntegration | tests/test_cachecontrol.py:35-40 | a first GET is not from cache; a second answered 304, with the controller supplying the stored response, is from cache |
| Scenarios.CacheNoCacheIntegration | tests/test_cachecontrol.py:43-48 | two GETs the cache never answers, both 200, are both not from cache |

## Left out

- `sslware.py`: its hook returns a `PoolManager` object rather than a dict. What `dict.update` does with it is foreign behaviour, and the multi-adapter test that mounts it is left out with it.
- `cacheware.py` and `httpcacheware.py`: thin wrappers over the httpcache library, which is not part of this model.
- `sourceware.py` is used only as a concrete instance, `Scenarios.SourceMiddleware`.
- Foreign libraries are oracles with no behaviour of their own:
  - `HTTPAdapter.send`/`build_response`, `PoolManager` and urllib3;
  - cachecontrol's `CacheController`: freshness, conditional headers, 304 merging, cache keys, the serializer;
  - `CallbackFileWrapper` streaming: the wrapper is recorded, its later callback is not run;
  - the heuristic;
  - reppy's robots.txt parsing and `urlparse`'s hostname extraction.
- Wall-clock time: `datetime.utcnow()` is an explicit argument in whole seconds. All hooks of one contrib middleware within one send see the same instant. Sub-second differences are not modelled.
- Exceptions raised by `before_build_response`, `after_build_response` or `before_init_poolmanager` hooks are not modelled. Those hooks are total functions here; only `before_send` and the transport's send can raise. The transport's build is total too.
- `before_init_poolmanager` is stateless here: it sees no middleware state and changes none. Side effects of that hook, and the last-registered-first order in which they would happen, cannot be expressed.
- The extra arguments of `send` (`timeout`, `verify`, `proxies` and the like) are dropped. The source forwards them to every `before_send` and to the inherited `send`.
- `init_poolmanager` runs once, from `HTTPAdapter.__init__`, over the middlewares given to the constructor; a middleware added later with `register` never reaches the pool. `Pipeline.InitPoolmanager` takes any list, so that timing is the caller's to respect.
- Object identity: `update_cached_response`'s `is not` test is the oracle's tag `SameResponse`/`NewResponse`. The in-place mutation of `request.headers` and `response` is modelled as returning the new value.
- Header names are exact map keys. requests' case-insensitive header dict is not modelled.
- `response.ok` at cachecontrolware.py:64 is read on the urllib3 raw response handed to `before_build_response`, not on a requests `Response`. The model assumes it means "status not in 400..599", requests' meaning. Whether the raw response has such an attribute depends on the urllib3 version, which is not part of this model; if it has none, every PUT or DELETE through the cache middleware would raise instead.
- The `defaultdict(dict)` in `RobotsMiddleware` creates an empty entry for an agent on a read. A missing agent and an agent with no hosts are the same here, so that side effect is invisible.
- `RequestPerTimeThrottler.__init__` reads the clock, so its `now` is an argument of `NewRateThrottler`.
- The per-hour throttle integration test is covered by the unit-level `Throttle.PerHourFiveThenRefusedThenReset` and the per-request `Scenarios.ThrottledSend`; the six sends are not chained through the adapter.

## Findings

The middlewares model the code as written, so these defects are part of
them (`Scenarios.ThrottleDelayADayLaterRefused` and
`Scenarios.RobotsDelayADayLaterRefused` show the first two through the
adapter). Each corrected member states the intended behaviour of a corrected
definition kept beside the one as written.

| source | as written | input that shows it | evidently intended | confidence | as-written member | corrected member |
|---|---|---|---|---|---|---|
| requests_middleware/contrib/throttleware.py:36 | `elapsed.seconds < self.delay` compares only the within-day part of the elapsed time | delay 5, store at `t`, check at `t + 86400`: `elapsed.seconds` is 0, so the check raises | compare the whole elapsed time (`elapsed.total_seconds()`): a day later the check passes | not executed | Throttle.DelayCheckAsWrittenThrottlesADayLater | Throttle.DelayCheckMonotone |
| requests_middleware/contrib/robotware.py:40 | `(now - last_visit).seconds < delay` compares only the within-day part of the gap | crawl delay 1, visit at `t`, visit again at `t + 86400`: the seconds are 0, so it raises `RobotsThrottledError` | compare the whole gap: a day later the visit passes | not executed | Robots.CrawlDelayAsWrittenThrottlesADayLater | Robots.CrawlDelayMonotone |
| requests_middleware/contrib/throttleware.py:64 | `now.hour != when.hour` compares only the hour of the day | `when` = 00:00:00 on one day, `now` = 00:00:01 the next day: same hour, so no reset | reset once a later clock hour has begun, whatever the date | not executed | Throttle.PerHourResetterAsWrittenMissesADay | Throttle.PerHourResetterFiresOnNewHour |
