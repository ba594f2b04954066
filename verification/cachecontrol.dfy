/** requests_middleware/contrib/cachecontrolware.py: the decisions the cache
    middleware makes around the cachecontrol library. The library's
    `CacheController` (freshness, conditional headers, 304 merging, cache
    keys) and the heuristic are the oracles `Controller` and `heuristic`;
    the cache itself is a map from cache key to entry. */
module CacheControl {
  import opened Http
  import Pipeline

  type Key = string

  /** A stored response, as the controller's serializer keeps it. */
  datatype Entry = Entry(status: int, headers: Headers, body: seq<char>)

  type Cache = map<Key, Entry>

  /** The result of `update_cached_response`: the very response it was
      given, or another one (Python's `is not`). */
  datatype Update = SameResponse | NewResponse(response: RawResponse)

  /** The `CacheController` methods the middleware calls, with the cache
      made explicit: `cached_request` (which may drop stale entries),
      `conditional_headers`, `update_cached_response` (which may store the
      merged entry) and `cache_url`. */
  datatype Controller = Controller(
    cachedRequest: (Cache, Request) -> (Cache, Option<RawResponse>),
    conditionalHeaders: (Cache, Request) -> Headers,
    updateCachedResponse: (Cache, Request, RawResponse) -> (Cache, Update),
    cacheUrl: string -> Key)

  /** `INVALIDATING_METHODS`. */
  const InvalidatingMethods: set<string> := {"PUT", "DELETE"}

  /** `CacheMiddleware.before_send`. */
  function BeforeSend(ctl: Controller, cache: Cache, req: Request): (step: Pipeline.SendStep<Cache>)
    ensures req.verb != "GET" ==> step == Pipeline.SendStep(cache, req, Pipeline.ReturnsFalsy)
    ensures step.value.ReturnsFalsy? || step.value.ReturnsRaw?
    ensures step.request.verb == req.verb && step.request.url == req.url
  {
    if req.verb == "GET" then
      var (cache', hit) := ctl.cachedRequest(cache, req);
      match hit
      case Some(raw) => Pipeline.SendStep(cache', req, Pipeline.ReturnsRaw(raw))
      case None =>
        var conditional := ctl.conditionalHeaders(cache', req);
        Pipeline.SendStep(cache', req.(headers := req.headers + conditional), Pipeline.ReturnsFalsy)
    else
      Pipeline.SendStep(cache, req, Pipeline.ReturnsFalsy)
  }

  /** Only GET requests consult the controller: for any other method two
      controllers, whatever they answer, give the same step. */
  lemma NonGetNeverConsultsCache(ctl: Controller, ctl': Controller, cache: Cache, req: Request)
    requires req.verb != "GET"
    ensures BeforeSend(ctl, cache, req) == BeforeSend(ctl', cache, req)
  {
  }

  /** A GET the cache can answer is answered with the cached raw response
      and the request is left as it is. */
  lemma GetHitShortCircuits(ctl: Controller, cache: Cache, req: Request)
    requires req.verb == "GET"
    requires ctl.cachedRequest(cache, req).1.Some?
    ensures BeforeSend(ctl, cache, req) ==
      Pipeline.SendStep(ctl.cachedRequest(cache, req).0, req, Pipeline.ReturnsRaw(ctl.cachedRequest(cache, req).1.value))
  {
  }

  /** On a GET miss the conditional headers are merged into the request,
      overriding headers of the same name and keeping all others, and the
      request goes on. */
  lemma GetMissAddsConditionalHeaders(ctl: Controller, cache: Cache, req: Request)
    requires req.verb == "GET"
    requires ctl.cachedRequest(cache, req).1.None?
    ensures var step := BeforeSend(ctl, cache, req);
      var conditional := ctl.conditionalHeaders(ctl.cachedRequest(cache, req).0, req);
      && step.value == Pipeline.ReturnsFalsy
      && step.request.headers.Keys == req.headers.Keys + conditional.Keys
      && (forall name :: name in conditional ==> step.request.headers[name] == conditional[name])
      && (forall name :: name in req.headers && name !in conditional ==> step.request.headers[name] == req.headers[name])
  {
  }

  /** `CacheMiddleware.before_build_response`. */
  function BeforeBuild(ctl: Controller, heuristic: Option<RawResponse -> RawResponse>, cache: Cache, req: Request, resp: RawResponse): (step: Pipeline.BuildStep<Cache>)
    ensures step.request == req
    ensures step.raw.fromCache.Some?
  {
    var fromCache := FromCache(resp);
    var (cache1, resp1, fromCache1) :=
      if req.verb == "GET" && !fromCache then
        if resp.status == 304 then
          var (cache', update) := ctl.updateCachedResponse(cache, req, resp);
          match update
          case SameResponse => (cache', resp, fromCache)
          case NewResponse(merged) => (cache', merged, true)
        else
          var r := if heuristic.Some? then heuristic.value(resp) else resp;
          (cache, r.(body := CacheWriting(r.body, req, r)), fromCache)
      else (cache, resp, fromCache);
    var cache2 :=
      if req.verb in InvalidatingMethods && IsOk(resp1.status) then cache1 - {ctl.cacheUrl(req.url)} else cache1;
    Pipeline.BuildStep(cache2, req, resp1.(fromCache := Some(fromCache1)))
  }

  /** A response already served from cache is passed on untouched, still
      marked as from cache. The step does not depend on the heuristic or on
      any controller method other than `cache_url`, which a PUT or DELETE
      still uses to invalidate. */
  lemma FromCachePassesThrough(ctl: Controller, ctl': Controller, heuristic: Option<RawResponse -> RawResponse>, cache: Cache, req: Request, resp: RawResponse)
    requires FromCache(resp)
    requires ctl'.cacheUrl == ctl.cacheUrl
    ensures BeforeBuild(ctl, heuristic, cache, req, resp).raw == resp
    ensures BeforeBuild(ctl, heuristic, cache, req, resp) == BeforeBuild(ctl', None, cache, req, resp)
    ensures req.verb !in InvalidatingMethods ==> BeforeBuild(ctl, heuristic, cache, req, resp).state == cache
  {
  }

  /** A 304 to a GET not served from cache is replaced by the controller's
      updated response, which counts as from cache exactly when it is a
      different response. */
  lemma NotModifiedReplaced(ctl: Controller, heuristic: Option<RawResponse -> RawResponse>, cache: Cache, req: Request, resp: RawResponse)
    requires req.verb == "GET" && !FromCache(resp) && resp.status == 304
    ensures var step := BeforeBuild(ctl, heuristic, cache, req, resp);
      var updated := ctl.updateCachedResponse(cache, req, resp);
      && step.state == updated.0
      && (step.raw.fromCache == Some(true) <==> updated.1.NewResponse?)
      && step.raw == match updated.1
           case SameResponse => resp.(fromCache := Some(false))
           case NewResponse(merged) => merged.(fromCache := Some(true))
  {
    assert req.verb !in InvalidatingMethods;
  }

  /** Any other response to a GET not served from cache is not stored now:
      the cache is unchanged, and the body is wrapped so that it is handed
      to `cache_response` with the request and the (heuristic-adjusted)
      response once read. */
  lemma FullResponseWrappedForDeferredCaching(ctl: Controller, heuristic: Option<RawResponse -> RawResponse>, cache: Cache, req: Request, resp: RawResponse)
    requires req.verb == "GET" && !FromCache(resp) && resp.status != 304
    ensures var step := BeforeBuild(ctl, heuristic, cache, req, resp);
      var r := if heuristic.Some? then heuristic.value(resp) else resp;
      && step.state == cache
      && step.raw.body == CacheWriting(r.body, req, r)
      && step.raw.status == r.status && step.raw.headers == r.headers
      && step.raw.fromCache == Some(false)
  {
  }

  /** The cache key of the url is deleted exactly for a PUT or DELETE with
      an ok response; no other entry and no other request ever loses one. */
  lemma InvalidationOnlyOnOkMutation(ctl: Controller, heuristic: Option<RawResponse -> RawResponse>, cache: Cache, req: Request, resp: RawResponse)
    requires req.verb != "GET"
    ensures var step := BeforeBuild(ctl, heuristic, cache, req, resp);
      && step.raw == resp.(fromCache := Some(FromCache(resp)))
      && step.state == (if req.verb in InvalidatingMethods && IsOk(resp.status) then cache - {ctl.cacheUrl(req.url)} else cache)
      && (forall key :: key in cache && key != ctl.cacheUrl(req.url) ==> key in step.state && step.state[key] == cache[key])
  {
  }

  /** Invalidating twice is the same as invalidating once; deleting a key
      that is not there changes nothing. */
  lemma InvalidationIdempotent(ctl: Controller, heuristic: Option<RawResponse -> RawResponse>, cache: Cache, req: Request, resp: RawResponse)
    requires req.verb in InvalidatingMethods
    ensures var once := BeforeBuild(ctl, heuristic, cache, req, resp);
      var twice := BeforeBuild(ctl, heuristic, once.state, req, once.raw);
      twice.state == once.state && twice.raw == once.raw
    ensures ctl.cacheUrl(req.url) !in cache ==> BeforeBuild(ctl, heuristic, cache, req, resp).state == cache
  {
  }

  /** `CacheMiddleware` with its controller and optional heuristic: its
      `before_send` is `BeforeSend` and its `before_build_response` is
      `BeforeBuild` over the same controller. It adds no pool arguments;
      its `before_send` never raises and either lets
      the request go on or answers with a raw response, which `send` then
      builds; its `before_build_response` keeps the request and always sets
      `from_cache`; its `after_build_response` is `BaseMiddleware`'s. */
  function CacheMiddleware(ctl: Controller, heuristic: Option<RawResponse -> RawResponse>): (m: Pipeline.Middleware<Cache>)
    ensures forall c, x, b :: m.beforeInitPoolmanager(c, x, b) == Pipeline.Falsy
    ensures forall cache, req :: m.beforeSend(cache, req) == BeforeSend(ctl, cache, req)
    ensures forall cache, req, raw :: m.beforeBuildResponse(cache, req, raw) == BeforeBuild(ctl, heuristic, cache, req, raw)
    ensures forall cache, req :: m.beforeSend(cache, req).value.ReturnsFalsy? || m.beforeSend(cache, req).value.ReturnsRaw?
    ensures forall cache, req: Request :: req.verb != "GET" ==> m.beforeSend(cache, req) == Pipeline.SendStep(cache, req, Pipeline.ReturnsFalsy)
    ensures forall cache, req, raw :: m.beforeBuildResponse(cache, req, raw).request == req
    ensures forall cache, req, raw :: m.beforeBuildResponse(cache, req, raw).raw.fromCache.Some?
    ensures forall cache, req, raw, response :: m.afterBuildResponse(cache, req, raw, response) == Pipeline.AfterStep(cache, response)
  {
    Pipeline.Middleware(
      (connections: nat, maxsize: nat, block: bool) => Pipeline.Falsy,
      (cache: Cache, req: Request) => BeforeSend(ctl, cache, req),
      (cache: Cache, req: Request, raw: RawResponse) => BeforeBuild(ctl, heuristic, cache, req, raw),
      (cache: Cache, req: Request, raw: RawResponse, response: Response) => Pipeline.AfterStep(cache, response))
  }
}
