/** The repository's test cases and adapter-level consequences of the
    middlewares: middlewares mounted on the adapter and driven through
    `send` and `init_poolmanager`, including the findings' defects shown
    through the adapter. */
module Scenarios {
  import opened Http
  import opened Pipeline
  import Throttle
  import Robots
  import CacheControl

  /** A transport that answers every request with `raw` and builds the
      response the way requests does, keeping the raw response. */
  function FixedTransport(raw: RawResponse): Transport
  {
    Transport(
      (req: Request) => Ok(raw),
      (req: Request, r: RawResponse) => Response(r.status, req.url, r))
  }

  function Get(url: string, headers: Headers): Request
  {
    Request("GET", url, headers)
  }

  // ---------------------------------------------------------------------
  // sourceware.py

  /** `SourceMiddleware(address, port)`: a single pool keyword argument. */
  function SourceMiddleware<S(!new)>(address: string, port: int): Middleware<S>
  {
    Base<S>().(beforeInitPoolmanager :=
      (connections: nat, maxsize: nat, block: bool) => Kwargs(map["source_address" := Address(address, port)]))
  }

  /** The source address reaches the pool configuration. */
  lemma SourceAddressReachesPool<S(!new)>(connections: nat, maxsize: nat, block: bool)
    ensures var r := InitPoolmanager([SourceMiddleware<S>("localhost", 8080)], connections, maxsize, block);
      r.Ok? && r.value.kwargs == map["source_address" := Address("localhost", 8080)]
  {
    var mws := [SourceMiddleware<S>("localhost", 8080)];
    var r := InitPoolmanager(mws, connections, maxsize, block);
    assert "source_address" != "num_pools" && "source_address" != "maxsize" && "source_address" != "block";
    assert r.Ok?;
    assert r.value.kwargs.Keys == {"source_address"};
    assert FirstSetter(PoolValues(mws, connections, maxsize, block), "source_address", 0);
  }

  /** Two middlewares setting different pool arguments, none of them an
      explicit one, both have them applied; where both set one, the earlier
      registered wins. */
  lemma TwoPoolMiddlewaresCombine<S>(a: Middleware<S>, b: Middleware<S>, connections: nat, maxsize: nat, block: bool, key: string)
    requires Contribution(a.beforeInitPoolmanager(connections, maxsize, block)).Keys !! ExplicitPoolArgs
    requires Contribution(b.beforeInitPoolmanager(connections, maxsize, block)).Keys !! ExplicitPoolArgs
    requires key in Contribution(b.beforeInitPoolmanager(connections, maxsize, block))
    ensures InitPoolmanager([a, b], connections, maxsize, block).Ok?
    ensures var kwargs := InitPoolmanager([a, b], connections, maxsize, block).value.kwargs;
      var fromA := Contribution(a.beforeInitPoolmanager(connections, maxsize, block));
      var fromB := Contribution(b.beforeInitPoolmanager(connections, maxsize, block));
      key in kwargs && kwargs[key] == if key in fromA then fromA[key] else fromB[key]
  {
    var mws := [a, b];
    assert forall i :: 0 <= i < |mws| ==>
      Contribution(mws[i].beforeInitPoolmanager(connections, maxsize, block)).Keys !! ExplicitPoolArgs;
    var values := PoolValues([a, b], connections, maxsize, block);
    if key in Contribution(a.beforeInitPoolmanager(connections, maxsize, block)) {
      assert FirstSetter(values, key, 0);
    } else {
      assert FirstSetter(values, key, 1);
    }
  }

  // ---------------------------------------------------------------------
  // test_throttle.py

  /** One request through an adapter with only a throttle middleware: a
      refused check raises, otherwise the response is the transport's and
      the visit is stored. */
  lemma ThrottledSend(th: Throttle.Throttler, now: int, raw: RawResponse, req: Request)
    ensures var r := Send([Throttle.ThrottleMiddleware(now)], FixedTransport(raw), th, req);
      var c := Throttle.Check(th, now);
      if c.outcome.Fail? then r.state == c.throttler && r.result == Err(ThrottleError)
      else r.state == Throttle.Store(c.throttler, now) && r.result == Ok(Response(raw.status, req.url, raw))
  {
    SendThroughOneMiddleware(Throttle.ThrottleMiddleware(now), FixedTransport(raw), th, req);
  }

  /** With a five-second delay throttler mounted, the first request goes
      through and stores its time. */
  lemma ThrottleDelayFirstRequest(raw: RawResponse, req: Request, start: int)
    ensures var r := Send([Throttle.ThrottleMiddleware(start)], FixedTransport(raw), Throttle.Delay(Throttle.NewDelayThrottler(5)), req);
      r.state == Throttle.Delay(Throttle.DelayThrottler(5, Some(start))) && r.result == Ok(Response(raw.status, req.url, raw))
  {
    ThrottledSend(Throttle.Delay(Throttle.NewDelayThrottler(5)), start, raw, req);
  }

  /** A second request at the same moment raises `ThrottleError`. */
  lemma ThrottleDelaySecondRequestRefused(raw: RawResponse, req: Request, start: int)
    ensures var stored := Throttle.Delay(Throttle.DelayThrottler(5, Some(start)));
      Send([Throttle.ThrottleMiddleware(start)], FixedTransport(raw), stored, req).result == Err(ThrottleError)
  {
    ThrottledSend(Throttle.Delay(Throttle.DelayThrottler(5, Some(start))), start, raw, req);
  }

  /** A request six seconds after the stored one goes through. */
  lemma ThrottleDelayLaterRequestPasses(raw: RawResponse, req: Request, start: int)
    ensures var stored := Throttle.Delay(Throttle.DelayThrottler(5, Some(start)));
      Send([Throttle.ThrottleMiddleware(start + 6)], FixedTransport(raw), stored, req).result == Ok(Response(raw.status, req.url, raw))
  {
    ThrottledSend(Throttle.Delay(Throttle.DelayThrottler(5, Some(start))), start + 6, raw, req);
  }

  /** The mounted throttle refuses a request a whole day after the stored
      one, because its check reads only the seconds component of the gap. */
  lemma ThrottleDelayADayLaterRefused(raw: RawResponse, req: Request, start: int)
    ensures var stored := Throttle.Delay(Throttle.DelayThrottler(5, Some(start)));
      Send([Throttle.ThrottleMiddleware(start + SecondsPerDay)], FixedTransport(raw), stored, req).result == Err(ThrottleError)
  {
    ThrottledSend(Throttle.Delay(Throttle.DelayThrottler(5, Some(start))), start + SecondsPerDay, raw, req);
    assert TimedeltaSeconds(SecondsPerDay) == 0;
  }

  // ---------------------------------------------------------------------
  // test_robots.py

  /** With robots.txt giving "robot" a one-second crawl delay and "human"
      none: "robot" then "human" go through, "robot" again at the same
      moment raises `RobotsThrottledError`, and five seconds later "robot"
      goes through. */
  lemma RobotsDelayIntegration(rules: Robots.Rules, raw: RawResponse, url: string, start: int)
    requires rules.allowed(url, Some("robot")) && rules.delay(url, Some("robot")) == Some(1)
    requires rules.allowed(url, Some("human")) && rules.delay(url, Some("human")).None?
    ensures var t := FixedTransport(raw);
      var robot := Get(url, map["User-Agent" := "robot"]);
      var human := Get(url, map["User-Agent" := "human"]);
      var r1 := Send([Robots.RobotsMiddleware(rules, start)], t, map[], robot);
      var r2 := Send([Robots.RobotsMiddleware(rules, start)], t, r1.state, human);
      var r3 := Send([Robots.RobotsMiddleware(rules, start)], t, r2.state, robot);
      var r4 := Send([Robots.RobotsMiddleware(rules, start + 5)], t, r3.state, robot);
      && r1.result.Ok? && r2.result.Ok? && r4.result.Ok?
      && r3.result == Err(RobotsThrottledError)
  {
    var robot := Get(url, map["User-Agent" := "robot"]);
    var human := Get(url, map["User-Agent" := "human"]);
    assert Robots.UserAgent(robot) == Some("robot");
    assert Robots.UserAgent(human) == Some("human");
    var t := FixedTransport(raw);
    var host := rules.hostname(url);
    var m1 := Robots.RobotsMiddleware(rules, start);
    var m4 := Robots.RobotsMiddleware(rules, start + 5);
    SendThroughOneMiddleware(m1, t, map[], robot);
    var r1 := Send([m1], t, map[], robot);
    assert Robots.LastVisit(r1.state, Some("robot"), host) == Some(start);
    SendThroughOneMiddleware(m1, t, r1.state, human);
    var r2 := Send([m1], t, r1.state, human);
    assert r2.state == r1.state;
    SendThroughOneMiddleware(m1, t, r2.state, robot);
    assert TimedeltaSeconds(0) == 0;
    var r3 := Send([m1], t, r2.state, robot);
    assert r3.state == r2.state;
    assert TimedeltaSeconds(5) == 5;
    SendThroughOneMiddleware(m4, t, r3.state, robot);
  }

  /** The crawl delay as written, through the adapter: a "robot" whose
      last visit to the host was exactly a day ago, with a one-second crawl
      delay, is refused with `RobotsThrottledError` and nothing is recorded. */
  lemma RobotsDelayADayLaterRefused(rules: Robots.Rules, raw: RawResponse, req: Request, v: Robots.Visited, start: int)
    requires rules.allowed(req.url, Robots.UserAgent(req)) && rules.delay(req.url, Robots.UserAgent(req)) == Some(1)
    requires Robots.LastVisit(v, Robots.UserAgent(req), rules.hostname(req.url)) == Some(start)
    ensures var r := Send([Robots.RobotsMiddleware(rules, start + SecondsPerDay)], FixedTransport(raw), v, req);
      r.result == Err(RobotsThrottledError) && r.state == v
  {
    SendThroughOneMiddleware(Robots.RobotsMiddleware(rules, start + SecondsPerDay), FixedTransport(raw), v, req);
    assert TimedeltaSeconds(SecondsPerDay) == 0;
  }

  /** A url robots.txt forbids raises `RobotsDisallowedError` before any
      visit is recorded or any request is sent. */
  lemma RobotsDisallowIntegration(rules: Robots.Rules, raw: RawResponse, req: Request, v: Robots.Visited, now: int)
    requires !rules.allowed(req.url, Robots.UserAgent(req))
    ensures var r := Send([Robots.RobotsMiddleware(rules, now)], FixedTransport(raw), v, req);
      r == Run(v, Err(RobotsDisallowedError), [BeforeSend(0)])
  {
    SendThroughOneMiddleware(Robots.RobotsMiddleware(rules, now), FixedTransport(raw), v, req);
  }

  // ---------------------------------------------------------------------
  // test_cachecontrol.py

  /** Two GETs of a page with a validator: the first is sent and its
      response is not from cache; for the second the transport answers 304,
      the controller supplies the stored response, and the result is from
      cache. */
  lemma CacheRespectIntegration(ctl: CacheControl.Controller, cache: CacheControl.Cache, req: Request, first: RawResponse, notModified: RawResponse)
    requires req.verb == "GET"
    requires first.status == 200 && first.fromCache.None?
    requires notModified.status == 304 && notModified.fromCache.None?
    requires forall c :: ctl.cachedRequest(c, req).1.None?
    requires forall c, r :: ctl.updateCachedResponse(c, r, notModified).1.NewResponse?
    ensures var mw := [CacheControl.CacheMiddleware(ctl, None)];
      var r1 := Send(mw, FixedTransport(first), cache, req);
      var r2 := Send(mw, FixedTransport(notModified), r1.state, req);
      && r1.result.Ok? && r1.result.value.raw.fromCache == Some(false)
      && r2.result.Ok? && r2.result.value.raw.fromCache == Some(true)
  {
    var m := CacheControl.CacheMiddleware(ctl, None);
    SendThroughOneMiddleware(m, FixedTransport(first), cache, req);
    var r1 := Send([m], FixedTransport(first), cache, req);
    SendThroughOneMiddleware(m, FixedTransport(notModified), r1.state, req);
    var s2 := CacheControl.BeforeSend(ctl, r1.state, req);
    CacheControl.NotModifiedReplaced(ctl, None, s2.state, s2.request, notModified);
  }

  /** Two GETs of a page the controller never finds in the cache, both
      answered 200: neither response is from cache. */
  lemma CacheNoCacheIntegration(ctl: CacheControl.Controller, cache: CacheControl.Cache, req: Request, page: RawResponse)
    requires req.verb == "GET"
    requires page.status == 200 && page.fromCache.None?
    requires forall c :: ctl.cachedRequest(c, req).1.None?
    ensures var mw := [CacheControl.CacheMiddleware(ctl, None)];
      var r1 := Send(mw, FixedTransport(page), cache, req);
      var r2 := Send(mw, FixedTransport(page), r1.state, req);
      && r1.result.Ok? && r1.result.value.raw.fromCache == Some(false)
      && r2.result.Ok? && r2.result.value.raw.fromCache == Some(false)
  {
    var m := CacheControl.CacheMiddleware(ctl, None);
    SendThroughOneMiddleware(m, FixedTransport(page), cache, req);
    var r1 := Send([m], FixedTransport(page), cache, req);
    SendThroughOneMiddleware(m, FixedTransport(page), r1.state, req);
  }
}
