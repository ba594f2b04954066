/** requests_middleware/contrib/robotware.py: before each send, refuse urls
    robots.txt disallows for the request's agent and enforce its crawl
    delay per agent and host. Fetching and parsing robots.txt and
    extracting the hostname are the oracle `Rules`. */
module Robots {
  import opened Http
  import Pipeline

  /** The `User-Agent` header, absent when the request has none. */
  type Agent = Option<string>
  /** `urlparse(url).hostname`, absent for a url without a host. */
  type Host = Option<string>

  /** What the robots cache and `urlparse` answer: `allowed(url, agent)`,
      `delay(url, agent)` (`None` when robots.txt sets no crawl delay) and
      `hostname(url)`. */
  datatype Rules = Rules(
    allowed: (string, Agent) -> bool,
    delay: (string, Agent) -> Option<int>,
    hostname: string -> Host)

  /** `visited`: for each agent, the last visit time per host. An agent
      without an entry has visited nothing, as with the `defaultdict`. */
  type Visited = map<Agent, map<Host, int>>

  datatype Checked = Checked(visited: Visited, outcome: Outcome)

  /** `visited[agent][host]`, if there is one. */
  function LastVisit(v: Visited, agent: Agent, host: Host): Option<int>
  {
    if agent in v && host in v[agent] then Some(v[agent][host]) else None
  }

  /** `visited[agent][host] = now`. */
  function RecordVisit(v: Visited, agent: Agent, host: Host, now: int): (v': Visited)
    ensures LastVisit(v', agent, host) == Some(now)
    ensures forall a, h :: (a, h) != (agent, host) ==> LastVisit(v', a, h) == LastVisit(v, a, h)
  {
    v[agent := (if agent in v then v[agent] else map[])[host := now]]
  }

  /** `check_disallow`. */
  function CheckDisallow(rules: Rules, url: string, agent: Agent): (o: Outcome)
    ensures o.Fail? <==> !rules.allowed(url, agent)
    ensures o.Fail? ==> o.error == RobotsDisallowedError
  {
    if !rules.allowed(url, agent) then Fail(RobotsDisallowedError) else Pass
  }

  /** `check_crawl_delay` as written: it compares `(now - last_visit).seconds`,
      the within-day part of the gap, with the delay. */
  function CheckCrawlDelayAsWritten(rules: Rules, v: Visited, url: string, agent: Agent, now: int): (c: Checked)
    ensures c.outcome.Fail? ==> c.outcome.error == RobotsThrottledError && c.visited == v
    ensures var last := LastVisit(v, agent, rules.hostname(url));
      last.Some? && 0 <= now - last.value < SecondsPerDay ==> c == CheckCrawlDelay(rules, v, url, agent, now)
  {
    match rules.delay(url, agent)
    case None => Checked(v, Pass)
    case Some(delay) =>
      var host := rules.hostname(url);
      match LastVisit(v, agent, host)
      case Some(last) =>
        if TimedeltaSeconds(now - last) < delay then Checked(v, Fail(RobotsThrottledError))
        else Checked(RecordVisit(v, agent, host, now), Pass)
      case None => Checked(RecordVisit(v, agent, host, now), Pass)
  }

  /** The corrected `check_crawl_delay`: it compares the whole gap with the
      delay. */
  function CheckCrawlDelay(rules: Rules, v: Visited, url: string, agent: Agent, now: int): Checked
  {
    match rules.delay(url, agent)
    case None => Checked(v, Pass)
    case Some(delay) =>
      var host := rules.hostname(url);
      match LastVisit(v, agent, host)
      case Some(last) =>
        if now - last < delay then Checked(v, Fail(RobotsThrottledError))
        else Checked(RecordVisit(v, agent, host, now), Pass)
      case None => Checked(RecordVisit(v, agent, host, now), Pass)
  }

  /** Without a crawl delay nothing is recorded and nothing is refused. */
  lemma NoDelayLeavesVisited(rules: Rules, v: Visited, url: string, agent: Agent, now: int)
    requires rules.delay(url, agent).None?
    ensures CheckCrawlDelay(rules, v, url, agent, now) == Checked(v, Pass)
    ensures CheckCrawlDelayAsWritten(rules, v, url, agent, now) == Checked(v, Pass)
  {
  }

  /** A first visit by an agent to a host passes and records `now`. */
  lemma FirstVisitRecorded(rules: Rules, v: Visited, url: string, agent: Agent, now: int)
    requires rules.delay(url, agent).Some?
    requires LastVisit(v, agent, rules.hostname(url)).None?
    ensures var c := CheckCrawlDelayAsWritten(rules, v, url, agent, now);
      c.outcome == Pass && LastVisit(c.visited, agent, rules.hostname(url)) == Some(now)
    ensures var c := CheckCrawlDelay(rules, v, url, agent, now);
      c.outcome == Pass && LastVisit(c.visited, agent, rules.hostname(url)) == Some(now)
  {
  }

  /** With the corrected check, a repeat visit passes exactly when the
      whole delay has elapsed; a refused one records nothing, a passing one
      overwrites the time with `now`. */
  lemma RepeatVisit(rules: Rules, v: Visited, url: string, agent: Agent, now: int)
    requires rules.delay(url, agent).Some?
    requires LastVisit(v, agent, rules.hostname(url)).Some?
    ensures var c := CheckCrawlDelay(rules, v, url, agent, now);
      var last := LastVisit(v, agent, rules.hostname(url)).value;
      && (c.outcome.Fail? <==> now - last < rules.delay(url, agent).value)
      && (c.outcome.Fail? ==> c.outcome.error == RobotsThrottledError && c.visited == v)
      && (c.outcome == Pass ==> LastVisit(c.visited, agent, rules.hostname(url)) == Some(now))
  {
  }

  /** The check as written refuses a repeat visit exactly when the gap's
      seconds component is below the delay, with `RobotsThrottledError` and
      recording nothing; otherwise it overwrites the time with `now`. */
  lemma RepeatVisitAsWritten(rules: Rules, v: Visited, url: string, agent: Agent, now: int)
    requires rules.delay(url, agent).Some?
    requires LastVisit(v, agent, rules.hostname(url)).Some?
    ensures var c := CheckCrawlDelayAsWritten(rules, v, url, agent, now);
      var last := LastVisit(v, agent, rules.hostname(url)).value;
      && (c.outcome.Fail? <==> TimedeltaSeconds(now - last) < rules.delay(url, agent).value)
      && (c.outcome.Fail? ==> c.outcome.error == RobotsThrottledError && c.visited == v)
      && (c.outcome == Pass ==> LastVisit(c.visited, agent, rules.hostname(url)) == Some(now))
  {
  }

  /** A check only ever writes the entry of its own agent and host. */
  lemma CheckTouchesOnlyItsEntry(rules: Rules, v: Visited, url: string, agent: Agent, now: int, a: Agent, h: Host)
    requires (a, h) != (agent, rules.hostname(url))
    ensures LastVisit(CheckCrawlDelay(rules, v, url, agent, now).visited, a, h) == LastVisit(v, a, h)
    ensures LastVisit(CheckCrawlDelayAsWritten(rules, v, url, agent, now).visited, a, h) == LastVisit(v, a, h)
  {
  }

  /** Under the corrected check, once a visit would pass it keeps passing as
      time goes on; `CrawlDelayAsWrittenThrottlesADayLater` shows the check
      as written does not. */
  lemma CrawlDelayMonotone(rules: Rules, v: Visited, url: string, agent: Agent, now: int, later: int)
    requires now <= later
    requires CheckCrawlDelay(rules, v, url, agent, now).outcome == Pass
    ensures CheckCrawlDelay(rules, v, url, agent, later).outcome == Pass
  {
  }

  /** The check as written refuses a visit a whole day after the last one
      with a crawl delay of one second, though it let one through five
      seconds after it. */
  lemma CrawlDelayAsWrittenThrottlesADayLater(rules: Rules, v: Visited, url: string, agent: Agent, stored: int)
    requires rules.delay(url, agent) == Some(1)
    requires LastVisit(v, agent, rules.hostname(url)) == Some(stored)
    ensures CheckCrawlDelayAsWritten(rules, v, url, agent, stored + 5).outcome == Pass
    ensures CheckCrawlDelayAsWritten(rules, v, url, agent, stored + SecondsPerDay).outcome == Fail(RobotsThrottledError)
    ensures CheckCrawlDelay(rules, v, url, agent, stored + SecondsPerDay).outcome == Pass
  {
    assert TimedeltaSeconds(5) == 5;
    assert TimedeltaSeconds(SecondsPerDay) == 0;
  }

  /** `request.headers.get('User-Agent')`. */
  function UserAgent(req: Request): (agent: Agent)
    ensures agent.Some? <==> "User-Agent" in req.headers
    ensures agent.Some? ==> agent.value == req.headers["User-Agent"]
  {
    if "User-Agent" in req.headers then Some(req.headers["User-Agent"]) else None
  }

  /** `RobotsMiddleware.before_send`: the disallow check first, then the
      crawl delay; it never answers the request itself. */
  function BeforeSend(rules: Rules, v: Visited, req: Request, now: int): (c: Checked)
    ensures !rules.allowed(req.url, UserAgent(req)) ==> c == Checked(v, Fail(RobotsDisallowedError))
    ensures rules.allowed(req.url, UserAgent(req)) ==> c == CheckCrawlDelayAsWritten(rules, v, req.url, UserAgent(req), now)
  {
    var agent := UserAgent(req);
    match CheckDisallow(rules, req.url, agent)
    case Fail(e) => Checked(v, Fail(e))
    case Pass => CheckCrawlDelayAsWritten(rules, v, req.url, agent, now)
  }

  /** `RobotsMiddleware` for a request handled at time `now`. Its
      `before_send` is `BeforeSend`: it leaves the visits `BeforeSend`
      leaves, returns `None` exactly when `BeforeSend` passes and raises its
      error otherwise. It never answers the request and never changes it:
      it returns `None` or raises one of the two robots errors, and a
      disallowed request leaves the visits as they were. The other hooks
      are `BaseMiddleware`'s. */
  function RobotsMiddleware(rules: Rules, now: int): (m: Pipeline.Middleware<Visited>)
    ensures forall v, req :: m.beforeSend(v, req).state == BeforeSend(rules, v, req, now).visited
    ensures forall v, req :: (m.beforeSend(v, req).value ==
      if BeforeSend(rules, v, req, now).outcome == Pass then Pipeline.ReturnsFalsy
      else Pipeline.Raises(BeforeSend(rules, v, req, now).outcome.error))
    ensures forall v, req :: m.beforeSend(v, req).request == req
    ensures forall v, req :: (m.beforeSend(v, req).value == Pipeline.ReturnsFalsy ||
      m.beforeSend(v, req).value == Pipeline.Raises(RobotsDisallowedError) ||
      m.beforeSend(v, req).value == Pipeline.Raises(RobotsThrottledError))
    ensures forall v, req :: m.beforeSend(v, req).value == Pipeline.Raises(RobotsDisallowedError) ==> m.beforeSend(v, req).state == v
    ensures forall v, req, raw :: m.beforeBuildResponse(v, req, raw) == Pipeline.BuildStep(v, req, raw)
    ensures forall v, req, raw, response :: m.afterBuildResponse(v, req, raw, response) == Pipeline.AfterStep(v, response)
  {
    Pipeline.Middleware(
      (connections: nat, maxsize: nat, block: bool) => Pipeline.Falsy,
      (v: Visited, req: Request) =>
        var c := BeforeSend(rules, v, req, now);
        Pipeline.SendStep(c.visited, req, if c.outcome.Fail? then Pipeline.Raises(c.outcome.error) else Pipeline.ReturnsFalsy),
      (v: Visited, req: Request, raw: RawResponse) => Pipeline.BuildStep(v, req, raw),
      (v: Visited, req: Request, raw: RawResponse, response: Response) => Pipeline.AfterStep(v, response))
  }
}
