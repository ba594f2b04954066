/** Values shared by the adapter and its middlewares: requests, urllib3-level
    raw responses, requests-level responses, the exceptions that escape a
    send, and the two pieces of Python `datetime` arithmetic the throttling
    middlewares rely on. Times are whole seconds since the UTC epoch. */
module Http {

  datatype Option<T> = None | Some(value: T)

  /** The exceptions a send can end with. */
  datatype Error =
    | ValueError             // a `before_send` hook returned an unsupported truthy value
    | TypeError              // `PoolManager` received one keyword argument twice
    | ThrottleError          // a throttler refused the request
    | RobotsDisallowedError  // robots.txt forbids the url for this agent
    | RobotsThrottledError   // robots.txt crawl delay not yet elapsed
    | TransportError(reason: string)  // raised by the transport and passed through

  datatype Result<T> = Ok(value: T) | Err(error: Error)

  /** The result of a step that either returns normally or raises. */
  datatype Outcome = Pass | Fail(error: Error)

  type Headers = map<string, string>

  /** A prepared request; `verb` is the HTTP method (`request.method`). */
  datatype Request = Request(verb: string, url: string, headers: Headers)

  /** The body stream `_fp` of a raw response. `CacheWriting` is a stream
      wrapped so that, once drained, it hands its bytes to
      `cache_response(request, response)`. */
  datatype Body =
    | Stream(content: seq<char>)
    | CacheWriting(inner: Body, request: Request, response: RawResponse)

  /** A urllib3 response. `fromCache` is the optional `from_cache`
      attribute: `None` when the attribute has never been set. */
  datatype RawResponse = RawResponse(status: int, headers: Headers, body: Body, fromCache: Option<bool>)

  /** A requests `Response`, as built by the transport from a raw response. */
  datatype Response = Response(status: int, url: string, raw: RawResponse)

  /** `getattr(raw, 'from_cache', False)` read as a truth value. */
  predicate FromCache(raw: RawResponse)
  {
    raw.fromCache == Some(true)
  }

  /** requests' `ok`: the status is not a client or server error. */
  predicate IsOk(status: int)
  {
    !(400 <= status < 600)
  }

  const SecondsPerDay: int := 86400
  const SecondsPerHour: int := 3600

  /** Python's `timedelta.seconds` for a gap of `gap` whole seconds: the
      within-day component, not the total. A timedelta normalises to
      `days * 86400 + seconds` with `0 <= seconds < 86400`. */
  function TimedeltaSeconds(gap: int): (r: int)
    ensures 0 <= r < SecondsPerDay
    ensures exists days :: gap == days * SecondsPerDay + r
    ensures 0 <= gap < SecondsPerDay ==> r == gap
  {
    var days := gap / SecondsPerDay;
    assert gap == days * SecondsPerDay + gap % SecondsPerDay;
    gap % SecondsPerDay
  }

  /** `datetime.hour` of the instant `t`: the hour of the UTC day. */
  function HourOfDay(t: int): (h: int)
    ensures 0 <= h < 24
    ensures h == (t % SecondsPerDay) / SecondsPerHour
  {
    var q := t / SecondsPerDay;
    var r := t % SecondsPerDay;
    assert t == q * SecondsPerDay + r;
    assert t / SecondsPerHour == q * 24 + r / SecondsPerHour;
    (t / SecondsPerHour) % 24
  }

  /** The number of whole clock hours since the epoch: date and hour together. */
  function HourIndex(t: int): int
  {
    t / SecondsPerHour
  }
}
