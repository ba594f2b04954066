/** The middleware adapter of requests_middleware/middleware.py: an ordered
    list of middlewares, each with four hooks, driven through pool
    configuration, sending and response building.

    A middleware is a record of total functions. Mutable middleware state
    (throttler counters, robots bookkeeping, the cache) is the type
    parameter `S`, threaded through every hook in call order. Every run
    also returns the trace of hook and transport calls it made, so that
    ordering and short-circuit rules can be stated. */
module Pipeline {
  import opened Http

  /** A keyword argument value handed to `PoolManager`. */
  datatype PoolArg = Text(text: string) | Number(number: int) | Address(host: string, port: int)

  type PoolKwargs = map<string, PoolArg>

  /** What `before_init_poolmanager` returns: a falsy value (`None`, `{}`)
      or a dict of keyword arguments. */
  datatype PoolValue = Falsy | Kwargs(kwargs: PoolKwargs)

  /** What `before_send` does, classified the way `send` inspects it. */
  datatype SendValue =
    | ReturnsResponse(response: Response)
    | ReturnsRaw(raw: RawResponse)
    | ReturnsFalsy
    | ReturnsOtherTruthy
    | Raises(error: Error)

  /** A hook's effect: the middleware state after the call, the request
      (which `before_send` may have mutated in place) and the value. */
  datatype SendStep<S> = SendStep(state: S, request: Request, value: SendValue)
  datatype BuildStep<S> = BuildStep(state: S, request: Request, raw: RawResponse)
  datatype AfterStep<S> = AfterStep(state: S, response: Response)

  datatype Middleware<!S> = Middleware(
    beforeInitPoolmanager: (nat, nat, bool) -> PoolValue,
    beforeSend: (S, Request) -> SendStep<S>,
    beforeBuildResponse: (S, Request, RawResponse) -> BuildStep<S>,
    afterBuildResponse: (S, Request, RawResponse, Response) -> AfterStep<S>)

  /** The inherited `HTTPAdapter`: `send` puts the request on the wire and
      yields the urllib3 response (or raises); `build` makes the requests
      `Response` from a request and a raw response. */
  datatype Transport = Transport(
    send: Request -> Result<RawResponse>,
    build: (Request, RawResponse) -> Response)

  /** One call made during a run, in order. */
  datatype Event =
    | BeforeSend(index: nat)
    | TransportSend(request: Request)
    | BeforeBuild(index: nat)
    | TransportBuild(request: Request, raw: RawResponse)
    | AfterBuild(index: nat, request: Request, raw: RawResponse)

  datatype Run<S> = Run(state: S, result: Result<Response>, trace: seq<Event>)
  datatype Built<S> = Built(state: S, response: Response, trace: seq<Event>)
  datatype Prepared<S> = Prepared(state: S, request: Request, raw: RawResponse, trace: seq<Event>)
  datatype Consulted<S> = Consulted(state: S, request: Request)

  // ---------------------------------------------------------------------
  // BaseMiddleware and registration

  /** `BaseMiddleware`: every hook leaves everything as it found it. */
  function Base<S(!new)>(): (m: Middleware<S>)
    ensures ActsAsBase(m)
  {
    Middleware(
      (connections: nat, maxsize: nat, block: bool) => Falsy,
      (s: S, req: Request) => SendStep(s, req, ReturnsFalsy),
      (s: S, req: Request, raw: RawResponse) => BuildStep(s, req, raw),
      (s: S, req: Request, raw: RawResponse, response: Response) => AfterStep(s, response))
  }

  /** A middleware that overrides no hook of `BaseMiddleware`, whatever
      its other behaviour. */
  ghost predicate ActsAsBase<S(!new)>(m: Middleware<S>)
  {
    && (forall c, x, b :: m.beforeInitPoolmanager(c, x, b) == Falsy)
    && (forall s, req :: m.beforeSend(s, req) == SendStep(s, req, ReturnsFalsy))
    && (forall s, req, raw :: m.beforeBuildResponse(s, req, raw) == BuildStep(s, req, raw))
    && (forall s, req, raw, response :: m.afterBuildResponse(s, req, raw, response) == AfterStep(s, response))
  }

  /** `register`: the new middleware goes last; the others keep their place. */
  function Register<S>(mws: seq<Middleware<S>>, m: Middleware<S>): (r: seq<Middleware<S>>)
    ensures |r| == |mws| + 1
    ensures r[..|mws|] == mws
    ensures r[|mws|] == m
  {
    mws + [m]
  }

  // ---------------------------------------------------------------------
  // init_poolmanager

  /** The keys `value or {}` adds to the dict. */
  function Contribution(v: PoolValue): PoolKwargs
  {
    match v
    case Falsy => map[]
    case Kwargs(kwargs) => kwargs
  }

  /** The loop of `init_poolmanager`: `kwargs.update(value or {})` for the
      values of the middlewares below `|values|`, last registered first. */
  function FoldReversed(acc: PoolKwargs, values: seq<PoolValue>): (kwargs: PoolKwargs)
    ensures acc.Keys <= kwargs.Keys
    ensures forall j :: 0 <= j < |values| ==> Contribution(values[j]).Keys <= kwargs.Keys
    decreases |values|
  {
    if |values| == 0 then acc
    else FoldReversed(acc + Contribution(values[|values| - 1]), values[..|values| - 1])
  }

  /** What each middleware's `before_init_poolmanager` returns, in registration order. */
  function PoolValues<S>(mws: seq<Middleware<S>>, connections: nat, maxsize: nat, block: bool): (vs: seq<PoolValue>)
    ensures |vs| == |mws|
    ensures forall i :: 0 <= i < |mws| ==> vs[i] == mws[i].beforeInitPoolmanager(connections, maxsize, block)
  {
    seq(|mws|, i requires 0 <= i < |mws| => mws[i].beforeInitPoolmanager(connections, maxsize, block))
  }

  /** `j` is the earliest position whose value sets `key`. */
  ghost predicate FirstSetter(values: seq<PoolValue>, key: string, j: int)
  {
    && 0 <= j < |values|
    && key in Contribution(values[j])
    && forall i :: 0 <= i < j ==> key !in Contribution(values[i])
  }

  /** The reverse-order fold keeps every key some value sets, and on a
      conflict the value of the earliest position wins. */
  lemma {:induction false} FoldReversedPrecedence(acc: PoolKwargs, values: seq<PoolValue>, key: string)
    ensures key in FoldReversed(acc, values) <==>
      key in acc || exists j :: 0 <= j < |values| && key in Contribution(values[j])
    ensures forall j :: FirstSetter(values, key, j) ==> FoldReversed(acc, values)[key] == Contribution(values[j])[key]
    ensures key in acc && (forall j :: 0 <= j < |values| ==> key !in Contribution(values[j])) ==>
      FoldReversed(acc, values)[key] == acc[key]
    decreases |values|
  {
    if |values| > 0 {
      var n := |values|;
      var front := values[..n - 1];
      var acc' := acc + Contribution(values[n - 1]);
      assert FoldReversed(acc, values) == FoldReversed(acc', front);
      FoldReversedPrecedence(acc', front, key);
      assert forall j :: 0 <= j < n - 1 ==> front[j] == values[j];
      if key in FoldReversed(acc, values) && key !in acc && key !in Contribution(values[n - 1]) {
        var j :| 0 <= j < |front| && key in Contribution(front[j]);
        assert key in Contribution(values[j]);
      }
      forall j | FirstSetter(values, key, j)
        ensures FoldReversed(acc, values)[key] == Contribution(values[j])[key]
      {
        if j < n - 1 {
          assert FirstSetter(front, key, j);
        } else {
          assert forall i :: 0 <= i < |front| ==> key !in Contribution(front[i]);
        }
      }
    }
  }

  /** The fold from an empty dict: its keys are the keys some value sets,
      each with the value of the earliest position setting it. */
  lemma FoldedKwargs(values: seq<PoolValue>)
    ensures forall key :: key in FoldReversed(map[], values) <==>
      exists i :: 0 <= i < |values| && key in Contribution(values[i])
    ensures forall key, j :: FirstSetter(values, key, j) ==>
      FoldReversed(map[], values)[key] == Contribution(values[j])[key]
  {
    forall key {
      FoldReversedPrecedence(map[], values, key);
    }
  }

  /** `PoolManager`'s configuration: the adapter's own three arguments plus
      the folded keyword arguments. */
  datatype PoolConfig = PoolConfig(numPools: nat, maxsize: nat, block: bool, kwargs: PoolKwargs)

  /** The names `init_poolmanager` passes to `PoolManager` explicitly. */
  const ExplicitPoolArgs: set<string> := {"num_pools", "maxsize", "block"}

  /** A reserved name ends up in the folded arguments exactly when some
      middleware returns it. */
  lemma ReservedKeyReachesKwargs<S>(mws: seq<Middleware<S>>, connections: nat, maxsize: nat, block: bool)
    ensures FoldReversed(map[], PoolValues(mws, connections, maxsize, block)).Keys * ExplicitPoolArgs != {} <==>
      exists i, key ::
        && 0 <= i < |mws|
        && key in ExplicitPoolArgs
        && key in Contribution(mws[i].beforeInitPoolmanager(connections, maxsize, block))
  {
    var values := PoolValues(mws, connections, maxsize, block);
    var kwargs := FoldReversed(map[], values);
    if kwargs.Keys * ExplicitPoolArgs != {} {
      var key :| key in kwargs.Keys * ExplicitPoolArgs;
      FoldReversedPrecedence(map[], values, key);
      var i :| 0 <= i < |values| && key in Contribution(values[i]);
      assert key in Contribution(mws[i].beforeInitPoolmanager(connections, maxsize, block));
    } else {
      forall i, key | 0 <= i < |mws| && key in ExplicitPoolArgs
        ensures key !in Contribution(mws[i].beforeInitPoolmanager(connections, maxsize, block))
      {
        assert Contribution(values[i]).Keys <= kwargs.Keys;
        assert key !in kwargs.Keys * ExplicitPoolArgs;
      }
    }
  }

  /** `init_poolmanager`. Python rejects a keyword given both explicitly and
      through `**kwargs` with a `TypeError`. */
  function InitPoolmanager<S>(mws: seq<Middleware<S>>, connections: nat, maxsize: nat, block: bool): (r: Result<PoolConfig>)
    ensures r.Err? ==> r.error == TypeError
    ensures r.Err? <==> exists i, key ::
      && 0 <= i < |mws|
      && key in ExplicitPoolArgs
      && key in Contribution(mws[i].beforeInitPoolmanager(connections, maxsize, block))
    ensures r.Ok? ==> r.value.numPools == connections && r.value.maxsize == maxsize && r.value.block == block
    ensures r.Ok? ==> forall key :: key in r.value.kwargs <==>
      exists i :: 0 <= i < |mws| && key in Contribution(mws[i].beforeInitPoolmanager(connections, maxsize, block))
    ensures r.Ok? ==> forall key, j :: FirstSetter(PoolValues(mws, connections, maxsize, block), key, j) ==>
      r.value.kwargs[key] == Contribution(mws[j].beforeInitPoolmanager(connections, maxsize, block))[key]
  {
    var values := PoolValues(mws, connections, maxsize, block);
    var kwargs := FoldReversed(map[], values);
    FoldedKwargs(values);
    ReservedKeyReachesKwargs(mws, connections, maxsize, block);
    if kwargs.Keys * ExplicitPoolArgs != {} then
      Err(TypeError)
    else
      Ok(PoolConfig(connections, maxsize, block, kwargs))
  }

  // ---------------------------------------------------------------------
  // build_response

  /** The first loop of `build_response`, over the middlewares below `k`,
      last first: each hook receives the pair the previous one returned. */
  function BeforeBuildChain<S>(mws: seq<Middleware<S>>, k: nat, s: S, req: Request, raw: RawResponse): (p: Prepared<S>)
    requires k <= |mws|
    ensures |p.trace| == k
    ensures forall j :: 0 <= j < k ==> p.trace[j] == BeforeBuild(k - 1 - j)
    decreases k
  {
    if k == 0 then Prepared(s, req, raw, [])
    else
      var step := mws[k - 1].beforeBuildResponse(s, req, raw);
      var rest := BeforeBuildChain(mws, k - 1, step.state, step.request, step.raw);
      Prepared(rest.state, rest.request, rest.raw, [BeforeBuild(k - 1)] + rest.trace)
  }

  /** The second loop of `build_response`, over the middlewares below `k`,
      last first: the response is chained, the pair stays fixed. */
  function AfterBuildChain<S>(mws: seq<Middleware<S>>, k: nat, s: S, req: Request, raw: RawResponse, response: Response): (b: Built<S>)
    requires k <= |mws|
    ensures |b.trace| == k
    ensures forall j :: 0 <= j < k ==> b.trace[j] == AfterBuild(k - 1 - j, req, raw)
    decreases k
  {
    if k == 0 then Built(s, response, [])
    else
      var step := mws[k - 1].afterBuildResponse(s, req, raw, response);
      var rest := AfterBuildChain(mws, k - 1, step.state, req, raw, step.response);
      Built(rest.state, rest.response, [AfterBuild(k - 1, req, raw)] + rest.trace)
  }

  /** `build_response`: every `before_build_response` in reverse order, the
      transport's build on the last pair, then every `after_build_response`
      in reverse order, all of them seeing that same last pair. */
  function BuildResponse<S>(mws: seq<Middleware<S>>, t: Transport, s: S, req: Request, raw: RawResponse): (b: Built<S>)
    ensures |b.trace| == 2 * |mws| + 1
    ensures forall j :: 0 <= j < |mws| ==> b.trace[j] == BeforeBuild(|mws| - 1 - j)
    ensures b.trace[|mws|].TransportBuild?
    ensures forall j :: |mws| < j < |b.trace| ==>
      b.trace[j] == AfterBuild(2 * |mws| - j, b.trace[|mws|].request, b.trace[|mws|].raw)
    ensures |mws| == 0 ==> b.trace[0] == TransportBuild(req, raw) && b == Built(s, t.build(req, raw), b.trace)
    ensures var p := BeforeBuildChain(mws, |mws|, s, req, raw);
      var a := AfterBuildChain(mws, |mws|, p.state, p.request, p.raw, t.build(p.request, p.raw));
      && b.trace[|mws|] == TransportBuild(p.request, p.raw)
      && b.state == a.state && b.response == a.response
  {
    var n := |mws|;
    var p := BeforeBuildChain(mws, n, s, req, raw);
    var a := AfterBuildChain(mws, n, p.state, p.request, p.raw, t.build(p.request, p.raw));
    var trace := p.trace + [TransportBuild(p.request, p.raw)] + a.trace;
    assert forall j :: 0 <= j < n ==> trace[n + 1 + j] == a.trace[j];
    Built(a.state, a.response, trace)
  }

  /** The build chains only look at the middlewares below `k`. */
  lemma {:induction false} ChainsIgnoreLaterMiddlewares<S>(mws: seq<Middleware<S>>, m: Middleware<S>, k: nat, s: S, req: Request, raw: RawResponse, response: Response)
    requires k <= |mws|
    ensures BeforeBuildChain(Register(mws, m), k, s, req, raw) == BeforeBuildChain(mws, k, s, req, raw)
    ensures AfterBuildChain(Register(mws, m), k, s, req, raw, response) == AfterBuildChain(mws, k, s, req, raw, response)
    decreases k
  {
    if k > 0 {
      assert Register(mws, m)[k - 1] == mws[k - 1];
      var step := mws[k - 1].beforeBuildResponse(s, req, raw);
      ChainsIgnoreLaterMiddlewares(mws, m, k - 1, step.state, step.request, step.raw, response);
      var after := mws[k - 1].afterBuildResponse(s, req, raw, response);
      ChainsIgnoreLaterMiddlewares(mws, m, k - 1, after.state, req, raw, after.response);
    }
  }

  /** A newly registered middleware is the innermost one when a response
      is built: its `before_build_response` sees the pair first and its
      `after_build_response` sees the transport's response first. */
  lemma RegisteredLastBuildsFirst<S>(mws: seq<Middleware<S>>, m: Middleware<S>, s: S, req: Request, raw: RawResponse, response: Response)
    ensures var step := m.beforeBuildResponse(s, req, raw);
      var p := BeforeBuildChain(Register(mws, m), |mws| + 1, s, req, raw);
      var q := BeforeBuildChain(mws, |mws|, step.state, step.request, step.raw);
      p.state == q.state && p.request == q.request && p.raw == q.raw
    ensures var after := m.afterBuildResponse(s, req, raw, response);
      var b := AfterBuildChain(Register(mws, m), |mws| + 1, s, req, raw, response);
      var b' := AfterBuildChain(mws, |mws|, after.state, req, raw, after.response);
      b.state == b'.state && b.response == b'.response
  {
    var step := m.beforeBuildResponse(s, req, raw);
    ChainsIgnoreLaterMiddlewares(mws, m, |mws|, step.state, step.request, step.raw, response);
    var after := m.afterBuildResponse(s, req, raw, response);
    ChainsIgnoreLaterMiddlewares(mws, m, |mws|, after.state, req, raw, after.response);
  }

  /** Registering a middleware makes it the innermost layer of
      `build_response`: its `before_build_response` runs first on the pair as
      given, the earlier middlewares then transform what it returned, the
      transport builds from their result, and its `after_build_response`
      runs first on the transport's response, before the earlier ones. */
  lemma BuildResponseRegisteredLast<S>(mws: seq<Middleware<S>>, m: Middleware<S>, t: Transport, s: S, req: Request, raw: RawResponse)
    ensures var step := m.beforeBuildResponse(s, req, raw);
      var p := BeforeBuildChain(mws, |mws|, step.state, step.request, step.raw);
      var after := m.afterBuildResponse(p.state, p.request, p.raw, t.build(p.request, p.raw));
      var a := AfterBuildChain(mws, |mws|, after.state, p.request, p.raw, after.response);
      var b := BuildResponse(Register(mws, m), t, s, req, raw);
      && b.trace[0] == BeforeBuild(|mws|)
      && b.trace[|mws| + 1] == TransportBuild(p.request, p.raw)
      && b.trace[|mws| + 2] == AfterBuild(|mws|, p.request, p.raw)
      && b.state == a.state && b.response == a.response
  {
    var step := m.beforeBuildResponse(s, req, raw);
    var p := BeforeBuildChain(mws, |mws|, step.state, step.request, step.raw);
    var response := t.build(p.request, p.raw);
    RegisteredLastBuildsFirst(mws, m, s, req, raw, response);
    var p' := BeforeBuildChain(Register(mws, m), |mws| + 1, s, req, raw);
    assert p'.state == p.state && p'.request == p.request && p'.raw == p.raw;
    RegisteredLastBuildsFirst(mws, m, p.state, p.request, p.raw, response);
  }

  /** The earliest registered middleware is the outermost one: its
      `before_build_response` runs last, on the pair all the others made. */
  lemma {:induction false} RegisteredFirstBuildsLast<S>(m: Middleware<S>, mws: seq<Middleware<S>>, k: nat, s: S, req: Request, raw: RawResponse)
    requires k <= |mws|
    ensures var p := BeforeBuildChain([m] + mws, k + 1, s, req, raw);
      var q := BeforeBuildChain(mws, k, s, req, raw);
      var step := m.beforeBuildResponse(q.state, q.request, q.raw);
      p.state == step.state && p.request == step.request && p.raw == step.raw
    decreases k
  {
    if k > 0 {
      assert ([m] + mws)[k] == mws[k - 1];
      var step := mws[k - 1].beforeBuildResponse(s, req, raw);
      RegisteredFirstBuildsLast(m, mws, k - 1, step.state, step.request, step.raw);
    }
  }

  // ---------------------------------------------------------------------
  // send

  /** `send` from the middleware at index `i` on. When every middleware
      has let the request through, the inherited `send` puts it on the wire
      and builds the response through this adapter's `build_response`. */
  function SendFrom<S>(mws: seq<Middleware<S>>, t: Transport, i: nat, s: S, req: Request): (r: Run<S>)
    requires i <= |mws|
    ensures i < |mws| ==> |r.trace| > 0 && r.trace[0] == BeforeSend(i)
    ensures i == |mws| ==> |r.trace| > 0 && r.trace[0] == TransportSend(req)
    decreases |mws| - i
  {
    if i == |mws| then
      match t.send(req)
      case Err(e) => Run(s, Err(e), [TransportSend(req)])
      case Ok(raw) =>
        var b := BuildResponse(mws, t, s, req, raw);
        Run(b.state, Ok(b.response), [TransportSend(req)] + b.trace)
    else
      var step := mws[i].beforeSend(s, req);
      match step.value
      case ReturnsResponse(response) => Run(step.state, Ok(response), [BeforeSend(i)])
      case ReturnsRaw(raw) =>
        var b := BuildResponse(mws, t, step.state, step.request, raw);
        Run(b.state, Ok(b.response), [BeforeSend(i)] + b.trace)
      case ReturnsFalsy =>
        var rest := SendFrom(mws, t, i + 1, step.state, step.request);
        Run(rest.state, rest.result, [BeforeSend(i)] + rest.trace)
      case ReturnsOtherTruthy => Run(step.state, Err(ValueError), [BeforeSend(i)])
      case Raises(e) => Run(step.state, Err(e), [BeforeSend(i)])
  }

  function Send<S>(mws: seq<Middleware<S>>, t: Transport, s: S, req: Request): (r: Run<S>)
    ensures |mws| > 0 ==> |r.trace| > 0 && r.trace[0] == BeforeSend(0)
    ensures |mws| == 0 ==> |r.trace| > 0 && r.trace[0] == TransportSend(req)
  {
    SendFrom(mws, t, 0, s, req)
  }

  /** The state and request after `before_send` of the first `k`
      middlewares, computed front to back; `None` when one of them did not
      return a falsy value. */
  function Consult<S>(mws: seq<Middleware<S>>, k: nat, s: S, req: Request): Option<Consulted<S>>
    requires k <= |mws|
    decreases k
  {
    if k == 0 then Some(Consulted(s, req))
    else
      match Consult(mws, k - 1, s, req)
      case None => None
      case Some(c) =>
        var step := mws[k - 1].beforeSend(c.state, c.request);
        if step.value.ReturnsFalsy? then Some(Consulted(step.state, step.request)) else None
  }

  /** `BeforeSend(i), ..., BeforeSend(i + c - 1)`. */
  function SendHooks(i: nat, c: nat): (tr: seq<Event>)
    ensures |tr| == c
    ensures forall j :: 0 <= j < c ==> tr[j] == BeforeSend(i + j)
  {
    seq(c, j requires 0 <= j < c => BeforeSend(i + j))
  }

  /** Once the first `k` middlewares have let the request through, the rest
      of `send` is a run from index `k` on the state and request they left. */
  lemma {:induction false} SendAfterConsulting<S>(mws: seq<Middleware<S>>, t: Transport, s: S, req: Request, k: nat)
    requires k <= |mws|
    requires Consult(mws, k, s, req).Some?
    ensures var c := Consult(mws, k, s, req).value;
      var rest := SendFrom(mws, t, k, c.state, c.request);
      Send(mws, t, s, req) == Run(rest.state, rest.result, SendHooks(0, k) + rest.trace)
    decreases k
  {
    if k > 0 {
      var c1 := Consult(mws, k - 1, s, req).value;
      var c := Consult(mws, k, s, req).value;
      var step := mws[k - 1].beforeSend(c1.state, c1.request);
      assert step.value.ReturnsFalsy? && c == Consulted(step.state, step.request);
      SendAfterConsulting(mws, t, s, req, k - 1);
      SendFromPassesOn(mws, t, k - 1, c1.state, c1.request);
      var r1 := SendFrom(mws, t, k - 1, c1.state, c1.request);
      var rest := SendFrom(mws, t, k, c.state, c.request);
      HooksThenStep(k - 1, rest.trace);
    }
  }

  /** Appending the hook at `k` to the first `k` hooks. */
  lemma HooksThenStep(k: nat, tail: seq<Event>)
    ensures SendHooks(0, k) + ([BeforeSend(k)] + tail) == SendHooks(0, k + 1) + tail
  {
    assert SendHooks(0, k) + [BeforeSend(k)] == SendHooks(0, k + 1);
  }

  /** A falsy `before_send` at index `i` hands its state and request on to
      the run from `i + 1`. */
  lemma SendFromPassesOn<S>(mws: seq<Middleware<S>>, t: Transport, i: nat, s: S, req: Request)
    requires i < |mws|
    requires mws[i].beforeSend(s, req).value.ReturnsFalsy?
    ensures var step := mws[i].beforeSend(s, req);
      var rest := SendFrom(mws, t, i + 1, step.state, step.request);
      SendFrom(mws, t, i, s, req) == Run(rest.state, rest.result, [BeforeSend(i)] + rest.trace)
  {
  }

  /** A `Response` from `before_send` is the result as it is: no later
      `before_send`, no transport call, no build. */
  lemma SendShortCircuitsOnResponse<S>(mws: seq<Middleware<S>>, t: Transport, s: S, req: Request, k: nat, response: Response)
    requires k < |mws|
    requires Consult(mws, k, s, req).Some?
    requires mws[k].beforeSend(Consult(mws, k, s, req).value.state, Consult(mws, k, s, req).value.request).value == ReturnsResponse(response)
    ensures Send(mws, t, s, req).result == Ok(response)
    ensures Send(mws, t, s, req).trace == SendHooks(0, k + 1)
  {
    SendAfterConsulting(mws, t, s, req, k);
    assert SendHooks(0, k) + [BeforeSend(k)] == SendHooks(0, k + 1);
  }

  /** A raw `HTTPResponse` from `before_send` goes through the whole of
      `build_response`, with the request as the hooks so far left it. */
  lemma SendBuildsRawResponse<S>(mws: seq<Middleware<S>>, t: Transport, s: S, req: Request, k: nat, raw: RawResponse)
    requires k < |mws|
    requires Consult(mws, k, s, req).Some?
    requires mws[k].beforeSend(Consult(mws, k, s, req).value.state, Consult(mws, k, s, req).value.request).value == ReturnsRaw(raw)
    ensures var c := Consult(mws, k, s, req).value;
      var step := mws[k].beforeSend(c.state, c.request);
      var b := BuildResponse(mws, t, step.state, step.request, raw);
      Send(mws, t, s, req) == Run(b.state, Ok(b.response), SendHooks(0, k + 1) + b.trace)
  {
    SendAfterConsulting(mws, t, s, req, k);
    assert SendHooks(0, k) + [BeforeSend(k)] == SendHooks(0, k + 1);
  }

  /** Any other truthy value from `before_send` raises `ValueError`, and an
      exception raised by the hook escapes; either way nothing later runs. */
  lemma SendStopsOnOtherValue<S>(mws: seq<Middleware<S>>, t: Transport, s: S, req: Request, k: nat)
    requires k < |mws|
    requires Consult(mws, k, s, req).Some?
    requires var c := Consult(mws, k, s, req).value;
      var v := mws[k].beforeSend(c.state, c.request).value;
      v.ReturnsOtherTruthy? || v.Raises?
    ensures var c := Consult(mws, k, s, req).value;
      var v := mws[k].beforeSend(c.state, c.request).value;
      Send(mws, t, s, req).result == Err(if v.Raises? then v.error else ValueError)
    ensures Send(mws, t, s, req).trace == SendHooks(0, k + 1)
  {
    SendAfterConsulting(mws, t, s, req, k);
    assert SendHooks(0, k) + [BeforeSend(k)] == SendHooks(0, k + 1);
  }

  /** When every middleware lets the request through, the transport is
      called once, after all of them, with the request they left. */
  lemma SendFallsThroughToTransport<S>(mws: seq<Middleware<S>>, t: Transport, s: S, req: Request)
    requires Consult(mws, |mws|, s, req).Some?
    ensures var c := Consult(mws, |mws|, s, req).value;
      var r := Send(mws, t, s, req);
      && |r.trace| > |mws|
      && r.trace[..|mws| + 1] == SendHooks(0, |mws|) + [TransportSend(c.request)]
      && (forall j :: |mws| < j < |r.trace| ==> !r.trace[j].TransportSend? && !r.trace[j].BeforeSend?)
      && r.result == match t.send(c.request)
         case Err(e) => Err(e)
         case Ok(raw) => Ok(BuildResponse(mws, t, c.state, c.request, raw).response)
  {
    SendAfterConsulting(mws, t, s, req, |mws|);
    var c := Consult(mws, |mws|, s, req).value;
    var r := Send(mws, t, s, req);
    var rest := SendFrom(mws, t, |mws|, c.state, c.request);
    assert r.trace == SendHooks(0, |mws|) + rest.trace;
    assert r.trace[..|mws| + 1] == SendHooks(0, |mws|) + [TransportSend(c.request)];
  }

  /** The transport is called exactly when every middleware lets the
      request through, and then only once. */
  lemma {:induction false} TransportIffAllContinue<S>(mws: seq<Middleware<S>>, t: Transport, s: S, req: Request)
    ensures Consult(mws, |mws|, s, req).Some? <==>
      exists j :: 0 <= j < |Send(mws, t, s, req).trace| && Send(mws, t, s, req).trace[j].TransportSend?
    ensures forall j, j' :: 0 <= j < j' < |Send(mws, t, s, req).trace| ==>
      !(Send(mws, t, s, req).trace[j].TransportSend? && Send(mws, t, s, req).trace[j'].TransportSend?)
  {
    var r := Send(mws, t, s, req);
    var k := LastConsulted(mws, s, req, |mws|);
    SendAfterConsulting(mws, t, s, req, k);
    var c := Consult(mws, k, s, req).value;
    var rest := SendFrom(mws, t, k, c.state, c.request);
    assert r.trace == SendHooks(0, k) + rest.trace;
    if k == |mws| {
      match t.send(c.request) {
        case Err(e) =>
          assert rest.trace == [TransportSend(c.request)];
        case Ok(raw) =>
          var b := BuildResponse(mws, t, c.state, c.request, raw);
          BuildNeverSends(mws, t, c.state, c.request, raw);
          assert rest.trace == [TransportSend(c.request)] + b.trace;
      }
      assert r.trace[k] == TransportSend(c.request);
    } else {
      var step := mws[k].beforeSend(c.state, c.request);
      if step.value.ReturnsRaw? {
        BuildNeverSends(mws, t, step.state, step.request, step.value.raw);
      }
      assert Consult(mws, k + 1, s, req).None?;
      ConsultNoneStaysNone(mws, s, req, k + 1, |mws|);
    }
  }

  /** `build_response` neither sends nor calls `before_send`. */
  lemma BuildNeverSends<S>(mws: seq<Middleware<S>>, t: Transport, s: S, req: Request, raw: RawResponse)
    ensures forall j :: 0 <= j < |BuildResponse(mws, t, s, req, raw).trace| ==>
      !BuildResponse(mws, t, s, req, raw).trace[j].TransportSend? && !BuildResponse(mws, t, s, req, raw).trace[j].BeforeSend?
  {
  }

  /** The largest `k <= bound` that the first `k` middlewares all let through. */
  lemma {:induction false} LastConsulted<S>(mws: seq<Middleware<S>>, s: S, req: Request, bound: nat) returns (k: nat)
    requires bound <= |mws|
    ensures k <= bound
    ensures Consult(mws, k, s, req).Some?
    ensures k < bound ==> Consult(mws, k + 1, s, req).None?
    decreases bound
  {
    if bound == 0 || Consult(mws, bound, s, req).Some? {
      k := bound;
    } else if Consult(mws, bound - 1, s, req).Some? {
      k := bound - 1;
    } else {
      k := LastConsulted(mws, s, req, bound - 1);
    }
  }

  lemma {:induction false} ConsultNoneStaysNone<S>(mws: seq<Middleware<S>>, s: S, req: Request, k: nat, k': nat)
    requires k <= k' <= |mws|
    requires Consult(mws, k, s, req).None?
    ensures Consult(mws, k', s, req).None?
    decreases k' - k
  {
    if k < k' {
      ConsultNoneStaysNone(mws, s, req, k, k' - 1);
    }
  }

  /** Registering a middleware does not change what the earlier ones see
      or return when the request is sent. */
  lemma {:induction false} RegisterKeepsEarlierConsultation<S>(mws: seq<Middleware<S>>, m: Middleware<S>, s: S, req: Request, k: nat)
    requires k <= |mws|
    ensures Consult(Register(mws, m), k, s, req) == Consult(mws, k, s, req)
    decreases k
  {
    if k > 0 {
      RegisterKeepsEarlierConsultation(mws, m, s, req, k - 1);
      assert Register(mws, m)[k - 1] == mws[k - 1];
    }
  }

  /** `send` through an adapter with a single middleware `m`. */
  lemma SendThroughOneMiddleware<S>(m: Middleware<S>, t: Transport, s: S, req: Request)
    ensures var step := m.beforeSend(s, req);
      var r := Send([m], t, s, req);
      match step.value
      case ReturnsResponse(response) => r.state == step.state && r.result == Ok(response)
      case ReturnsOtherTruthy => r.state == step.state && r.result == Err(ValueError)
      case Raises(e) => r.state == step.state && r.result == Err(e)
      case ReturnsRaw(raw) =>
        var b := m.beforeBuildResponse(step.state, step.request, raw);
        var a := m.afterBuildResponse(b.state, b.request, b.raw, t.build(b.request, b.raw));
        r.state == a.state && r.result == Ok(a.response)
      case ReturnsFalsy =>
        match t.send(step.request)
        case Err(e) => r.state == step.state && r.result == Err(e)
        case Ok(raw) =>
          var b := m.beforeBuildResponse(step.state, step.request, raw);
          var a := m.afterBuildResponse(b.state, b.request, b.raw, t.build(b.request, b.raw));
          r.state == a.state && r.result == Ok(a.response)
  {
    var step := m.beforeSend(s, req);
    match step.value
    case ReturnsRaw(raw) =>
      var b := m.beforeBuildResponse(step.state, step.request, raw);
      assert BeforeBuildChain([m], 1, step.state, step.request, raw).state == b.state;
    case ReturnsFalsy =>
      assert SendFrom([m], t, 0, s, req).result == SendFrom([m], t, 1, step.state, step.request).result;
      match t.send(step.request) {
        case Err(e) =>
        case Ok(raw) =>
          var b := m.beforeBuildResponse(step.state, step.request, raw);
          assert BeforeBuildChain([m], 1, step.state, step.request, raw).state == b.state;
      }
    case _ =>
  }

  // ---------------------------------------------------------------------
  // A pipeline of base middlewares

  lemma {:induction false} BaseConsultation<S(!new)>(mws: seq<Middleware<S>>, s: S, req: Request, k: nat)
    requires k <= |mws|
    requires forall i :: 0 <= i < |mws| ==> ActsAsBase(mws[i])
    ensures Consult(mws, k, s, req) == Some(Consulted(s, req))
    decreases k
  {
    if k > 0 {
      BaseConsultation(mws, s, req, k - 1);
      assert ActsAsBase(mws[k - 1]);
    }
  }

  lemma {:induction false} BaseBeforeBuild<S(!new)>(mws: seq<Middleware<S>>, k: nat, s: S, req: Request, raw: RawResponse)
    requires k <= |mws|
    requires forall i :: 0 <= i < |mws| ==> ActsAsBase(mws[i])
    ensures var p := BeforeBuildChain(mws, k, s, req, raw);
      p.state == s && p.request == req && p.raw == raw
    decreases k
  {
    if k > 0 {
      assert ActsAsBase(mws[k - 1]);
      BaseBeforeBuild(mws, k - 1, s, req, raw);
    }
  }

  lemma {:induction false} BaseAfterBuild<S(!new)>(mws: seq<Middleware<S>>, k: nat, s: S, req: Request, raw: RawResponse, response: Response)
    requires k <= |mws|
    requires forall i :: 0 <= i < |mws| ==> ActsAsBase(mws[i])
    ensures var b := AfterBuildChain(mws, k, s, req, raw, response);
      b.state == s && b.response == response
    decreases k
  {
    if k > 0 {
      assert ActsAsBase(mws[k - 1]);
      BaseAfterBuild(mws, k - 1, s, req, raw, response);
    }
  }

  /** Middlewares that override nothing leave the adapter behaving like
      the bare `HTTPAdapter`: no pool keyword arguments, and a send whose
      result is the transport's. */
  lemma BasePipelineIsBareTransport<S(!new)>(mws: seq<Middleware<S>>, t: Transport, s: S, req: Request, connections: nat, maxsize: nat, block: bool)
    requires forall i :: 0 <= i < |mws| ==> ActsAsBase(mws[i])
    ensures InitPoolmanager(mws, connections, maxsize, block) == Ok(PoolConfig(connections, maxsize, block, map[]))
    ensures Send(mws, t, s, req).state == s
    ensures Send(mws, t, s, req).result == match t.send(req)
      case Err(e) => Err(e)
      case Ok(raw) => Ok(t.build(req, raw))
  {
    var r := InitPoolmanager(mws, connections, maxsize, block);
    forall i | 0 <= i < |mws|
      ensures Contribution(mws[i].beforeInitPoolmanager(connections, maxsize, block)) == map[]
    {
      assert ActsAsBase(mws[i]);
    }
    assert r.Ok?;
    BaseConsultation(mws, s, req, |mws|);
    SendAfterConsulting(mws, t, s, req, |mws|);
    match t.send(req)
    case Err(e) =>
    case Ok(raw) =>
      BaseBeforeBuild(mws, |mws|, s, req, raw);
      BaseAfterBuild(mws, |mws|, s, req, raw, t.build(req, raw));
  }
}
