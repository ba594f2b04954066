/** requests_middleware/contrib/throttleware.py: two throttlers and the
    middleware that consults one before each send and records each built
    response. `datetime.utcnow()` is the explicit argument `now`. */
module Throttle {
  import opened Http
  import Pipeline

  // ---------------------------------------------------------------------
  // DelayThrottler

  datatype DelayThrottler = DelayThrottler(delay: int, lastVisit: Option<int>)

  /** `DelayThrottler.__init__`: the delay, and no visit yet. */
  function NewDelayThrottler(delay: int): (t: DelayThrottler)
    ensures t.lastVisit.None? && t.delay == delay
  {
    DelayThrottler(delay, None)
  }

  /** `DelayThrottler.check` as written: it compares `elapsed.seconds`,
      the within-day part of the gap, with the delay. */
  function DelayCheckAsWritten(t: DelayThrottler, now: int): (o: Outcome)
    ensures o.Fail? ==> o.error == ThrottleError
    ensures t.lastVisit.None? ==> o == Pass
    ensures t.lastVisit.Some? && 0 <= now - t.lastVisit.value < SecondsPerDay ==>
      (o.Fail? <==> now - t.lastVisit.value < t.delay)
  {
    match t.lastVisit
    case None => Pass
    case Some(last) => if TimedeltaSeconds(now - last) < t.delay then Fail(ThrottleError) else Pass
  }

  /** The corrected `DelayThrottler.check`: it compares the whole gap with
      the delay. */
  function DelayCheck(t: DelayThrottler, now: int): Outcome
  {
    match t.lastVisit
    case None => Pass
    case Some(last) => if now - last < t.delay then Fail(ThrottleError) else Pass
  }

  /** `DelayThrottler.store`. */
  function DelayStore(t: DelayThrottler, now: int): (t': DelayThrottler)
    ensures t'.lastVisit == Some(now)
    ensures t'.delay == t.delay
  {
    t.(lastVisit := Some(now))
  }

  /** Before any store, checking never raises. */
  lemma DelayCheckBeforeStore(delay: int, now: int)
    ensures DelayCheckAsWritten(NewDelayThrottler(delay), now) == Pass
    ensures DelayCheck(NewDelayThrottler(delay), now) == Pass
  {
  }

  /** After a store at `stored`, the check as written raises `ThrottleError`
      exactly when the seconds component of the gap is below the delay. */
  lemma DelayStoreThenCheckAsWritten(t: DelayThrottler, stored: int, now: int)
    ensures DelayStore(t, stored).delay == t.delay
    ensures DelayCheckAsWritten(DelayStore(t, stored), now) ==
      if TimedeltaSeconds(now - stored) < t.delay then Fail(ThrottleError) else Pass
  {
  }

  /** After a store at `stored`, the corrected check raises `ThrottleError`
      exactly when fewer than `delay` seconds have passed. */
  lemma DelayStoreThenCheck(t: DelayThrottler, stored: int, now: int)
    ensures DelayCheck(DelayStore(t, stored), now) ==
      if now - stored < t.delay then Fail(ThrottleError) else Pass
  {
  }

  /** The two checks agree whenever the gap is less than a day. */
  lemma DelayChecksAgreeWithinADay(t: DelayThrottler, now: int)
    requires t.lastVisit.Some? ==> 0 <= now - t.lastVisit.value < SecondsPerDay
    ensures DelayCheckAsWritten(t, now) == DelayCheck(t, now)
  {
  }

  /** Once the corrected check passes it keeps passing as time goes on;
      `DelayCheckAsWrittenThrottlesADayLater` shows the check as written
      does not. */
  lemma DelayCheckMonotone(t: DelayThrottler, now: int, later: int)
    requires now <= later
    requires DelayCheck(t, now) == Pass
    ensures DelayCheck(t, later) == Pass
  {
  }

  /** The check as written does not keep passing: with a delay of five
      seconds, a request six seconds after the last one passes, yet one a
      whole day after it is refused, because the gap's seconds component is
      zero again. */
  lemma DelayCheckAsWrittenThrottlesADayLater(stored: int)
    ensures DelayCheckAsWritten(DelayStore(NewDelayThrottler(5), stored), stored + 6) == Pass
    ensures DelayCheckAsWritten(DelayStore(NewDelayThrottler(5), stored), stored + SecondsPerDay) == Fail(ThrottleError)
    ensures DelayCheck(DelayStore(NewDelayThrottler(5), stored), stored + SecondsPerDay) == Pass
  {
    assert TimedeltaSeconds(6) == 6;
    assert TimedeltaSeconds(SecondsPerDay) == 0;
  }

  // ---------------------------------------------------------------------
  // RequestPerTimeThrottler

  /** `resetter(when, now)` is the caller-supplied predicate, with the
      current time made explicit. */
  datatype RateThrottler = RateThrottler(count: int, resetter: (int, int) -> bool, lastReset: int, visitCount: nat)

  /** `RequestPerTimeThrottler.__init__`: no visits counted, last reset
      now. */
  function NewRateThrottler(count: int, resetter: (int, int) -> bool, now: int): (t: RateThrottler)
    ensures t.visitCount == 0 && t.lastReset == now && t.count == count
    ensures forall when, at :: t.resetter(when, at) == resetter(when, at)
  {
    RateThrottler(count, resetter, now, 0)
  }

  datatype RateChecked = RateChecked(throttler: RateThrottler, outcome: Outcome)

  /** `RequestPerTimeThrottler.check`: reset if the resetter says so, then
      refuse once `count` visits have been stored since the last reset. */
  function RateCheck(t: RateThrottler, now: int): (c: RateChecked)
    ensures c.outcome.Fail? ==> c.outcome.error == ThrottleError
    ensures c.outcome.Fail? <==> c.throttler.visitCount >= t.count
    ensures c.throttler.count == t.count && c.throttler.resetter == t.resetter
    ensures c.throttler.visitCount == 0 || c.throttler == t
  {
    var t' := if t.resetter(t.lastReset, now) then t.(lastReset := now, visitCount := 0) else t;
    RateChecked(t', if t'.visitCount >= t'.count then Fail(ThrottleError) else Pass)
  }

  /** `RequestPerTimeThrottler.store`. */
  function RateStore(t: RateThrottler): (t': RateThrottler)
    ensures t'.visitCount == t.visitCount + 1
    ensures t'.(visitCount := t.visitCount) == t
  {
    t.(visitCount := t.visitCount + 1)
  }

  /** When the resetter fires, the count starts again from zero at `now`,
      so the check passes exactly when `count` is positive. */
  lemma RateCheckAfterReset(t: RateThrottler, now: int)
    requires t.resetter(t.lastReset, now)
    ensures RateCheck(t, now).throttler == t.(lastReset := now, visitCount := 0)
    ensures RateCheck(t, now).outcome == if t.count > 0 then Pass else Fail(ThrottleError)
  {
  }

  /** Without a reset the check changes nothing and raises exactly when
      `count` visits have already been stored. */
  lemma RateCheckWithoutReset(t: RateThrottler, now: int)
    requires !t.resetter(t.lastReset, now)
    ensures RateCheck(t, now).throttler == t
    ensures RateCheck(t, now).outcome == if t.visitCount >= t.count then Fail(ThrottleError) else Pass
  {
  }

  /** `k` rounds of check-then-store at `now`; `None` once a check raises. */
  function Rounds(t: RateThrottler, now: int, k: nat): Option<RateThrottler>
    decreases k
  {
    if k == 0 then Some(t)
    else
      var c := RateCheck(t, now);
      if c.outcome.Fail? then None else Rounds(RateStore(c.throttler), now, k - 1)
  }

  /** Without a reset, `count - visitCount` rounds of check-then-store
      succeed, each adding one visit, and the next check raises. */
  lemma {:induction false} RoundsUpToCount(t: RateThrottler, now: int, k: nat)
    requires !t.resetter(t.lastReset, now)
    requires t.visitCount + k <= t.count
    ensures Rounds(t, now, k) == Some(t.(visitCount := t.visitCount + k))
    ensures t.visitCount + k == t.count ==> RateCheck(t.(visitCount := t.visitCount + k), now).outcome == Fail(ThrottleError)
    decreases k
  {
    if k > 0 {
      assert RateCheck(t, now) == RateChecked(t, Pass);
      RoundsUpToCount(RateStore(t), now, k - 1);
      assert RateStore(t).(visitCount := RateStore(t).visitCount + (k - 1)) == t.(visitCount := t.visitCount + k);
    }
  }

  /** The corrected `per_hour_resetter`: it compares the date as well as
      the hour. */
  function PerHourResetter(when: int, now: int): bool
  {
    now > when && HourIndex(now) != HourIndex(when)
  }

  /** `per_hour_resetter` as written: a later time whose hour of the day
      differs. It never fires where the date-aware resetter would not. */
  function PerHourResetterAsWritten(when: int, now: int): (b: bool)
    ensures b ==> PerHourResetter(when, now)
    ensures now <= when ==> !b
  {
    now > when && HourOfDay(now) != HourOfDay(when)
  }

  /** The corrected resetter fires exactly when a later clock hour has
      begun, and so always once an hour has passed. */
  lemma PerHourResetterFiresOnNewHour(when: int, now: int)
    ensures PerHourResetter(when, now) <==> HourIndex(now) > HourIndex(when)
    ensures now - when >= SecondsPerHour ==> PerHourResetter(when, now)
  {
  }

  /** Within the same clock hour, or a later one less than a day on, the two
      resetters agree. */
  lemma PerHourResettersAgreeWithinADay(when: int, now: int)
    requires HourIndex(now) - HourIndex(when) < 24
    ensures PerHourResetterAsWritten(when, now) == PerHourResetter(when, now)
  {
    var d := HourIndex(now) - HourIndex(when);
    if now > when && 0 < d {
      assert HourIndex(now) == HourIndex(when) + d;
      assert HourOfDay(now) == (HourIndex(when) + d) % 24;
    }
  }

  /** The resetter as written misses a whole day: a day and a second after
      midnight the hour of day is the same, so it does not fire. */
  lemma PerHourResetterAsWrittenMissesADay()
    ensures !PerHourResetterAsWritten(0, SecondsPerDay + 1)
    ensures PerHourResetter(0, SecondsPerDay + 1)
  {
    assert HourOfDay(SecondsPerDay + 1) == 0;
  }

  /** `RequestsPerHourThrottler`: a rate throttler with no visits yet,
      reset by `per_hour_resetter` as written. */
  function RequestsPerHourThrottler(count: int, now: int): (t: RateThrottler)
    ensures t.count == count && t.lastReset == now && t.visitCount == 0
    ensures forall when, at :: t.resetter(when, at) == PerHourResetterAsWritten(when, at)
  {
    NewRateThrottler(count, PerHourResetterAsWritten, now)
  }

  /** Five requests in the same moment succeed, the sixth is refused, and
      two hours later one succeeds again. */
  lemma PerHourFiveThenRefusedThenReset(start: int)
    ensures Rounds(RequestsPerHourThrottler(5, start), start, 5).Some?
    ensures var t := Rounds(RequestsPerHourThrottler(5, start), start, 5).value;
      RateCheck(t, start).outcome == Fail(ThrottleError) &&
      RateCheck(t, start + 2 * SecondsPerHour).outcome == Pass
  {
    var t0 := RequestsPerHourThrottler(5, start);
    RoundsUpToCount(t0, start, 5);
    var t := t0.(visitCount := 5);
    assert PerHourResetterAsWritten(t.lastReset, start + 2 * SecondsPerHour) by {
      PerHourResetterFiresOnNewHour(start, start + 2 * SecondsPerHour);
      PerHourResettersAgreeWithinADay(start, start + 2 * SecondsPerHour);
    }
  }

  // ---------------------------------------------------------------------
  // ThrottleMiddleware

  datatype Throttler = Delay(delayThrottler: DelayThrottler) | PerTime(rateThrottler: RateThrottler)

  datatype Checked = Checked(throttler: Throttler, outcome: Outcome)

  /** `BaseThrottler.check` dispatched to the throttler's kind: a delay
      throttler's check as written, or a rate throttler's check with its
      optional reset. Every refusal is a `ThrottleError`; a check never
      changes a delay throttler and can only lower a rate throttler's visit
      count. */
  function Check(th: Throttler, now: int): (c: Checked)
    ensures th.Delay? ==> c.outcome == DelayCheckAsWritten(th.delayThrottler, now)
    ensures th.PerTime? ==> c == Checked(PerTime(RateCheck(th.rateThrottler, now).throttler), RateCheck(th.rateThrottler, now).outcome)
    ensures c.outcome.Fail? ==> c.outcome.error == ThrottleError
    ensures th.Delay? ==> c.throttler == th
    ensures th.PerTime? ==> c.throttler.PerTime?
    ensures th.PerTime? ==> c.throttler.rateThrottler.visitCount <= th.rateThrottler.visitCount
  {
    match th
    case Delay(d) => Checked(th, DelayCheckAsWritten(d, now))
    case PerTime(r) =>
      var c := RateCheck(r, now);
      Checked(PerTime(c.throttler), c.outcome)
  }

  /** `BaseThrottler.store` dispatched to the throttler's kind: a delay
      throttler remembers `now`, a rate throttler counts one more visit. */
  function Store(th: Throttler, now: int): (th': Throttler)
    ensures th'.Delay? == th.Delay?
    ensures th.Delay? ==> th'.delayThrottler.lastVisit == Some(now) && th'.delayThrottler.delay == th.delayThrottler.delay
    ensures th.PerTime? ==> th'.rateThrottler.visitCount == th.rateThrottler.visitCount + 1
    ensures th.PerTime? ==> th'.rateThrottler.(visitCount := th.rateThrottler.visitCount) == th.rateThrottler
  {
    match th
    case Delay(d) => Delay(DelayStore(d, now))
    case PerTime(r) => PerTime(RateStore(r))
  }

  /** `ThrottleMiddleware` for a request handled at time `now`. Its
      `before_send` only checks: it never answers the request, never touches
      it, and returns `None` exactly when the check passes, raising
      `ThrottleError` otherwise. Its `after_build_response` only stores and
      returns the response as it is. */
  function ThrottleMiddleware(now: int): (m: Pipeline.Middleware<Throttler>)
    ensures forall th, req :: m.beforeSend(th, req).request == req
    ensures forall th, req :: m.beforeSend(th, req).state == Check(th, now).throttler
    ensures forall th, req :: (m.beforeSend(th, req).value ==
      if Check(th, now).outcome == Pass then Pipeline.ReturnsFalsy else Pipeline.Raises(ThrottleError))
    ensures forall th, req, raw :: m.beforeBuildResponse(th, req, raw) == Pipeline.BuildStep(th, req, raw)
    ensures forall th, req, raw, response :: m.afterBuildResponse(th, req, raw, response) == Pipeline.AfterStep(Store(th, now), response)
  {
    Pipeline.Middleware(
      (connections: nat, maxsize: nat, block: bool) => Pipeline.Falsy,
      (th: Throttler, req: Request) =>
        var c := Check(th, now);
        Pipeline.SendStep(c.throttler, req, if c.outcome.Fail? then Pipeline.Raises(c.outcome.error) else Pipeline.ReturnsFalsy),
      (th: Throttler, req: Request, raw: RawResponse) => Pipeline.BuildStep(th, req, raw),
      (th: Throttler, req: Request, raw: RawResponse, response: Response) => Pipeline.AfterStep(Store(th, now), response))
  }
}
