/** Exponential backoff: the delay arithmetic and the two retry loops that share it. */
module Retrying {
  import opened Foundations

  const NANOS_PER_SEC := 1_000_000_000
  const U64_LIMIT := 0x1_0000_0000_0000_0000
  const U64_MAX := U64_LIMIT - 1
  const U128_LIMIT := 0x1_0000_0000_0000_0000_0000_0000_0000_0000

  /** A `Duration` in nanoseconds: u64 seconds and less than a second more. */
  type Nanos = n: int | 0 <= n < U64_LIMIT * NANOS_PER_SEC

  datatype RetryPolicy = RetryPolicy(
    minDelay: Nanos,
    maxDelay: Nanos,
    maxAttempts: nat,
    jitter: bool,
    hasOnRetry: bool)

  function Min(a: int, b: int): int {
    if a <= b then a else b
  }

  function Pow2(n: nat): nat {
    if n == 0 then 1 else 2 * Pow2(n - 1)
  }

  // ------------------------------------------------------------------ Delay

  /** The u128 product `min_delay * 2^min(attempt, 30)`. */
  function RawNanos(p: RetryPolicy, attempt: nat): nat {
    p.minDelay * Pow2(Min(attempt, 30))
  }

  /** The jitter scale drawn for a delay, some value between one half and one. */
  type Scale = s: real | 0.5 <= s <= 1.0 witness 1.0

  /** A non-negative value scaled stays between its half and itself. */
  function Scaled(x: real, scale: Scale): (r: real)
    requires x >= 0.0
    ensures 0.5 * x <= r <= x
    ensures r == x * scale
  {
    assert x * (1.0 - scale) >= 0.0;
    assert x * (scale - 0.5) >= 0.0;
    x * scale
  }

  /** `(n as f64 * scale) as u128`, rounding of f64 aside. */
  function Jittered(n: nat, scale: Scale): (r: nat)
    ensures r <= n <= 2 * r + 1
    ensures r as real <= Scaled(n as real, scale) < (r + 1) as real
  {
    Scaled(n as real, scale).Floor
  }

  /** `compute_delay`, in nanoseconds, for the scale drawn. */
  function ComputeDelay(p: RetryPolicy, attempt: nat, scale: Scale): nat {
    var capped := Min(RawNanos(p, attempt), p.maxDelay);
    var result := if p.jitter then Jittered(capped, scale) else capped;
    Min(result, U64_MAX)
  }

  /** The delay before jitter. */
  function BaseDelay(p: RetryPolicy, attempt: nat): nat {
    ComputeDelay(p.(jitter := false), attempt, 1.0)
  }

  /** `d` doubled n times. */
  function Doubled(d: nat, n: nat): nat {
    if n == 0 then d else 2 * Doubled(d, n - 1)
  }

  lemma TwiceTheProduct(d: nat, k: nat)
    ensures d * (2 * k) == 2 * (d * k)
  {
  }

  lemma {:induction false} DoubledIsProduct(d: nat, n: nat)
    ensures Doubled(d, n) == d * Pow2(n)
  {
    if n > 0 {
      DoubledIsProduct(d, n - 1);
      TwiceTheProduct(d, Pow2(n - 1));
    }
  }

  lemma {:induction false} DoubledMonotone(d: nat, m: nat, n: nat)
    requires m <= n
    ensures Doubled(d, m) <= Doubled(d, n)
    ensures d > 0 && m < n ==> Doubled(d, m) < Doubled(d, n)
    ensures d > 0 ==> Doubled(d, m) > 0
    ensures d == 0 ==> Doubled(d, n) == 0
  {
    if n > 0 {
      DoubledMonotone(d, if m < n then m else m - 1, n - 1);
    }
  }

  lemma {:induction false} DoubledLinear(d: nat, e: nat, n: nat)
    requires d <= e
    ensures Doubled(d, n) <= Doubled(e, n)
  {
    if n > 0 {
      DoubledLinear(d, e, n - 1);
    }
  }

  lemma FiveDoublings(d: nat, n: nat)
    ensures Doubled(d, n + 5) == 32 * Doubled(d, n)
  {
    assert Doubled(d, n + 5) == 2 * Doubled(d, n + 4);
    assert Doubled(d, n + 4) == 2 * Doubled(d, n + 3);
    assert Doubled(d, n + 3) == 2 * Doubled(d, n + 2);
    assert Doubled(d, n + 2) == 2 * Doubled(d, n + 1);
  }

  /** The exponent clamp keeps the product of any Duration inside u128. */
  lemma ProductNeverOverflows(p: RetryPolicy, attempt: nat)
    ensures RawNanos(p, attempt) < U128_LIMIT
  {
    var top := U64_LIMIT * NANOS_PER_SEC;
    DoubledIsProduct(p.minDelay, Min(attempt, 30));
    DoubledMonotone(p.minDelay, Min(attempt, 30), 30);
    DoubledLinear(p.minDelay, top, 30);
    FiveDoublings(top, 0);
    FiveDoublings(top, 5);
    FiveDoublings(top, 10);
    FiveDoublings(top, 15);
    FiveDoublings(top, 20);
    FiveDoublings(top, 25);
  }

  /** What the delay is without its two limits, in `Doubled` form. */
  lemma DelayIsDoubled(p: RetryPolicy, attempt: nat)
    ensures BaseDelay(p, attempt) == Min(Min(Doubled(p.minDelay, Min(attempt, 30)), p.maxDelay), U64_MAX)
  {
    DoubledIsProduct(p.minDelay, Min(attempt, 30));
  }

  /** The unjittered delay never exceeds the cap or a u64 and never shrinks from attempt to attempt. */
  lemma DelayGrowsToCap(p: RetryPolicy, attempt: nat)
    ensures BaseDelay(p, attempt) <= p.maxDelay && BaseDelay(p, attempt) <= U64_MAX
    ensures BaseDelay(p, attempt) <= BaseDelay(p, attempt + 1)
  {
    DelayIsDoubled(p, attempt);
    DelayIsDoubled(p, attempt + 1);
    DoubledMonotone(p.minDelay, Min(attempt, 30), Min(attempt + 1, 30));
  }

  /** No limit touches the delay: neither the exponent clamp, nor the cap, nor the u64 conversion. */
  predicate Unclamped(p: RetryPolicy, attempt: nat) {
    attempt <= 30 && p.minDelay * Pow2(attempt) <= Min(p.maxDelay, U64_MAX)
  }

  /** The delay is `min_delay * 2^attempt` exactly when no limit touches it, and less otherwise. */
  lemma DelayIsExactUnclamped(p: RetryPolicy, attempt: nat)
    requires p.minDelay > 0
    ensures BaseDelay(p, attempt) <= p.minDelay * Pow2(attempt)
    ensures BaseDelay(p, attempt) == p.minDelay * Pow2(attempt) <==> Unclamped(p, attempt)
  {
    DelayIsDoubled(p, attempt);
    DoubledIsProduct(p.minDelay, attempt);
    DoubledMonotone(p.minDelay, Min(attempt, 30), attempt);
  }

  /** Jitter takes away at most half, and adds nothing. */
  lemma JitterTakesAtMostHalf(p: RetryPolicy, attempt: nat, scale: Scale)
    ensures ComputeDelay(p, attempt, scale) <= BaseDelay(p, attempt) <= 2 * ComputeDelay(p, attempt, scale) + 1
  {
  }

  // ----------------------------------------------------------- Total sleeping

  /** The unjittered sleeps after the first k failures. */
  function SleepSum(p: RetryPolicy, k: nat): nat {
    if k == 0 then 0 else SleepSum(p, k - 1) + BaseDelay(p, k - 1)
  }

  lemma OneMore(k: int, m: int)
    ensures (k + 1) * m == k * m + m && m * (k + 1) == m * k + m
  {
  }

  lemma {:induction false} SleepSumCapped(p: RetryPolicy, k: nat)
    ensures SleepSum(p, k) <= k * p.maxDelay
  {
    if k > 0 {
      SleepSumCapped(p, k - 1);
      DelayGrowsToCap(p, k - 1);
      OneMore(k - 1, p.maxDelay);
    }
  }

  lemma UnclampedBefore(p: RetryPolicy, attempt: nat)
    requires attempt > 0 && Unclamped(p, attempt)
    ensures Unclamped(p, attempt - 1)
  {
    DoubledIsProduct(p.minDelay, attempt - 1);
    DoubledIsProduct(p.minDelay, attempt);
    DoubledMonotone(p.minDelay, attempt - 1, attempt);
  }

  lemma {:induction false} SleepSumGeometric(p: RetryPolicy, k: nat)
    requires p.minDelay > 0
    ensures SleepSum(p, k) <= Doubled(p.minDelay, k) - p.minDelay
    ensures SleepSum(p, k) == Doubled(p.minDelay, k) - p.minDelay <==> k == 0 || Unclamped(p, k - 1)
  {
    if k > 0 {
      SleepSumGeometric(p, k - 1);
      DelayIsExactUnclamped(p, k - 1);
      DoubledIsProduct(p.minDelay, k - 1);
      if Unclamped(p, k - 1) && k > 1 {
        UnclampedBefore(p, k - 1);
      }
    }
  }

  // -------------------------------------------------------------- Retry loops

  datatype Effect<+E> = Try(index: nat) | OnRetry(attempt: nat, error: E) | Sleep(nanos: nat)

  /** The schedule up to and including try `last`: try, sleep, try, sleep, ..., try. */
  function Schedule<E>(p: RetryPolicy, scales: nat -> Scale, last: nat): seq<Effect<E>> {
    if last == 0 then [Try(0)]
    else Schedule(p, scales, last - 1) + [Sleep(ComputeDelay(p, last - 1, scales(last - 1))), Try(last)]
  }

  /** The same with the callback, if installed, before each sleep. */
  function CallbackSchedule<T, E>(p: RetryPolicy, scales: nat -> Scale, outcomes: nat -> Result<T, E>, last: nat)
    : seq<Effect<E>>
    requires forall j :: 0 <= j < last ==> outcomes(j).Err?
  {
    if last == 0 then [Try(0)]
    else
      CallbackSchedule(p, scales, outcomes, last - 1)
      + (if p.hasOnRetry then [OnRetry(last - 1, outcomes(last - 1).error)] else [])
      + [Sleep(ComputeDelay(p, last - 1, scales(last - 1))), Try(last)]
  }

  /** `tries` is where a loop over these outcomes stops: the first success or the last attempt. */
  ghost predicate StopsAfter<T, E>(outcomes: nat -> Result<T, E>, maxAttempts: nat, tries: nat) {
    && 0 < tries <= maxAttempts
    && (forall j :: 0 <= j < tries - 1 ==> outcomes(j).Err?)
    && (tries == maxAttempts || outcomes(tries - 1).Ok?)
  }

  /** `ExponentialBackoffRetry::execute`: callback and sleep after each failure but the last. */
  method Execute<T, E>(p: RetryPolicy, scales: nat -> Scale, outcomes: nat -> Result<T, E>)
    returns (r: Result<T, E>, trace: seq<Effect<E>>, tries: nat)
    requires p.maxAttempts > 0
    ensures StopsAfter(outcomes, p.maxAttempts, tries)
    ensures r == outcomes(tries - 1)
    ensures trace == CallbackSchedule(p, scales, outcomes, tries - 1)
  {
    var lastErr: Option<E> := None;
    trace := [];
    tries := 0;
    for attempt := 0 to p.maxAttempts
      invariant tries == attempt
      invariant forall j :: 0 <= j < attempt ==> outcomes(j).Err?
      invariant attempt > 0 ==> lastErr == Some(outcomes(attempt - 1).error)
      invariant attempt == 0 ==> trace == []
      invariant 0 < attempt < p.maxAttempts ==>
                  trace + [Try(attempt)] == CallbackSchedule(p, scales, outcomes, attempt)
      invariant attempt == p.maxAttempts ==> trace == CallbackSchedule(p, scales, outcomes, attempt - 1)
    {
      trace := trace + [Try(attempt)];
      tries := attempt + 1;
      match outcomes(attempt) {
        case Ok(value) =>
          return Ok(value), trace, tries;
        case Err(e) =>
          if attempt + 1 < p.maxAttempts {
            ghost var before := trace;
            if p.hasOnRetry {
              trace := trace + [OnRetry(attempt, e)];
            }
            trace := trace + [Sleep(ComputeDelay(p, attempt, scales(attempt)))];
            ghost var call := if p.hasOnRetry then [OnRetry(attempt, e)] else [];
            ghost var nap := Sleep(ComputeDelay(p, attempt, scales(attempt)));
            assert trace + [Try(attempt + 1)] == before + call + [nap, Try(attempt + 1)];
          }
          lastErr := Some(e);
      }
    }
    r := Err(lastErr.value);
  }

  /** One connection attempt: a channel, a refused connection, or an endpoint that is no URI. */
  datatype Connect<+C> = Connected(channel: C) | Refused(cause: string) | InvalidUri(cause: string)

  datatype ConnectError =
    | ConnectionFailed(endpoint: string, cause: string)
    | EndpointInvalidUri(endpoint: string, cause: string)
    | ConnectionFailedMaxRetries(endpoint: string)

  /** What an attempt means to the caller of the channel connector. */
  function AsResult<C>(endpoint: string, outcome: Connect<C>): Result<C, ConnectError> {
    match outcome
    case Connected(c) => Ok(c)
    case Refused(cause) => Err(ConnectionFailed(endpoint, cause))
    case InvalidUri(cause) => Err(EndpointInvalidUri(endpoint, cause))
  }

  function AsResults<C>(endpoint: string, outcomes: nat -> Connect<C>): nat -> Result<C, ConnectError> {
    (i: nat) => AsResult(endpoint, outcomes(i))
  }

  /**
   * `create_channel`: sleep before each attempt but the first; an invalid URI ends the loop at
   * once. The callback of the policy is never called.
   */
  method CreateChannel<C>(p: RetryPolicy, scales: nat -> Scale, endpoint: string, outcomes: nat -> Connect<C>)
    returns (r: Result<C, ConnectError>, trace: seq<Effect<ConnectError>>, tries: nat)
    ensures p.maxAttempts == 0 ==> tries == 0 && trace == [] && r == Err(ConnectionFailedMaxRetries(endpoint))
    ensures p.maxAttempts > 0 ==>
              && 0 < tries <= p.maxAttempts
              && (forall j :: 0 <= j < tries - 1 ==> outcomes(j).Refused?)
              && (tries == p.maxAttempts || !outcomes(tries - 1).Refused?)
              && r == AsResult(endpoint, outcomes(tries - 1))
              && trace == Schedule(p, scales, tries - 1)
    ensures p.maxAttempts > 0 ==>
              match outcomes(tries - 1)
              case Connected(channel) => r == Ok(channel)
              case Refused(cause) => r == Err(ConnectionFailed(endpoint, cause))
              case InvalidUri(cause) => r == Err(EndpointInvalidUri(endpoint, cause))
  {
    var lastError: Option<ConnectError> := None;
    trace := [];
    tries := 0;
    for attempt := 0 to p.maxAttempts
      invariant tries == attempt
      invariant forall j :: 0 <= j < attempt ==> outcomes(j).Refused?
      invariant attempt == 0 ==> lastError.None?
      invariant attempt > 0 ==> lastError == Some(AsResult(endpoint, outcomes(attempt - 1)).error)
      invariant trace == if attempt == 0 then [] else Schedule(p, scales, attempt - 1)
    {
      ghost var before := trace;
      if attempt > 0 {
        trace := trace + [Sleep(ComputeDelay(p, attempt - 1, scales(attempt - 1)))];
      }
      trace := trace + [Try(attempt)];
      assert attempt > 0 ==>
        trace == before + [Sleep(ComputeDelay(p, attempt - 1, scales(attempt - 1))), Try(attempt)];
      tries := attempt + 1;
      match outcomes(attempt) {
        case Connected(c) =>
          return Ok(c), trace, tries;
        case InvalidUri(cause) =>
          return Err(EndpointInvalidUri(endpoint, cause)), trace, tries;
        case Refused(cause) =>
          lastError := Some(ConnectionFailed(endpoint, cause));
      }
    }
    r := Err(lastError.UnwrapOr(ConnectionFailedMaxRetries(endpoint)));
  }

  // ---------------------------------------------------- Two loops, one schedule

  function NotCallback<E>(): Effect<E> -> bool {
    (e: Effect<E>) => !e.OnRetry?
  }

  function IsCallback<E>(): Effect<E> -> bool {
    (e: Effect<E>) => e.OnRetry?
  }

  function IsSleep<E>(): Effect<E> -> bool {
    (e: Effect<E>) => e.Sleep?
  }

  /** A trace without its callbacks. */
  function Silent<E>(trace: seq<Effect<E>>): seq<Effect<E>> {
    Filter(NotCallback(), trace)
  }

  /** The callbacks of a trace. */
  function Callbacks<E>(trace: seq<Effect<E>>): seq<Effect<E>> {
    Filter(IsCallback(), trace)
  }

  function Sleeps<E>(trace: seq<Effect<E>>): seq<Effect<E>> {
    Filter(IsSleep(), trace)
  }

  lemma FilterOne<E>(keep: Effect<E> -> bool, e: Effect<E>)
    ensures Filter(keep, [e]) == if keep(e) then [e] else []
  {
    assert [e][1..] == [];
  }

  lemma FilterSnoc<E>(keep: Effect<E> -> bool, front: seq<Effect<E>>, e: Effect<E>)
    ensures Filter(keep, front + [e]) == Filter(keep, front) + if keep(e) then [e] else []
  {
    FilterAppend(keep, front, [e]);
    FilterOne(keep, e);
  }

  lemma FilterPieces<E>(keep: Effect<E> -> bool, front: seq<Effect<E>>, call: seq<Effect<E>>, nap: Effect<E>,
                        try: Effect<E>)
    requires |call| <= 1
    ensures Filter(keep, front + call + [nap, try]) ==
            Filter(keep, front) + (if |call| == 1 && keep(call[0]) then call else [])
            + (if keep(nap) then [nap] else []) + (if keep(try) then [try] else [])
  {
    var called := front + call;
    if |call| == 1 {
      assert call == [call[0]];
      FilterSnoc(keep, front, call[0]);
    } else {
      assert called == front;
    }
    FilterSnoc(keep, called, nap);
    FilterSnoc(keep, called + [nap], try);
    assert called + [nap, try] == (called + [nap]) + [try];
  }

  lemma {:induction false} SilencedSchedule<T, E>(p: RetryPolicy, scales: nat -> Scale,
                                                  outcomes: nat -> Result<T, E>, last: nat)
    requires forall j :: 0 <= j < last ==> outcomes(j).Err?
    ensures Silent(CallbackSchedule(p, scales, outcomes, last)) == Schedule(p, scales, last)
  {
    if last > 0 {
      SilencedSchedule(p, scales, outcomes, last - 1);
      var call := if p.hasOnRetry then [OnRetry(last - 1, outcomes(last - 1).error)] else [];
      var nap := Sleep(ComputeDelay(p, last - 1, scales(last - 1)));
      FilterPieces(NotCallback(), CallbackSchedule(p, scales, outcomes, last - 1), call, nap, Try(last));
    } else {
      FilterOne(NotCallback<E>(), Try(0));
    }
  }

  /** The callback fires once per sleep, with indices 0, 1, 2, ... and the error just seen. */
  lemma {:induction false} CallbackPerSleep<T, E>(p: RetryPolicy, scales: nat -> Scale,
                                                  outcomes: nat -> Result<T, E>, last: nat)
    requires forall j :: 0 <= j < last ==> outcomes(j).Err?
    ensures |Sleeps(CallbackSchedule(p, scales, outcomes, last))| == last
    ensures |Callbacks(CallbackSchedule(p, scales, outcomes, last))| == if p.hasOnRetry then last else 0
    ensures p.hasOnRetry ==> forall i :: 0 <= i < last ==>
              Callbacks(CallbackSchedule(p, scales, outcomes, last))[i] == OnRetry(i, outcomes(i).error)
  {
    if last > 0 {
      CallbackPerSleep(p, scales, outcomes, last - 1);
      var front := CallbackSchedule(p, scales, outcomes, last - 1);
      var call := if p.hasOnRetry then [OnRetry(last - 1, outcomes(last - 1).error)] else [];
      var nap := Sleep(ComputeDelay(p, last - 1, scales(last - 1)));
      FilterPieces(IsCallback(), front, call, nap, Try(last));
      FilterPieces(IsSleep(), front, call, nap, Try(last));
    } else {
      FilterOne(IsCallback<E>(), Try(0));
      FilterOne(IsSleep<E>(), Try(0));
    }
  }

  /** The callback-free schedule effect by effect: try, sleep, try, sleep, ..., try. */
  lemma {:induction false} ScheduleByIndex<E>(p: RetryPolicy, scales: nat -> Scale, last: nat)
    ensures |Schedule<E>(p, scales, last)| == 2 * last + 1
    ensures forall i :: 0 <= i <= last ==> Schedule<E>(p, scales, last)[2 * i] == Try(i)
    ensures forall i :: 0 <= i < last ==>
              Schedule<E>(p, scales, last)[2 * i + 1] == Sleep(ComputeDelay(p, i, scales(i)))
  {
    if last > 0 {
      ScheduleByIndex<E>(p, scales, last - 1);
    }
  }

  /** With a callback installed: try, callback with that try's error, sleep, next try. */
  lemma {:induction false} CallbackPlaces<T, E>(p: RetryPolicy, scales: nat -> Scale,
                                                outcomes: nat -> Result<T, E>, last: nat)
    requires p.hasOnRetry && forall j :: 0 <= j < last ==> outcomes(j).Err?
    ensures var trace := CallbackSchedule(p, scales, outcomes, last);
            && |trace| == 3 * last + 1
            && (forall i :: 0 <= i <= last ==> trace[3 * i] == Try(i))
            && (forall i :: 0 <= i < last ==> trace[3 * i + 1] == OnRetry(i, outcomes(i).error))
            && (forall i :: 0 <= i < last ==> trace[3 * i + 2] == Sleep(ComputeDelay(p, i, scales(i))))
  {
    if last > 0 {
      CallbackPlaces(p, scales, outcomes, last - 1);
    }
  }

  /** Without a callback the trace of `execute` is the callback-free schedule. */
  lemma {:induction false} NoCallback<T, E>(p: RetryPolicy, scales: nat -> Scale,
                                            outcomes: nat -> Result<T, E>, last: nat)
    requires !p.hasOnRetry && forall j :: 0 <= j < last ==> outcomes(j).Err?
    ensures CallbackSchedule(p, scales, outcomes, last) == Schedule<E>(p, scales, last)
  {
    if last > 0 {
      NoCallback(p, scales, outcomes, last - 1);
      var front := CallbackSchedule(p, scales, outcomes, last - 1);
      assert front + [] == front;
    }
  }

  /** There is only one place to stop. */
  lemma OneStop<T, E>(outcomes: nat -> Result<T, E>, maxAttempts: nat, a: nat, b: nat)
    requires StopsAfter(outcomes, maxAttempts, a) && StopsAfter(outcomes, maxAttempts, b)
    ensures a == b
  {
  }

  /**
   * Two loops, one schedule. On any stream of retryable outcomes and any jitter draws, `execute`
   * wrapped around a connection attempt and `create_channel` make the same tries with the same
   * sleeps in between, and return the same result.
   */
  method RunBoth<C>(p: RetryPolicy, scales: nat -> Scale, endpoint: string, outcomes: nat -> Connect<C>)
    returns (executed: Result<C, ConnectError>, executeTrace: seq<Effect<ConnectError>>,
             created: Result<C, ConnectError>, createTrace: seq<Effect<ConnectError>>, tries: nat)
    requires p.maxAttempts > 0 && forall i :: !outcomes(i).InvalidUri?
    ensures StopsAfter(AsResults(endpoint, outcomes), p.maxAttempts, tries)
    ensures executed == created == AsResult(endpoint, outcomes(tries - 1))
    ensures Silent(executeTrace) == createTrace
    ensures |Sleeps(executeTrace)| == tries - 1
    ensures |Callbacks(executeTrace)| == if p.hasOnRetry then tries - 1 else 0
  {
    var results := AsResults(endpoint, outcomes);
    executed, executeTrace, tries := Execute(p, scales, results);
    var others;
    created, createTrace, others := CreateChannel(p, scales, endpoint, outcomes);
    assert StopsAfter(results, p.maxAttempts, others);
    OneStop(results, p.maxAttempts, tries, others);
    SilencedSchedule(p, scales, results, tries - 1);
    CallbackPerSleep(p, scales, results, tries - 1);
  }

  /** The nanoseconds slept in a trace. */
  function Slept<E>(trace: seq<Effect<E>>): nat {
    if |trace| == 0 then 0
    else Slept(trace[..|trace| - 1]) + (match trace[|trace| - 1] case Sleep(n) => n case _ => 0)
  }

  lemma SleptSnoc<E>(trace: seq<Effect<E>>, effect: Effect<E>)
    ensures Slept(trace + [effect]) == Slept(trace) + (match effect case Sleep(n) => n case _ => 0)
  {
    assert (trace + [effect])[..|trace|] == trace;
  }

  /** One more turn of a schedule sleeps one more nap. */
  lemma SleptTurn<E>(front: seq<Effect<E>>, nanos: nat, index: nat)
    ensures Slept(front + [Sleep(nanos), Try(index)]) == Slept(front) + nanos
  {
    var napped := front + [Sleep(nanos)];
    SleptSnoc(front, Sleep(nanos));
    SleptSnoc(napped, Try(index));
    assert napped + [Try(index)] == front + [Sleep(nanos), Try(index)];
  }

  /** The time a schedule sleeps, sum by sum: jitter takes away at most half of every sleep. */
  lemma {:induction false} SleptIsSum<E>(p: RetryPolicy, scales: nat -> Scale, last: nat)
    ensures Slept<E>(Schedule(p, scales, last)) <= SleepSum(p, last)
    ensures SleepSum(p, last) <= 2 * Slept<E>(Schedule(p, scales, last)) + last
    ensures !p.jitter ==> Slept<E>(Schedule(p, scales, last)) == SleepSum(p, last)
  {
    if last > 0 {
      SleptIsSum<E>(p, scales, last - 1);
      var front: seq<Effect<E>> := Schedule(p, scales, last - 1);
      SleptTurn(front, ComputeDelay(p, last - 1, scales(last - 1)), last);
      JitterTakesAtMostHalf(p, last - 1, scales(last - 1));
    } else {
      SleptSnoc<E>([], Try(0));
    }
  }

  /** Callbacks take no sleep away and add none. */
  lemma {:induction false} CallbacksDoNotSleep<T, E>(p: RetryPolicy, scales: nat -> Scale,
                                                     outcomes: nat -> Result<T, E>, last: nat)
    requires forall j :: 0 <= j < last ==> outcomes(j).Err?
    ensures Slept(CallbackSchedule(p, scales, outcomes, last)) == Slept<E>(Schedule(p, scales, last))
  {
    if last > 0 {
      CallbacksDoNotSleep(p, scales, outcomes, last - 1);
      var front := CallbackSchedule(p, scales, outcomes, last - 1);
      var call := OnRetry(last - 1, outcomes(last - 1).error);
      var delay := ComputeDelay(p, last - 1, scales(last - 1));
      SleptSnoc(front, call);
      assert front + [] == front;
      SleptTurn(front + if p.hasOnRetry then [call] else [], delay, last);
      SleptTurn<E>(Schedule(p, scales, last - 1), delay, last);
    }
  }

  /** The sum of n - 1 unjittered sleeps: never more than the cap allows, and when it is geometric. */
  lemma SleepSumLaw(p: RetryPolicy, n: nat)
    requires n >= 1
    ensures SleepSum(p, n - 1) <= (n - 1) * p.maxDelay
    ensures p.minDelay > 0 ==>
              (SleepSum(p, n - 1) == p.minDelay * (Pow2(n - 1) - 1) <==> n == 1 || Unclamped(p, n - 2))
  {
    SleepSumCapped(p, n - 1);
    if p.minDelay > 0 {
      SleepSumGeometric(p, n - 1);
      DoubledIsProduct(p.minDelay, n - 1);
      OneMore(Pow2(n - 1) - 1, p.minDelay);
    }
  }

  /**
   * What `execute` sleeps in an all-failing run of n attempts, callbacks or not: with any jitter at
   * most (n - 1) * max_delay and at least half the unjittered sum less half a nanosecond a sleep;
   * without jitter exactly min_delay * (2^(n - 1) - 1) if and only if no sleep was clamped.
   */
  lemma TotalSleep<T, E>(p: RetryPolicy, scales: nat -> Scale, outcomes: nat -> Result<T, E>, n: nat)
    requires n >= 1 && forall j :: 0 <= j < n - 1 ==> outcomes(j).Err?
    ensures var slept := Slept(CallbackSchedule(p, scales, outcomes, n - 1));
            && slept <= SleepSum(p, n - 1) <= (n - 1) * p.maxDelay
            && SleepSum(p, n - 1) <= 2 * slept + n - 1
            && (!p.jitter ==> slept == SleepSum(p, n - 1))
            && (!p.jitter && p.minDelay > 0 ==>
                  (slept == p.minDelay * (Pow2(n - 1) - 1) <==> n == 1 || Unclamped(p, n - 2)))
  {
    CallbacksDoNotSleep(p, scales, outcomes, n - 1);
    SleptIsSum<E>(p, scales, n - 1);
    SleepSumLaw(p, n);
  }
}
