/** The resilience helpers of src/utils/error_handling.py: the
    `error_handling` wrap-and-rethrow, the `retry` loop and the
    `CircuitBreaker`. Calls to the protected function are not made here:
    their outcomes are parameters, and the clock is the parameter `now`.
    Sleeping is not modelled; the delays `retry` would sleep are returned. */
module ErrorHandling {
  import opened Wrappers
  import opened Exceptions

  // ------------------------------------------------------------ error_handling

  /** The message of the exception `error_handling` raises in place of one
      with message `original`. */
  function WrappedMessage(errorMessage: string, original: string): string {
    errorMessage + ": " + original
  }

  /** Leaving an `error_handling(errorType, errorMessage)` block: a value
      passes through, and any exception comes out as `errorType`. */
  function WrapErrors<T>(errorType: ErrorKind, errorMessage: string, r: Result<T, Error>): (w: Result<T, Error>)
    ensures r.Ok? <==> w.Ok?
    ensures r.Ok? ==> w == r
    ensures r.Err? ==> w.error.kind == errorType
  {
    match r
    case Ok(_) => r
    case Err(e) => Err(Error(errorType, WrappedMessage(errorMessage, e.message)))
  }

  /** The original message can be read back from the wrapped one: it is what
      follows the prefix and the `": "` separator. */
  lemma WrapErrorsKeepsMessage<T>(errorType: ErrorKind, errorMessage: string, r: Result<T, Error>)
    requires r.Err?
    ensures var m := WrapErrors(errorType, errorMessage, r).error.message;
      |m| == |errorMessage| + 2 + |r.error.message|
      && m[..|errorMessage|] == errorMessage
      && m[|errorMessage| + 2..] == r.error.message
  {
    var m := WrapErrors(errorType, errorMessage, r).error.message;
    assert m == errorMessage + ": " + r.error.message;
  }

  // -------------------------------------------------------------------- retry

  function Power(b: real, k: nat): real {
    if k == 0 then 1.0 else b * Power(b, k - 1)
  }

  /** The sleep before retry `k + 1`: `current_delay` starts at
      `initial_delay` and is multiplied by `backoff` after each sleep. */
  function Delay(initialDelay: real, backoff: real, k: nat): real {
    if k == 0 then initialDelay else Delay(initialDelay, backoff, k - 1) * backoff
  }

  /** The delays grow geometrically: `initial_delay * backoff ** k`. */
  lemma {:induction false} DelayIsGeometric(initialDelay: real, backoff: real, k: nat)
    ensures Delay(initialDelay, backoff, k) == initialDelay * Power(backoff, k)
  {
    if k > 0 {
      DelayIsGeometric(initialDelay, backoff, k - 1);
      calc {
        Delay(initialDelay, backoff, k);
        initialDelay * Power(backoff, k - 1) * backoff;
        initialDelay * (backoff * Power(backoff, k - 1));
      }
    }
  }

  /** The `retry` wrapper. The k-th call of the wrapped function (counting
      from 0) has outcome `outcomes[k]`. The result is `Ok(Some(v))` for a
      returned value, `Ok(None)` when the loop never runs, and `Err(e)` for
      an exception that propagates; `calls` counts the calls made and
      `delays` lists the sleeps between them. */
  method Retry<T>(maxAttempts: int, initialDelay: real, backoff: real, exceptions: set<ErrorKind>,
                  outcomes: seq<Result<T, Error>>)
    returns (r: Result<Option<T>, Error>, calls: nat, delays: seq<real>)
    requires maxAttempts <= |outcomes|
    ensures maxAttempts <= 0 ==> r == Ok(None) && calls == 0 && delays == []
    ensures maxAttempts > 0 ==> 1 <= calls <= maxAttempts
    ensures forall k :: 0 <= k < calls - 1 ==> outcomes[k].Err? && Catches(exceptions, outcomes[k].error.kind)
    ensures calls > 0 && outcomes[calls - 1].Ok? ==> r == Ok(Some(outcomes[calls - 1].value))
    ensures calls > 0 && outcomes[calls - 1].Err? ==>
              r == Err(outcomes[calls - 1].error)
              && (calls == maxAttempts || !Catches(exceptions, outcomes[calls - 1].error.kind))
    ensures |delays| == if calls == 0 then 0 else calls - 1
    ensures forall k :: 0 <= k < |delays| ==> delays[k] == Delay(initialDelay, backoff, k)
  {
    var attempt := 0;
    var currentDelay := initialDelay;
    calls := 0;
    delays := [];
    r := Ok(None);
    while attempt < maxAttempts
      invariant 0 <= attempt == calls <= |outcomes|
      invariant if maxAttempts > 0 then attempt < maxAttempts else calls == 0
      invariant forall k :: 0 <= k < calls ==> outcomes[k].Err? && Catches(exceptions, outcomes[k].error.kind)
      invariant |delays| == calls && currentDelay == Delay(initialDelay, backoff, calls)
      invariant forall k :: 0 <= k < |delays| ==> delays[k] == Delay(initialDelay, backoff, k)
    {
      var outcome := outcomes[attempt];
      calls := calls + 1;
      match outcome {
        case Ok(v) =>
          r := Ok(Some(v));
          return;
        case Err(e) =>
          if !Catches(exceptions, e.kind) {
            r := Err(e);
            return;
          }
          attempt := attempt + 1;
          if attempt >= maxAttempts {
            r := Err(e);
            return;
          }
          delays := delays + [currentDelay];
          currentDelay := currentDelay * backoff;
      }
    }
  }

  // ---------------------------------------------------------- circuit breaker

  datatype BreakerState = Closed | Open | HalfOpen

  /** The string the source stores in `state`. */
  function StateName(s: BreakerState): string {
    match s
    case Closed => "CLOSED"
    case Open => "OPEN"
    case HalfOpen => "HALF-OPEN"
  }

  /** The fields of a `CircuitBreaker` at one moment. */
  datatype Breaker = Breaker(
    failureThreshold: int,
    recoveryTimeout: int,
    failureCount: int,
    lastFailureTime: real,
    state: BreakerState)

  /** What one `execute` does: the breaker afterwards, whether the function
      was called, and the exception raised, if any. */
  datatype Execution = Execution(after: Breaker, called: bool, raised: Option<Error>)

  const OpenError := Error(CircuitBreakerOpenError, "Circuit breaker is OPEN")

  /** `execute` at time `now`, where calling the function would raise
      `failure` (or return normally for `None`). */
  function ExecuteSpec(b: Breaker, now: real, failure: Option<Error>): Execution {
    var b1 := if b.state == Open && now - b.lastFailureTime > b.recoveryTimeout as real
      then b.(state := HalfOpen) else b;
    if b1.state == Open then Execution(b1, false, Some(OpenError))
    else match failure
      case None =>
        Execution(if b1.state == HalfOpen then b1.(failureCount := 0, state := Closed) else b1, true, None)
      case Some(e) =>
        var b2 := b1.(failureCount := b1.failureCount + 1, lastFailureTime := now);
        var opens := (b2.state == Closed && b2.failureCount >= b2.failureThreshold) || b2.state == HalfOpen;
        Execution(if opens then b2.(state := Open) else b2, true, Some(e))
  }

  /** What holds between calls: `HALF-OPEN` never outlasts a call, a closed
      breaker is below its threshold unless it has no failures at all, and
      an open one has seen at least one failure. */
  predicate Invariant(b: Breaker) {
    && b.state != HalfOpen
    && b.failureCount >= 0
    && (b.state == Closed ==> b.failureCount == 0 || b.failureCount < b.failureThreshold)
    && (b.state == Open ==> b.failureCount >= 1)
  }

  /** `__init__` and `reset` give breakers that satisfy the invariant, and
      every `execute` keeps it. */
  lemma ExecuteKeepsInvariant(b: Breaker, now: real, failure: Option<Error>)
    requires Invariant(b)
    ensures Invariant(ExecuteSpec(b, now, failure).after)
    ensures Invariant(b.(failureCount := 0, state := Closed))
  {
  }

  /** An open breaker within its recovery timeout refuses the call and
      changes nothing. After the timeout it tries the call once: a success
      closes it with no failures, a failure re-opens it at `now`. */
  lemma ExecuteOpen(b: Breaker, now: real, failure: Option<Error>)
    requires b.state == Open
    ensures var x := ExecuteSpec(b, now, failure);
      if now - b.lastFailureTime <= b.recoveryTimeout as real then
        x == Execution(b, false, Some(OpenError))
      else
        x.called && x.raised == failure
        && (failure.None? ==> x.after == b.(failureCount := 0, state := Closed))
        && (failure.Some? ==> x.after == b.(failureCount := b.failureCount + 1, lastFailureTime := now))
  {
  }

  /** A closed breaker always makes the call. A success changes nothing, so
      failures accumulate across successes; a failure counts, records its
      time and opens the breaker once the count reaches the threshold, and
      leaves it closed below it, with threshold and timeout unchanged. */
  lemma ExecuteClosed(b: Breaker, now: real, failure: Option<Error>)
    requires b.state == Closed
    ensures var x := ExecuteSpec(b, now, failure);
      x.called && x.raised == failure
      && (failure.None? ==> x.after == b)
      && (failure.Some? ==>
            x.after == b.(failureCount := b.failureCount + 1, lastFailureTime := now,
                          state := if b.failureCount + 1 >= b.failureThreshold then Open else Closed))
  {
  }

  /** A run of `execute` calls at times `times` that all fail with `e`. */
  function FailAll(b: Breaker, times: seq<real>, e: Error): Breaker
    decreases |times|
  {
    if times == [] then b else FailAll(ExecuteSpec(b, times[0], Some(e)).after, times[1..], e)
  }

  /** From a fresh breaker, `failure_threshold` failing calls in a row open it,
      whatever the times of the calls. */
  lemma ThresholdFailuresOpen(threshold: int, timeout: int, t0: real, times: seq<real>, e: Error)
    requires threshold >= 1 && |times| == threshold
    ensures FailAll(Breaker(threshold, timeout, 0, t0, Closed), times, e).state == Open
  {
    ClosedFailures(Breaker(threshold, timeout, 0, t0, Closed), times, e);
  }

  lemma {:induction false} ClosedFailures(b: Breaker, times: seq<real>, e: Error)
    requires b.state == Closed && 0 <= b.failureCount
    requires b.failureCount + |times| <= b.failureThreshold
    ensures var a := FailAll(b, times, e);
      a.failureCount == b.failureCount + |times|
      && (a.state == Open <==> a.failureCount >= b.failureThreshold && times != [])
      && a.state != HalfOpen
    decreases |times|
  {
    if times != [] {
      var b1 := ExecuteSpec(b, times[0], Some(e)).after;
      if |times| == 1 {
        assert FailAll(b1, times[1..], e) == b1;
      } else {
        assert b1.state == Closed;
        ClosedFailures(b1, times[1..], e);
      }
    }
  }

  /** The breaker object: its fields are updated in place by `execute` and
      `reset`. */
  class CircuitBreaker {
    var failureThreshold: int
    var recoveryTimeout: int
    var failureCount: int
    var lastFailureTime: real
    var state: BreakerState

    function Snapshot(): Breaker
      reads this
    {
      Breaker(failureThreshold, recoveryTimeout, failureCount, lastFailureTime, state)
    }

    predicate Valid()
      reads this
    {
      Invariant(Snapshot())
    }

    constructor(failureThreshold: int := 5, recoveryTimeout: int := 60)
      ensures Snapshot() == Breaker(failureThreshold, recoveryTimeout, 0, 0.0, Closed)
      ensures Valid()
    {
      this.failureThreshold := failureThreshold;
      this.recoveryTimeout := recoveryTimeout;
      failureCount := 0;
      lastFailureTime := 0.0;
      state := Closed;
    }

    /** `execute(func)` at time `now`, where `func()` has outcome `outcome`. */
    method Execute<T>(now: real, outcome: Result<T, Error>) returns (r: Result<T, Error>, called: bool)
      modifies this
      ensures var x := ExecuteSpec(old(Snapshot()), now, if outcome.Ok? then None else Some(outcome.error));
        Snapshot() == x.after && called == x.called
        && (x.raised.None? ==> r == outcome)
        && (x.raised.Some? ==> r == Err(x.raised.value))
      ensures old(Valid()) ==> Valid()
    {
      if Valid() {
        ExecuteKeepsInvariant(Snapshot(), now, if outcome.Ok? then None else Some(outcome.error));
      }
      if state == Open && now - lastFailureTime > recoveryTimeout as real {
        state := HalfOpen;
      }
      if state == Open {
        return Err(OpenError), false;
      }
      called := true;
      match outcome {
        case Ok(_) =>
          if state == HalfOpen {
            Reset();
          }
          r := outcome;
        case Err(e) =>
          failureCount := failureCount + 1;
          lastFailureTime := now;
          if (state == Closed && failureCount >= failureThreshold) || state == HalfOpen {
            state := Open;
          }
          r := Err(e);
      }
    }

    method Reset()
      modifies this
      ensures Snapshot() == old(Snapshot()).(failureCount := 0, state := Closed)
      ensures Valid()
    {
      failureCount := 0;
      state := Closed;
    }
  }
}
