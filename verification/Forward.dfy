/**
 Buffered forwarding: how often a request is sent, which answer counts, and how long that may take. Times are in
 milliseconds.
 */
module Forward {
  import opened Wrappers
  import opened Http

  const MAX_RETRY_BODY_SIZE := 1024 * 1024
  const DEFAULT_TIMEOUT := 30_000

  /** What one attempt can come to; a failure is transient when the library says so. */
  datatype Attempt = Response(status: nat) | Failure(transient: bool) | TimedOut

  datatype Error =
    | NoClient
    | InvalidUrl
    | UnsupportedMethod
    | RequestFailed(attempt: nat)
    | RequestTimedOut(attempt: nat)

  /** The response head of some attempt. */
  datatype Head = Head(attempt: nat, status: nat)

  predicate IsIdempotent(verb: Method) {
    verb == GET || verb == HEAD || verb == OPTIONS || verb == PUT || verb == DELETE
  }

  function MaxRetries(verb: Method, bodyLen: nat): nat {
    if IsIdempotent(verb) then 2 else if bodyLen <= MAX_RETRY_BODY_SIZE then 1 else 0
  }

  function EffectiveTimeout(timeoutSecs: nat): nat {
    if timeoutSecs == 0 then DEFAULT_TIMEOUT else 1000 * timeoutSecs
  }

  predicate Retryable(a: Attempt) {
    match a
    case Response(status) => 500 <= status < 600
    case Failure(transient) => transient
    case TimedOut => true
  }

  /** The attempt whose outcome counts: the first not worth retrying, or the last one allowed. */
  ghost predicate Decides(attempts: nat -> Attempt, last: nat, k: nat) {
    && k <= last
    && (forall i: nat :: i < k ==> Retryable(attempts(i)))
    && (k == last || !Retryable(attempts(k)))
  }

  /** What the caller gets from the deciding attempt. */
  function Outcome(a: Attempt, k: nat): Result<Head, Error> {
    match a
    case Response(status) => Ok(Head(k, status))
    case Failure(_) => Err(RequestFailed(k))
    case TimedOut => Err(RequestTimedOut(k))
  }

  function Backoff(attempt: nat): nat {
    if attempt == 0 then 0 else if attempt == 1 then 100 else 400
  }

  /** The time until the end of attempt k: every attempt so far and the pause before each. */
  function TimeUntil(elapsed: nat -> nat, k: nat): nat {
    Backoff(k) + elapsed(k) + if k == 0 then 0 else TimeUntil(elapsed, k - 1)
  }

  /** So the answer is fixed by the attempts alone. */
  lemma DecidingAttemptIsUnique(attempts: nat -> Attempt, last: nat, j: nat, k: nat)
    requires Decides(attempts, last, j) && Decides(attempts, last, k)
    ensures j == k
  {
  }

  lemma TimeIsBounded(elapsed: nat -> nat, k: nat, timeout: nat)
    requires k <= 2 && forall i: nat :: elapsed(i) <= timeout
    ensures TimeUntil(elapsed, k) <= (k + 1) * timeout + (if k == 0 then 0 else if k == 1 then 100 else 500)
  {
    assert TimeUntil(elapsed, 0) <= timeout;
    if k == 2 {
      assert TimeUntil(elapsed, 1) <= 2 * timeout + 100;
    }
  }

  /**
   A server error, a failure the library calls transient and a timeout are worth another attempt, and nothing else is.
   */
  lemma RetriedExactly(a: Attempt)
    ensures Retryable(a) <==>
      a == TimedOut || a == Failure(true) || (exists status :: 500 <= status <= 599 && a == Response(status))
  {
    if a.Response? && Retryable(a) {
      assert a == Response(a.status);
    }
  }

  /** The answer is the status of the response, or an error that names what went wrong, of the deciding attempt. */
  lemma OutcomeExactly(status: nat, transient: bool, k: nat)
    ensures Outcome(Response(status), k) == Ok(Head(k, status))
    ensures Outcome(Failure(transient), k) == Err(RequestFailed(k)) && Outcome(TimedOut, k) == Err(RequestTimedOut(k))
  {
  }

  /** The pauses are 100 ms before the second attempt and 400 ms before the third; a timeout of 0 s means 30 s. */
  lemma TimesExactly(elapsed: nat -> nat, timeoutSecs: nat)
    ensures TimeUntil(elapsed, 0) == elapsed(0)
    ensures TimeUntil(elapsed, 1) == elapsed(0) + 100 + elapsed(1)
    ensures TimeUntil(elapsed, 2) == elapsed(0) + 100 + elapsed(1) + 400 + elapsed(2)
    ensures EffectiveTimeout(timeoutSecs) == if timeoutSecs > 0 then timeoutSecs * 1000 else 30 * 1000
  {
    assert TimeUntil(elapsed, 1) == Backoff(1) + elapsed(1) + TimeUntil(elapsed, 0);
  }

  /**
   The retry loop. `attempts(i)` is what attempt i would come to and `elapsed(i)` how long it would take, which the
   per-attempt timeout bounds. The answer is that of the one deciding attempt, no attempt is sent after it, and the
   response head or the error is there within the timeouts and pauses of the attempts made.
   */
  method ForwardRequest(hasClient: bool, urlParses: bool, verb: Option<Method>, bodyLen: nat, timeoutSecs: nat,
                        attempts: nat -> Attempt, elapsed: nat -> nat)
    returns (answer: Result<Head, Error>, sends: nat, time: nat)
    requires forall i: nat :: elapsed(i) <= EffectiveTimeout(timeoutSecs)
    ensures !hasClient ==> answer == Err(NoClient) && sends == 0
    ensures hasClient && !urlParses ==> answer == Err(InvalidUrl) && sends == 0
    ensures hasClient && urlParses && verb.None? ==> answer == Err(UnsupportedMethod) && sends == 0
    ensures hasClient && urlParses && verb.Some? ==>
      var last := MaxRetries(verb.value, bodyLen);
      && 1 <= sends <= last + 1 <= 3
      && Decides(attempts, last, sends - 1)
      && answer == Outcome(attempts(sends - 1), sends - 1)
      && time == TimeUntil(elapsed, sends - 1)
      && time <= (last + 1) * EffectiveTimeout(timeoutSecs) + 500
  {
    sends, time := 0, 0;
    if !hasClient {
      return Err(NoClient), sends, time;
    }
    if !urlParses {
      return Err(InvalidUrl), sends, time;
    }
    if verb.None? {
      return Err(UnsupportedMethod), sends, time;
    }
    var maxRetries := MaxRetries(verb.value, bodyLen);
    for attempt := 0 to maxRetries + 1
      invariant attempt <= maxRetries && sends == attempt
      invariant forall i: nat :: i < attempt ==> Retryable(attempts(i))
      invariant time == if attempt == 0 then 0 else TimeUntil(elapsed, attempt - 1)
    {
      if attempt > 0 {
        time := time + Backoff(attempt);
      }
      sends := sends + 1;
      time := time + elapsed(attempt);
      TimeIsBounded(elapsed, attempt, EffectiveTimeout(timeoutSecs));
      MoreAttempts(attempt, maxRetries, EffectiveTimeout(timeoutSecs));
      match attempts(attempt) {
        case Failure(transient) =>
          if attempt < maxRetries && transient {
            continue;
          }
          return Err(RequestFailed(attempt)), sends, time;
        case TimedOut =>
          if attempt < maxRetries {
            continue;
          }
          return Err(RequestTimedOut(attempt)), sends, time;
        case Response(status) =>
          if 500 <= status < 600 && attempt < maxRetries {
            continue;
          }
          return Ok(Head(attempt, status)), sends, time;
      }
    }
    assert false;
  }

  lemma MoreAttempts(k: nat, last: nat, timeout: nat)
    requires k <= last
    ensures (k + 1) * timeout <= (last + 1) * timeout
  {
  }

  /**
   Under an outage, when nothing is answered for good, idempotent requests are sent three times, small others twice, the
   rest once.
   */
  lemma SendsByMethod(verb: Method, bodyLen: nat, attempts: nat -> Attempt, k: nat)
    requires Decides(attempts, MaxRetries(verb, bodyLen), k)
    ensures k + 1 <= if verb in {GET, HEAD, OPTIONS, PUT, DELETE} then 3 else if bodyLen <= 1_048_576 then 2 else 1
    ensures (forall i: nat :: Retryable(attempts(i))) ==>
      k + 1 == if verb in {GET, HEAD, OPTIONS, PUT, DELETE} then 3 else if bodyLen <= 1_048_576 then 2 else 1
  {
  }
}
