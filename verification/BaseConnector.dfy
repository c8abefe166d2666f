/**
 data_ingestion/passive/base_connector.py: a circuit breaker, and the request loop with pacing,
 retries and exponential backoff. Clock readings, responses and jitter are parameters.
 */
module BaseConnector {
  import opened Prelude

  // ---------- the breaker ----------

  datatype Mode = CLOSED | OPEN | HALF_OPEN

  datatype Breaker = Breaker(threshold: int, recoveryTimeout: real, mode: Mode, failures: nat, lastFailure: real)

  function NewBreaker(threshold: int, recoveryTimeout: real): Breaker {
    Breaker(threshold, recoveryTimeout, CLOSED, 0, 0.0)
  }

  function Failed(b: Breaker, now: real): Breaker {
    b.(failures := b.failures + 1, lastFailure := now, mode := if b.failures + 1 >= b.threshold then OPEN else b.mode)
  }

  function Succeeded(b: Breaker): Breaker {
    b.(failures := 0, mode := CLOSED)
  }

  predicate Permits(b: Breaker, now: real) {
    b.mode != OPEN || now - b.lastFailure > b.recoveryTimeout
  }

  function Asked(b: Breaker, now: real): Breaker {
    if b.mode == OPEN && Permits(b, now) then b.(mode := HALF_OPEN) else b
  }

  datatype BreakerCall = Fail(now: real) | Succeed | Ask(now: real)

  ghost function After(threshold: int, recoveryTimeout: real, calls: seq<BreakerCall>): Breaker {
    if calls == [] then NewBreaker(threshold, recoveryTimeout)
    else
      var b := After(threshold, recoveryTimeout, calls[..|calls| - 1]);
      match calls[|calls| - 1]
      case Fail(now) => Failed(b, now)
      case Succeed => Succeeded(b)
      case Ask(now) => Asked(b, now)
  }

  /** The failures since the last success. */
  ghost function RecentFailures(calls: seq<BreakerCall>): nat {
    if calls == [] || calls[|calls| - 1] == Succeed then 0
    else RecentFailures(calls[..|calls| - 1]) + (if calls[|calls| - 1].Fail? then 1 else 0)
  }

  /** The last failure, when nothing but asking has been done since. */
  ghost predicate FailedLast(calls: seq<BreakerCall>, i: int) {
    0 <= i < |calls| && calls[i].Fail? && forall j :: i < j < |calls| ==> calls[j].Ask?
  }

  /** Since the failure nobody has asked more than `timeout` after it. */
  ghost predicate NotAskedAfter(calls: seq<BreakerCall>, i: int, timeout: real)
    requires FailedLast(calls, i)
  {
    forall j :: i < j < |calls| ==> calls[j].now - calls[i].now <= timeout
  }

  /** A request at `now` is refused: as many failures as allowed, or more, have come since the last success, the
      last of them no longer ago than the timeout, and nobody has asked in between when that had passed. */
  ghost predicate Refused(threshold: int, timeout: real, calls: seq<BreakerCall>, now: real) {
    RecentFailures(calls) >= threshold
    && exists i :: FailedLast(calls, i) && now - calls[i].now <= timeout && NotAskedAfter(calls, i, timeout)
  }

  class CircuitBreaker {
    const failureThreshold: int
    const recoveryTimeout: real
    var mode: Mode
    var failureCount: nat
    var lastFailureTime: real
    ghost var history: seq<BreakerCall>

    ghost function State(): Breaker
      reads this
    {
      Breaker(failureThreshold, recoveryTimeout, mode, failureCount, lastFailureTime)
    }

    /** The breaker is where the calls made on it have led. */
    ghost predicate Valid()
      reads this
    {
      State() == After(failureThreshold, recoveryTimeout, history)
    }

    constructor (failureThreshold: int, recoveryTimeout: real)
      ensures Valid() && history == []
      ensures this.failureThreshold == failureThreshold && this.recoveryTimeout == recoveryTimeout
    {
      this.failureThreshold, this.recoveryTimeout := failureThreshold, recoveryTimeout;
      mode, failureCount, lastFailureTime := CLOSED, 0, 0.0;
      history := [];
    }

    method RecordFailure(now: real)
      requires Valid()
      modifies this
      ensures Valid() && history == old(history) + [Fail(now)]
      ensures State() == Failed(old(State()), now)
    {
      hide After;
      CallMade(failureThreshold, recoveryTimeout, history, Fail(now));
      history := history + [Fail(now)];
      failureCount := failureCount + 1;
      lastFailureTime := now;
      if failureCount >= failureThreshold {
        mode := OPEN;
      }
    }

    method RecordSuccess()
      requires Valid()
      modifies this
      ensures Valid() && history == old(history) + [Succeed]
      ensures State() == Succeeded(old(State()))
    {
      hide After;
      CallMade(failureThreshold, recoveryTimeout, history, Succeed);
      history := history + [Succeed];
      failureCount := 0;
      mode := CLOSED;
    }

    method CanExecute(now: real) returns (permitted: bool)
      requires Valid()
      modifies this
      ensures Valid() && history == old(history) + [Ask(now)]
      ensures State() == Asked(old(State()), now)
      ensures permitted <==> !Refused(failureThreshold, recoveryTimeout, old(history), now)
      ensures Recovered(recoveryTimeout, old(history), now) ==> permitted
    {
      hide After, Refused, Recovered;
      CallMade(failureThreshold, recoveryTimeout, history, Ask(now));
      RefusedIff(failureThreshold, recoveryTimeout, history, now);
      history := history + [Ask(now)];
      if mode == CLOSED {
        return true;
      }
      if mode == OPEN {
        if now - lastFailureTime > recoveryTimeout {
          mode := HALF_OPEN;
          return true;
        }
        return false;
      }
      return true;
    }
  }

  lemma CallMade(threshold: int, recoveryTimeout: real, calls: seq<BreakerCall>, call: BreakerCall)
    ensures After(threshold, recoveryTimeout, calls + [call])
         == if call.Fail? then Failed(After(threshold, recoveryTimeout, calls), call.now)
            else if call.Ask? then Asked(After(threshold, recoveryTimeout, calls), call.now)
            else Succeeded(After(threshold, recoveryTimeout, calls))
  {
    assert (calls + [call])[..|calls|] == calls;
  }

  lemma {:induction false} CountsRecentFailures(threshold: int, recoveryTimeout: real, calls: seq<BreakerCall>)
    ensures After(threshold, recoveryTimeout, calls).failures == RecentFailures(calls)
    ensures After(threshold, recoveryTimeout, calls).threshold == threshold
  {
    if calls != [] {
      CountsRecentFailures(threshold, recoveryTimeout, calls[..|calls| - 1]);
    }
  }

  /** With a positive threshold the breaker is CLOSED exactly while the failures since the last
      success are below it. */
  lemma {:induction false} ClosedIffBelowThreshold(threshold: int, recoveryTimeout: real, calls: seq<BreakerCall>)
    requires threshold > 0
    ensures After(threshold, recoveryTimeout, calls).mode == CLOSED <==> RecentFailures(calls) < threshold
  {
    CountsRecentFailures(threshold, recoveryTimeout, calls);
    if calls != [] {
      CountsRecentFailures(threshold, recoveryTimeout, calls[..|calls| - 1]);
      ClosedIffBelowThreshold(threshold, recoveryTimeout, calls[..|calls| - 1]);
    }
  }

  lemma FailedLastIs(calls: seq<BreakerCall>, call: BreakerCall, i: int)
    ensures FailedLast(calls + [call], i) <==> if call.Fail? then i == |calls| else call.Ask? && FailedLast(calls, i)
  {
    if FailedLast(calls + [call], i) && call.Ask? {
      assert forall j :: i < j < |calls| ==> (calls + [call])[j] == calls[j];
    }
    if i < |calls| {
      assert (calls + [call])[|calls|] == call;
    }
  }

  lemma {:induction false} LastFailureTime(threshold: int, recoveryTimeout: real, calls: seq<BreakerCall>, i: int)
    requires FailedLast(calls, i)
    ensures After(threshold, recoveryTimeout, calls).lastFailure == calls[i].now
    ensures After(threshold, recoveryTimeout, calls).recoveryTimeout == recoveryTimeout
    ensures RecentFailures(calls) > 0
    decreases |calls|
  {
    var n := |calls| - 1;
    if i < n {
      assert calls == calls[..n] + [calls[n]];
      FailedLastIs(calls[..n], calls[n], i);
      LastFailureTime(threshold, recoveryTimeout, calls[..n], i);
    } else {
      KeepsTimeout(threshold, recoveryTimeout, calls);
    }
  }

  lemma {:induction false} KeepsTimeout(threshold: int, recoveryTimeout: real, calls: seq<BreakerCall>)
    ensures After(threshold, recoveryTimeout, calls).recoveryTimeout == recoveryTimeout
  {
    if calls != [] {
      KeepsTimeout(threshold, recoveryTimeout, calls[..|calls| - 1]);
    }
  }

  /** The breaker is OPEN since the failure with index `i`. */
  ghost predicate OpenSince(threshold: int, timeout: real, calls: seq<BreakerCall>, i: int) {
    RecentFailures(calls) >= threshold && FailedLast(calls, i) && NotAskedAfter(calls, i, timeout)
  }

  lemma AskKeepsOpen(threshold: int, timeout: real, calls: seq<BreakerCall>, now: real, i: int)
    ensures OpenSince(threshold, timeout, calls + [Ask(now)], i) <==>
            OpenSince(threshold, timeout, calls, i) && now - calls[i].now <= timeout
  {
    var more := calls + [Ask(now)];
    assert more[..|calls|] == calls && more[|calls|] == Ask(now);
    FailedLastIs(calls, Ask(now), i);
    if FailedLast(calls, i) {
      assert forall j :: i < j < |calls| ==> more[j] == calls[j];
    }
  }

  lemma {:induction false} OpenIff(threshold: int, recoveryTimeout: real, calls: seq<BreakerCall>)
    ensures After(threshold, recoveryTimeout, calls).mode == OPEN <==>
            exists i :: OpenSince(threshold, recoveryTimeout, calls, i)
  {
    hide OpenSince, FailedLast;
    if calls == [] {
      NeverFailed(threshold, recoveryTimeout);
    } else {
      var n := |calls| - 1;
      var before, call := calls[..n], calls[n];
      assert calls == before + [call];
      OpenIff(threshold, recoveryTimeout, before);
      OpenAfter(threshold, recoveryTimeout, before, call);
    }
  }

  lemma NeverFailed(threshold: int, timeout: real)
    ensures forall i :: !OpenSince(threshold, timeout, [], i)
  {
  }

  lemma OpenAfter(threshold: int, timeout: real, calls: seq<BreakerCall>, call: BreakerCall)
    requires After(threshold, timeout, calls).mode == OPEN <==> exists i :: OpenSince(threshold, timeout, calls, i)
    ensures After(threshold, timeout, calls + [call]).mode == OPEN <==>
            exists i :: OpenSince(threshold, timeout, calls + [call], i)
  {
    CallMade(threshold, timeout, calls, call);
    match call
    case Fail(now) => OpenAfterFailure(threshold, timeout, calls, now);
    case Succeed => ClosedAfterSuccess(threshold, timeout, calls);
    case Ask(now) =>
      hide After, OpenSince, FailedLast;
      forall i
        ensures OpenSince(threshold, timeout, calls + [call], i) <==>
                OpenSince(threshold, timeout, calls, i)
                && now - After(threshold, timeout, calls).lastFailure <= timeout
      {
        AskKeepsOpen(threshold, timeout, calls, now, i);
        if OpenSince(threshold, timeout, calls, i) {
          OpenSinceLast(threshold, timeout, calls, i);
        }
      }
      KeepsTimeout(threshold, timeout, calls);
  }

  lemma OpenSinceLast(threshold: int, timeout: real, calls: seq<BreakerCall>, i: int)
    requires OpenSince(threshold, timeout, calls, i)
    ensures FailedLast(calls, i) && After(threshold, timeout, calls).lastFailure == calls[i].now
  {
    LastFailureTime(threshold, timeout, calls, i);
  }

  lemma OpenAfterFailure(threshold: int, timeout: real, calls: seq<BreakerCall>, now: real)
    requires After(threshold, timeout, calls).mode == OPEN <==> exists i :: OpenSince(threshold, timeout, calls, i)
    ensures Failed(After(threshold, timeout, calls), now).mode == OPEN <==>
            exists i :: OpenSince(threshold, timeout, calls + [Fail(now)], i)
  {
    CountsRecentFailures(threshold, timeout, calls);
    var more := calls + [Fail(now)];
    assert more[..|calls|] == calls;
    FailedLastIs(calls, Fail(now), |calls|);
    if RecentFailures(calls) + 1 >= threshold {
      assert OpenSince(threshold, timeout, more, |calls|);
    }
  }

  lemma ClosedAfterSuccess(threshold: int, timeout: real, calls: seq<BreakerCall>)
    ensures forall i :: !OpenSince(threshold, timeout, calls + [Succeed], i)
  {
    forall i
      ensures !FailedLast(calls + [Succeed], i)
    {
      FailedLastIs(calls, Succeed, i);
    }
  }

  /** The timeout has passed since the last failure. */
  ghost predicate Recovered(timeout: real, calls: seq<BreakerCall>, now: real) {
    exists i ::
      0 <= i < |calls| && calls[i].Fail? && (forall j :: i < j < |calls| ==> !calls[j].Fail?)
      && now - calls[i].now > timeout
  }

  /** Over any calls on the breaker: it refuses exactly the requests that the history of its calls says it should,
      and none once the timeout has passed since the last failure. */
  lemma {:induction false} RefusedIff(threshold: int, recoveryTimeout: real, calls: seq<BreakerCall>, now: real)
    ensures !Permits(After(threshold, recoveryTimeout, calls), now) <==> Refused(threshold, recoveryTimeout, calls, now)
    ensures Recovered(recoveryTimeout, calls, now) ==> !Refused(threshold, recoveryTimeout, calls, now)
  {
    hide After, RecentFailures;
    OpenIff(threshold, recoveryTimeout, calls);
    KeepsTimeout(threshold, recoveryTimeout, calls);
    forall i | FailedLast(calls, i)
      ensures After(threshold, recoveryTimeout, calls).lastFailure == calls[i].now
    {
      LastFailureTime(threshold, recoveryTimeout, calls, i);
    }
    if Refused(threshold, recoveryTimeout, calls, now) {
      var i :| FailedLast(calls, i) && now - calls[i].now <= recoveryTimeout
            && NotAskedAfter(calls, i, recoveryTimeout);
      assert OpenSince(threshold, recoveryTimeout, calls, i);
    }
  }

  /** That holds in every reachable state if and only if the threshold is positive: otherwise the new
      breaker is CLOSED with no failures although none are allowed. */
  lemma ClosedRuleIff(threshold: int, recoveryTimeout: real)
    ensures (forall calls :: After(threshold, recoveryTimeout, calls).mode == CLOSED <==>
             RecentFailures(calls) < threshold)
            <==> threshold > 0
  {
    if threshold > 0 {
      forall calls
        ensures After(threshold, recoveryTimeout, calls).mode == CLOSED <==> RecentFailures(calls) < threshold
      {
        ClosedIffBelowThreshold(threshold, recoveryTimeout, calls);
      }
    } else {
      assert After(threshold, recoveryTimeout, []).mode == CLOSED;
      assert RecentFailures([]) == 0;
    }
  }

  // ---------- backoff ----------

  /** `_get_backoff` */
  function GetBackoff(attempt: nat, jitter: real): real {
    var b := Pow2(attempt) as real + jitter;
    if b < 60.0 then b else 60.0
  }

  /** Two to the number of attempts made, and the jitter, as long as this is no more than a minute. */
  lemma BackoffIs(attempt: nat, jitter: real)
    ensures Pow2(attempt) as real + jitter <= 60.0 ==> GetBackoff(attempt, jitter) == Pow2(attempt) as real + jitter
    ensures Pow2(attempt) as real + jitter >= 60.0 ==> GetBackoff(attempt, jitter) == 60.0
  {
  }

  ghost function Sum(s: seq<real>): real {
    if s == [] then 0.0 else Sum(s[..|s| - 1]) + s[|s| - 1]
  }

  ghost predicate BackoffAt(b: real, attempt: nat) {
    0.0 <= b <= 60.0 && b <= 1.1 * Pow2(attempt) as real
  }

  lemma {:induction false} TotalBackoff(backoffs: seq<real>)
    requires forall k :: 0 <= k < |backoffs| ==> BackoffAt(backoffs[k], k)
    ensures 0.0 <= Sum(backoffs) <= 60.0 * |backoffs| as real
    ensures Sum(backoffs) <= 1.1 * (Pow2(|backoffs|) - 1) as real
  {
    if backoffs != [] {
      var n := |backoffs| - 1;
      TotalBackoff(backoffs[..n]);
      assert BackoffAt(backoffs[n], n);
    }
  }

  // ---------- the request loop ----------

  /** What one call of the HTTP client ends with. */
  datatype Outcome = Ok | OkUnreadable | Status(code: int) | RequestError | OtherError

  /** What the loop reads from outside in one attempt. */
  datatype Attempt = Attempt(before: real, after: real, outcome: Outcome, failedAt: real, jitter: real)

  datatype Answer = FastFail | Payload | ClientError(code: int) | RetriesExceeded | Unknown | Raised

  predicate Retriable(o: Outcome) {
    match o
    case Status(code) => !(400 <= code < 500 && code != 429)
    case RequestError => true
    case _ => false
  }

  /** The number of attempts made when at most `limit` are allowed: up to the first outcome that is
      not retried. */
  ghost function AttemptsMade(env: seq<Attempt>, limit: nat): nat
    requires limit <= |env|
  {
    if limit == 0 then 0
    else if !Retriable(env[0].outcome) then 1
    else 1 + AttemptsMade(env[1..], limit - 1)
  }

  function Attempts(maxRetries: int): nat {
    if maxRetries < 0 then 0 else maxRetries + 1
  }

  /** The answer of an attempt that ends the request; what can be retried ends it when no retry is left. */
  function AnswerTo(o: Outcome): (r: Answer)
    ensures r != FastFail
    ensures Retriable(o) <==> r == RetriesExceeded
  {
    match o
    case Ok => Payload
    case OkUnreadable => Raised
    case OtherError => Raised
    case Status(code) => if Retriable(o) then RetriesExceeded else ClientError(code)
    case RequestError => RetriesExceeded
  }

  /** What the breaker is told of one attempt. */
  function Report(a: Attempt): seq<BreakerCall> {
    match a.outcome
    case Ok => [Succeed]
    case OkUnreadable => [Succeed]
    case OtherError => []
    case Status(_) => [Fail(a.failedAt)]
    case RequestError => [Fail(a.failedAt)]
  }

  /** The answer that the last attempt made leads to. */
  ghost function AnswerOf(env: seq<Attempt>, limit: nat): Answer
    requires limit <= |env|
  {
    var made := AttemptsMade(env, limit);
    if made == 0 || made > |env| then Unknown else AnswerTo(env[made - 1].outcome)
  }

  /** What the breaker is told of the attempts made. */
  ghost function Reports(env: seq<Attempt>): seq<BreakerCall> {
    if env == [] then [] else Reports(env[..|env| - 1]) + Report(env[|env| - 1])
  }

  lemma {:induction false} MadeAtLeast(env: seq<Attempt>, limit: nat, k: nat)
    requires k <= limit <= |env| && forall i :: 0 <= i < k ==> Retriable(env[i].outcome)
    ensures k <= AttemptsMade(env, limit) <= limit
    ensures k < limit && !Retriable(env[k].outcome) ==> AttemptsMade(env, limit) == k + 1
    ensures k == limit ==> AttemptsMade(env, limit) == limit
    decreases limit
  {
    if limit > 0 {
      if k > 0 {
        MadeAtLeast(env[1..], limit - 1, k - 1);
      } else if Retriable(env[0].outcome) {
        MadeAtLeast(env[1..], limit - 1, 0);
      }
    }
  }

  lemma ReportsNext(env: seq<Attempt>, k: nat)
    requires k < |env|
    ensures Reports(env[..k + 1]) == Reports(env[..k]) + Report(env[k])
  {
    assert env[..k + 1][..k] == env[..k];
  }

  lemma NothingMade(env: seq<Attempt>)
    ensures Reports(env[..0]) == [] && AttemptsMade(env, 0) == 0
  {
  }

  /** An outcome that is tried again: no answer, too many requests, or neither success nor the client's fault. */
  predicate Temporary(o: Outcome) {
    o == RequestError || (o.Status? && (o.code < 400 || o.code >= 500 || o.code == 429))
  }

  /** Attempts go on while outcomes are temporary and some are left, and the last one decides the answer. */
  lemma {:induction false} RequestMeans(env: seq<Attempt>, limit: nat)
    requires limit <= |env|
    ensures var made := AttemptsMade(env, limit);
            && made <= limit && (limit > 0 ==> made > 0)
            && (forall i :: 0 <= i < made - 1 ==> Temporary(env[i].outcome))
            && (0 < made < limit ==> !Temporary(env[made - 1].outcome))
    ensures var made := AttemptsMade(env, limit);
            AnswerOf(env, limit) ==
            if made == 0 then Unknown
            else if Temporary(env[made - 1].outcome) then RetriesExceeded
            else if env[made - 1].outcome.Status? then ClientError(env[made - 1].outcome.code)
            else if env[made - 1].outcome == Ok then Payload
            else Raised
    decreases limit
  {
    if limit > 0 && Retriable(env[0].outcome) {
      RequestMeans(env[1..], limit - 1);
    }
  }

  /** A failure is reported with its time, a response with its success, whatever it holds. */
  lemma {:induction false} ReportsMean(env: seq<Attempt>)
    requires forall i :: 0 <= i < |env| - 1 ==> Temporary(env[i].outcome)
    ensures env != [] ==> |Reports(env)| == if env[|env| - 1].outcome == OtherError then |env| - 1 else |env|
    ensures forall i :: 0 <= i < |env| && (Temporary(env[i].outcome) || env[i].outcome.Status?) ==>
              Reports(env)[i] == Fail(env[i].failedAt)
    ensures env != [] && (env[|env| - 1].outcome == Ok || env[|env| - 1].outcome == OkUnreadable) ==>
              Reports(env)[|env| - 1] == Succeed
  {
    if env != [] {
      var n := |env| - 1;
      ReportsMean(env[..n]);
      assert forall i :: 0 <= i < n ==> env[..n][i] == env[i];
    }
  }

  class BaseAPIConnector {
    const maxRetries: int
    const minInterval: real
    const circuitBreaker: CircuitBreaker
    var lastRequestTime: real

    constructor (maxRetries: int, rateLimitRps: real)
      ensures this.maxRetries == maxRetries && lastRequestTime == 0.0
      ensures minInterval == if rateLimitRps > 0.0 then 1.0 / rateLimitRps else 0.0
      ensures circuitBreaker.Valid() && circuitBreaker.history == []
      ensures circuitBreaker.failureThreshold == 5 && circuitBreaker.recoveryTimeout == 60.0
    {
      this.maxRetries := maxRetries;
      minInterval := if rateLimitRps > 0.0 then 1.0 / rateLimitRps else 0.0;
      circuitBreaker := new CircuitBreaker(5, 60.0);
      lastRequestTime := 0.0;
    }

    /** A sleep lasts at least as long as asked. */
    ghost predicate SleepsEnough(last: real, before: real, after: real) {
      before <= after && (before - last < minInterval ==> after - before >= minInterval - (before - last))
    }

    /** `_rate_limit`, with the clock before and after the sleep. */
    method RateLimit(before: real, after: real)
      requires SleepsEnough(lastRequestTime, before, after)
      modifies this
      ensures after - old(lastRequestTime) >= minInterval
      ensures lastRequestTime == if minInterval > 0.0 then after else old(lastRequestTime)
    {
      if minInterval <= 0.0 {
        return;
      }
      lastRequestTime := after;
    }

    /** The handling of one response; None when the loop goes on. */
    method Settle(a: Attempt) returns (answer: Option<Answer>)
      requires circuitBreaker.Valid()
      modifies circuitBreaker
      ensures answer == if Retriable(a.outcome) then None else Some(AnswerTo(a.outcome))
      ensures circuitBreaker.Valid() && circuitBreaker.history == old(circuitBreaker.history) + Report(a)
    {
      match a.outcome {
        case Ok =>
          circuitBreaker.RecordSuccess();
          return Some(Payload);
        case OkUnreadable =>
          circuitBreaker.RecordSuccess();
          return Some(Raised);
        case OtherError =>
          return Some(Raised);
        case Status(code) =>
          if 400 <= code < 500 && code != 429 {
            circuitBreaker.RecordFailure(a.failedAt);
            return Some(ClientError(code));
          }
        case RequestError =>
      }
      circuitBreaker.RecordFailure(a.failedAt);
      return None;
    }

    /** The last time a request was stamped, when the first `k` attempts have been made. */
    ghost function LastStamp(env: seq<Attempt>, k: nat, initial: real): real
      requires k <= |env|
    {
      if k == 0 || minInterval <= 0.0 then initial else env[k - 1].after
    }

    /** After a failed attempt the next one begins when the backoff has been slept. */
    ghost predicate BacksOff(env: seq<Attempt>, i: int)
      requires 0 < i < |env|
    {
      Retriable(env[i - 1].outcome) ==>
        && env[i - 1].after <= env[i - 1].failedAt
        && env[i].before - env[i - 1].failedAt >= GetBackoff(i - 1, env[i - 1].jitter)
    }

    /** Sleeps last as long as asked, the clock does not go back, and the jitter is in its range. */
    ghost predicate Environment(env: seq<Attempt>, initial: real) {
      && |env| == Attempts(maxRetries)
      && (forall i {:trigger env[i]} :: 0 <= i < |env| ==>
          SleepsEnough(LastStamp(env, i, initial), env[i].before, env[i].after))
      && (forall i {:trigger env[i]} :: 0 < i < |env| ==> env[i - 1].after <= env[i].before)
      && (forall i :: 0 < i < |env| ==> BacksOff(env, i))
      && (forall i :: 0 <= i < |env| ==> 0.0 <= env[i].jitter <= 0.1 * Pow2(i) as real)
    }

    /** Stamps of attempts are at least the minimal interval apart, from the last request before on. */
    ghost predicate Spaced(stamps: seq<real>, initial: real) {
      && (|stamps| > 0 ==> stamps[0] - initial >= minInterval)
      && forall i {:trigger stamps[i]} :: 0 < i < |stamps| ==> stamps[i] - stamps[i - 1] >= minInterval
    }

    ghost predicate StampsOf(env: seq<Attempt>, stamps: seq<real>) {
      |stamps| <= |env| && forall i :: 0 <= i < |stamps| ==> stamps[i] == env[i].after
    }

    lemma SpacedStamps(env: seq<Attempt>, stamps: seq<real>, initial: real)
      requires Environment(env, initial) && StampsOf(env, stamps)
      ensures Spaced(stamps, initial)
    {
      forall i {:trigger stamps[i]} | 0 < i < |stamps|
        ensures stamps[i] - stamps[i - 1] >= minInterval
      {
        assert SleepsEnough(LastStamp(env, i, initial), env[i].before, env[i].after);
        assert env[i - 1].after <= env[i].before;
      }
      if |stamps| > 0 {
        assert SleepsEnough(LastStamp(env, 0, initial), env[0].before, env[0].after);
      }
    }

    /** Each attempt after the first comes at least its backoff after the one before. */
    ghost predicate Waited(stamps: seq<real>, backoffs: seq<real>) {
      forall k {:trigger backoffs[k]} :: 0 <= k < |backoffs| ==>
               k + 1 < |stamps| && stamps[k + 1] - stamps[k] >= backoffs[k]
    }

    lemma BackoffsAreWaited(env: seq<Attempt>, stamps: seq<real>, backoffs: seq<real>, initial: real)
      requires Environment(env, initial) && StampsOf(env, stamps) && |backoffs| < |stamps|
      requires forall k :: 0 <= k < |backoffs| ==>
                 Retriable(env[k].outcome) && backoffs[k] == GetBackoff(k, env[k].jitter)
      ensures Waited(stamps, backoffs)
    {
      forall k {:trigger backoffs[k]} | 0 <= k < |backoffs|
        ensures stamps[k + 1] - stamps[k] >= backoffs[k]
      {
        assert BacksOff(env, k + 1);
        assert SleepsEnough(LastStamp(env, k + 1, initial), env[k + 1].before, env[k + 1].after);
      }
    }

    /** Each backoff is the one computed for its attempt. */
    ghost predicate BackedOff(env: seq<Attempt>, backoffs: seq<real>) {
      && |backoffs| <= |env|
      && forall k :: 0 <= k < |backoffs| ==>
           backoffs[k] == GetBackoff(k, env[k].jitter) && BackoffAt(backoffs[k], k)
    }

    /** Where the loop stands after `k` attempts, all of which are retried. */
    ghost predicate Retried(env: seq<Attempt>, stamps: seq<real>, backoffs: seq<real>, k: nat) {
      && |stamps| == k && |backoffs| == k && k <= |env|
      && StampsOf(env, stamps) && BackedOff(env, backoffs)
      && forall i :: 0 <= i < k ==> Retriable(env[i].outcome)
    }

    /** What has been done when the loop is left in attempt `k`. */
    ghost predicate Left(env: seq<Attempt>, initial: real, stamps: seq<real>, backoffs: seq<real>, k: nat) {
      |stamps| == k + 1 && |backoffs| == k && Spaced(stamps, initial) && Waited(stamps, backoffs)
          && BackedOff(env, backoffs)
    }

    lemma LeavesWell(env: seq<Attempt>, initial: real, stamps: seq<real>, backoffs: seq<real>, k: nat)
      requires Environment(env, initial) && k < |env| && Retried(env, stamps, backoffs, k)
      ensures Left(env, initial, stamps + [env[k].after], backoffs, k)
      ensures StampsOf(env, stamps + [env[k].after])
    {
      SpacedStamps(env, stamps + [env[k].after], initial);
      BackoffsAreWaited(env, stamps + [env[k].after], backoffs, initial);
    }

    lemma RetriesOnce(env: seq<Attempt>, initial: real, stamps: seq<real>, backoffs: seq<real>, k: nat)
      requires Environment(env, initial) && k < |env| && Retried(env, stamps, backoffs, k) && Retriable(env[k].outcome)
      ensures Retried(env, stamps + [env[k].after], backoffs + [GetBackoff(k, env[k].jitter)], k + 1)
    {
      hide Retriable, GetBackoff, BackoffAt;
      AttemptFacts(env, initial, k);
    }

    /** The number of attempts made, when the first `k` are retried. */
    lemma RetriedMade(env: seq<Attempt>, stamps: seq<real>, backoffs: seq<real>, k: nat, limit: nat)
      requires Retried(env, stamps, backoffs, k) && k < limit <= |env|
      ensures !Retriable(env[k].outcome) || k + 1 == limit ==> AttemptsMade(env, limit) == k + 1
    {
      MadeAtLeast(env, limit, k);
      if Retriable(env[k].outcome) {
        MadeAtLeast(env, limit, k + 1);
      }
    }

    lemma NothingDone(env: seq<Attempt>, initial: real)
      ensures Retried(env, [], [], 0) && Spaced([], initial) && Waited([], []) && BackedOff(env, [])
    {
    }

    /** `askedAt` is the clock when the breaker is asked. */
    method ExecuteRequest(askedAt: real, env: seq<Attempt>)
      returns (answer: Answer, stamps: seq<real>, backoffs: seq<real>)
      requires Environment(env, lastRequestTime) && circuitBreaker.Valid()
      modifies this, circuitBreaker
      ensures answer == FastFail <==> Refused(circuitBreaker.failureThreshold, circuitBreaker.recoveryTimeout,
                                              old(circuitBreaker.history), askedAt)
      ensures Recovered(circuitBreaker.recoveryTimeout, old(circuitBreaker.history), askedAt) ==> answer != FastFail
      ensures |stamps| == if answer == FastFail then 0 else AttemptsMade(env, Attempts(maxRetries))
      ensures |stamps| <= if maxRetries < 0 then 0 else maxRetries + 1
      ensures answer == RetriesExceeded ==> |stamps| == maxRetries + 1
      ensures answer != FastFail ==> answer == AnswerOf(env, Attempts(maxRetries))
      ensures circuitBreaker.Valid()
      ensures circuitBreaker.history == old(circuitBreaker.history) + [Ask(askedAt)] + Reports(env[..|stamps|])
      ensures lastRequestTime == if stamps == [] || minInterval <= 0.0 then old(lastRequestTime)
                                 else stamps[|stamps| - 1]
      ensures |stamps| <= |env| && forall i :: 0 <= i < |stamps| ==> stamps[i] == env[i].after
      ensures if stamps == [] then backoffs == [] else |backoffs| == |stamps| - 1
      ensures Spaced(stamps, old(lastRequestTime)) && Waited(stamps, backoffs) && BackedOff(env, backoffs)
    {
      hide Spaced, Report, Reports, Environment, GetBackoff, BackedOff, Waited, AttemptsMade, Retriable, AnswerTo,
        Refused, Recovered, Retried, CircuitBreaker.Valid;
      stamps, backoffs := [], [];
      var permitted := circuitBreaker.CanExecute(askedAt);
      EnvironmentLength(env, lastRequestTime);
      NothingMade(env);
      NothingDone(env, lastRequestTime);
      if !permitted {
        return FastFail, [], [];
      }
      answer := Unknown;
      var attempt := 0;
      while attempt < Attempts(maxRetries)
        invariant 0 <= attempt <= Attempts(maxRetries) && answer == Unknown
        invariant attempt == Attempts(maxRetries) ==> attempt == 0
        invariant |stamps| == attempt && |backoffs| == attempt && Retried(env, stamps, backoffs, attempt)
        invariant attempt == 0 ==>
                    Spaced(stamps, old(lastRequestTime)) && Waited(stamps, backoffs) && BackedOff(env, backoffs)
        invariant circuitBreaker.Valid()
        invariant circuitBreaker.history == old(circuitBreaker.history) + [Ask(askedAt)] + Reports(env[..attempt])
        invariant lastRequestTime == LastStamp(env, attempt, old(lastRequestTime))
      {
        var a := env[attempt];
        AttemptFacts(env, old(lastRequestTime), attempt);
        RateLimit(a.before, a.after);
        ReportsNext(env, attempt);
        var settled := Settle(a);
        LeavesWell(env, old(lastRequestTime), stamps, backoffs, attempt);
        RetriedMade(env, stamps, backoffs, attempt, Attempts(maxRetries));
        if settled.Some? {
          stamps := stamps + [a.after];
          return settled.value, stamps, backoffs;
        }
        if attempt >= maxRetries {
          stamps := stamps + [a.after];
          return RetriesExceeded, stamps, backoffs;
        }
        RetriesOnce(env, old(lastRequestTime), stamps, backoffs, attempt);
        stamps := stamps + [a.after];
        backoffs := backoffs + [GetBackoff(attempt, a.jitter)];
        attempt := attempt + 1;
      }
    }

    lemma EnvironmentLength(env: seq<Attempt>, initial: real)
      requires Environment(env, initial)
      ensures |env| == Attempts(maxRetries)
    {
    }

    lemma AttemptFacts(env: seq<Attempt>, initial: real, k: nat)
      requires Environment(env, initial) && k < |env|
      ensures SleepsEnough(LastStamp(env, k, initial), env[k].before, env[k].after)
      ensures BackoffAt(GetBackoff(k, env[k].jitter), k)
    {
    }
  }

  /** The whole backoff of a request is at most a minute for every retry, and at most 1.1 times
      the sum of the powers of two. */
  lemma BackoffWithinLimits(backoffs: seq<real>, maxRetries: nat)
    requires |backoffs| <= maxRetries && forall k :: 0 <= k < |backoffs| ==> BackoffAt(backoffs[k], k)
    ensures Sum(backoffs) <= 60.0 * maxRetries as real
    ensures Sum(backoffs) <= 1.1 * (Pow2(maxRetries) - 1) as real
  {
    TotalBackoff(backoffs);
    Pow2Monotone(|backoffs|, maxRetries);
  }
}
