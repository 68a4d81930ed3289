/** `GetHttpContentWithRetryAsync` as a state machine over the outcomes of successive GET
    attempts. The attempt outcomes are a parameter; the backoff delays are returned as data. */
module Retry {

  /** The default of the `maxRetries` parameter. */
  const DefaultMaxRetries := 3

  /** What one attempt produced: a response with its status code and body, or an exception
      thrown by the transport or by reading the body. */
  datatype Attempt = Response(statusCode: int, body: string) | Thrown(message: string)

  /** Why the fetch finally failed: the `HttpRequestException` raised for a non-success
      status, or the last exception caught. */
  datatype Cause = FailedStatus(code: int) | Exception(message: string)

  datatype FetchResult = Fetched(body: string) | FetchFailed(cause: Cause)

  /** The result, the number of attempts made and the delays waited, in seconds, in order. */
  datatype Trace = Trace(result: FetchResult, attempts: nat, delays: seq<nat>)

  /** `IsSuccessStatusCode`: a status in the 200 range. */
  predicate IsSuccessStatusCode(code: int) {
    200 <= code <= 299
  }

  predicate Succeeded(a: Attempt) {
    a.Response? && IsSuccessStatusCode(a.statusCode)
  }

  /** The cause recorded when attempt `a` fails. */
  function CauseOf(a: Attempt): Cause {
    match a
    case Response(code, _) => FailedStatus(code)
    case Thrown(message) => Exception(message)
  }

  /** `Math.Pow(2, n)` for the backoff, in whole seconds. */
  function Pow2(n: nat): nat {
    if n == 0 then 1 else 2 * Pow2(n - 1)
  }

  /** The delays waited before the first `n` retries: 2, 4, 8, ... seconds. */
  function Backoffs(n: nat): (r: seq<nat>)
    ensures |r| == n
    ensures forall i :: 0 <= i < n ==> r[i] == Pow2(i + 1)
  {
    if n == 0 then [] else Backoffs(n - 1) + [Pow2(n)]
  }

  /** The loop from the attempt numbered `retryCount`, having waited `delays` so far. A non-5xx
      status raises an exception inside the `try`, which the `catch` retries like any other. */
  function Run(outcome: nat -> Attempt, maxRetries: nat, retryCount: nat, delays: seq<nat>): Trace
    requires retryCount <= maxRetries
    decreases maxRetries - retryCount
  {
    match outcome(retryCount)
    case Response(code, body) =>
      if IsSuccessStatusCode(code) then Trace(Fetched(body), retryCount + 1, delays)
      else if code >= 500 && retryCount < maxRetries then
        Run(outcome, maxRetries, retryCount + 1, delays + [Pow2(retryCount + 1)])
      else if retryCount < maxRetries then
        Run(outcome, maxRetries, retryCount + 1, delays + [Pow2(retryCount + 1)])
      else Trace(FetchFailed(FailedStatus(code)), retryCount + 1, delays)
    case Thrown(message) =>
      if retryCount < maxRetries then
        Run(outcome, maxRetries, retryCount + 1, delays + [Pow2(retryCount + 1)])
      else Trace(FetchFailed(Exception(message)), retryCount + 1, delays)
  }

  /** The retry loop: attempt `retryCount` has outcome `outcome(retryCount)`. */
  method GetHttpContentWithRetry(outcome: nat -> Attempt, maxRetries: nat)
    returns (result: FetchResult, attempts: nat, delays: seq<nat>)
    ensures Trace(result, attempts, delays) == Run(outcome, maxRetries, 0, [])
    ensures 1 <= attempts <= maxRetries + 1
    ensures delays == Backoffs(attempts - 1)
    ensures result.FetchFailed? <==> forall i :: 0 <= i <= maxRetries ==> !Succeeded(outcome(i))
  {
    RunBounds(outcome, maxRetries, 0, []);
    RunFailsIffAllFail(outcome, maxRetries, 0, []);
    var retryCount: nat := 0;
    delays := [];
    while true
      invariant retryCount <= maxRetries
      invariant Run(outcome, maxRetries, retryCount, delays) == Run(outcome, maxRetries, 0, [])
      decreases maxRetries - retryCount
    {
      var response := outcome(retryCount);
      var caught: Cause;
      if response.Response? {
        if IsSuccessStatusCode(response.statusCode) {
          return Fetched(response.body), retryCount + 1, delays;
        }
        if response.statusCode >= 500 && retryCount < maxRetries {
          retryCount := retryCount + 1;
          delays := delays + [Pow2(retryCount)];
          continue;
        }
        caught := FailedStatus(response.statusCode);
      } else {
        caught := Exception(response.message);
      }
      if retryCount < maxRetries {
        retryCount := retryCount + 1;
        delays := delays + [Pow2(retryCount)];
        continue;
      }
      return FetchFailed(caught), retryCount + 1, delays;
    }
  }

  /** From attempt `retryCount` on, at most `maxRetries + 1` attempts are made in all, and one
      delay of 2^k seconds is waited before attempt k. */
  lemma {:induction false} RunBounds(outcome: nat -> Attempt, maxRetries: nat, retryCount: nat, delays: seq<nat>)
    requires retryCount <= maxRetries
    ensures var t := Run(outcome, maxRetries, retryCount, delays);
      retryCount + 1 <= t.attempts <= maxRetries + 1
    ensures delays == Backoffs(retryCount) ==>
      Run(outcome, maxRetries, retryCount, delays).delays
        == Backoffs(Run(outcome, maxRetries, retryCount, delays).attempts - 1)
    decreases maxRetries - retryCount
  {
    if retryCount < maxRetries && !Succeeded(outcome(retryCount)) {
      var next := delays + [Pow2(retryCount + 1)];
      RunBounds(outcome, maxRetries, retryCount + 1, next);
      if delays == Backoffs(retryCount) {
        assert next == Backoffs(retryCount + 1);
      }
    }
  }

  /** A fetched body is that of the first successful attempt, and every attempt before it
      failed. */
  lemma {:induction false} RunFetchesFirstSuccess(outcome: nat -> Attempt, maxRetries: nat, retryCount: nat, delays: seq<nat>)
    requires retryCount <= maxRetries
    requires forall i :: 0 <= i < retryCount ==> !Succeeded(outcome(i))
    ensures var t := Run(outcome, maxRetries, retryCount, delays);
      t.result.Fetched? ==>
        && t.attempts >= 1
        && Succeeded(outcome(t.attempts - 1))
        && t.result.body == outcome(t.attempts - 1).body
        && forall i :: 0 <= i < t.attempts - 1 ==> !Succeeded(outcome(i))
    decreases maxRetries - retryCount
  {
    if retryCount < maxRetries && !Succeeded(outcome(retryCount)) {
      RunFetchesFirstSuccess(outcome, maxRetries, retryCount + 1, delays + [Pow2(retryCount + 1)]);
    }
  }

  /** The fetch fails exactly when all `maxRetries + 1` attempts fail, and then reports the
      cause of the last one. */
  lemma {:induction false} RunFailsIffAllFail(outcome: nat -> Attempt, maxRetries: nat, retryCount: nat, delays: seq<nat>)
    requires retryCount <= maxRetries
    requires forall i :: 0 <= i < retryCount ==> !Succeeded(outcome(i))
    ensures var t := Run(outcome, maxRetries, retryCount, delays);
      t.result.FetchFailed? <==> forall i :: 0 <= i <= maxRetries ==> !Succeeded(outcome(i))
    ensures var t := Run(outcome, maxRetries, retryCount, delays);
      t.result.FetchFailed? ==> t.attempts == maxRetries + 1 && t.result.cause == CauseOf(outcome(maxRetries))
    decreases maxRetries - retryCount
  {
    if retryCount < maxRetries && !Succeeded(outcome(retryCount)) {
      RunFailsIffAllFail(outcome, maxRetries, retryCount + 1, delays + [Pow2(retryCount + 1)]);
    }
  }

  /** Whether an attempt failed by a 5xx status, another status or an exception does not
      change how many attempts are made or how long is waited. */
  lemma {:induction false} FailureKindIrrelevant(o1: nat -> Attempt, o2: nat -> Attempt, maxRetries: nat, retryCount: nat, delays: seq<nat>)
    requires retryCount <= maxRetries
    requires forall i :: retryCount <= i <= maxRetries ==> Succeeded(o1(i)) == Succeeded(o2(i))
    requires forall i :: retryCount <= i <= maxRetries && Succeeded(o1(i)) ==> o1(i) == o2(i)
    ensures var t1, t2 := Run(o1, maxRetries, retryCount, delays), Run(o2, maxRetries, retryCount, delays);
      t1.attempts == t2.attempts && t1.delays == t2.delays && t1.result.Fetched? == t2.result.Fetched?
    ensures var t1, t2 := Run(o1, maxRetries, retryCount, delays), Run(o2, maxRetries, retryCount, delays);
      t1.result.Fetched? ==> t1.result == t2.result
    decreases maxRetries - retryCount
  {
    if retryCount < maxRetries && !Succeeded(o1(retryCount)) {
      FailureKindIrrelevant(o1, o2, maxRetries, retryCount + 1, delays + [Pow2(retryCount + 1)]);
    }
  }

  /** Two 503 responses and then a 200: the body after three attempts, waiting 2 s and 4 s. */
  lemma ServerErrorsThenSuccess(outcome: nat -> Attempt, body: string)
    requires outcome(0) == Response(503, "") && outcome(1) == Response(503, "")
    requires outcome(2) == Response(200, body)
    ensures Run(outcome, DefaultMaxRetries, 0, []) == Trace(Fetched(body), 3, [2, 4])
  {
    assert [] + [Pow2(1)] == [2];
    assert [2] + [Pow2(2)] == [2, 4];
  }

  /** A 404 response is retried too: a 404 followed by a 200 yields the body after two
      attempts. */
  lemma NotFoundIsRetried(outcome: nat -> Attempt, body: string)
    requires outcome(0) == Response(404, "") && outcome(1) == Response(200, body)
    ensures Run(outcome, DefaultMaxRetries, 0, []) == Trace(Fetched(body), 2, [2])
  {
    assert [] + [Pow2(1)] == [2];
  }
}
