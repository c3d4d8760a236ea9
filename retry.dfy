/**
 * The client's response interceptor (frontend/src/api.js): on a failed
 * request it decides between rejecting and retrying, counts the retries in
 * the request's config, and waits an exponential backoff before re-issuing.
 * The wait and the re-issued request are I/O; `Send` takes the server's
 * answers as a parameter.
 */
module Retry {

  /** The cap `createExpense` and `getExpenses` put in their request config. */
  const ClientRetryCap: int := 3

  /**
   * A request's config as the interceptor sees it: `retry` is the cap (0
   * when unset) and `retryCount` the retries made so far (`retryCount || 0`
   * reads an unset count as 0).
   */
  class RequestConfig {
    var retry: int
    var retryCount: nat

    constructor (cap: int)
      ensures retry == cap && retryCount == 0
    {
      retry := cap;
      retryCount := 0;
    }
  }

  /** What came back from one attempt: no response (a network error) or an HTTP status. */
  datatype Reply = NoResponse | Status(code: int)

  /** axios resolves a 2xx reply and hands everything else to the interceptor. */
  predicate IsSuccess(r: Reply)
  {
    r.Status? && 200 <= r.code < 300
  }

  /** Only a network error or a 5xx reply is worth retrying; 4xx (any status below 500) is not. */
  function Retryable(r: Reply): (b: bool)
    ensures b ==> !IsSuccess(r)
    ensures r.Status? && 400 <= r.code < 500 ==> !b
  {
    r.NoResponse? || r.code >= 500
  }

  datatype Decision = Reject | RetryAfter(delayMs: int)

  function Pow2(n: nat): (p: nat)
    ensures p >= 1
  {
    if n == 0 then 1 else 2 * Pow2(n - 1)
  }

  /** The wait before retry number `n` (counting from 1): `2^n * 1000` ms. */
  function Backoff(n: nat): int
  {
    Pow2(n) * 1000
  }

  /**
   * The interceptor's decision for a failed attempt, given the config's cap
   * and count: retry only when a cap is set, the failure is retryable and
   * the count is still below the cap; the wait is the backoff of the count
   * after the increment.
   */
  function Decide(retry: int, retryCount: nat, r: Reply): (d: Decision)
    ensures d.RetryAfter? <==> retry != 0 && Retryable(r) && retryCount < retry
    ensures d.RetryAfter? ==> d.delayMs == Backoff(retryCount + 1)
  {
    if retry == 0 then Reject
    else if !Retryable(r) then Reject
    else if retryCount >= retry then Reject
    else RetryAfter(Backoff(retryCount + 1))
  }

  /** The first retry waits 2000 ms and each later one twice as long as the one before. */
  lemma {:induction false} BackoffDoubles(n: nat)
    ensures Backoff(1) == 2000
    ensures Backoff(n + 1) == 2 * Backoff(n)
  {
    assert Pow2(n + 1) == 2 * Pow2(n);
  }

  /** No retry when the request has no config, or its config sets no cap. */
  lemma NoCapNoRetry(retryCount: nat, r: Reply)
    ensures Decide(0, retryCount, r) == Reject
  {
  }

  /** A reply below 500 (a 4xx in particular) is rejected whatever the count. */
  lemma ClientErrorNoRetry(retry: int, retryCount: nat, code: int)
    requires code < 500
    ensures Decide(retry, retryCount, Status(code)) == Reject
  {
  }

  /**
   * The interceptor's handler for one failed attempt. A missing config
   * rejects; otherwise the count grows by exactly one when, and only when,
   * the decision is to retry.
   */
  method OnError(config: RequestConfig?, r: Reply) returns (d: Decision)
    modifies config
    ensures config == null ==> d == Reject
    ensures config != null ==>
              && d == Decide(old(config.retry), old(config.retryCount), r)
              && config.retry == old(config.retry)
              && config.retryCount == old(config.retryCount) + (if d.RetryAfter? then 1 else 0)
  {
    if config == null || config.retry == 0 {
      return Reject;
    }
    if r.Status? && r.code < 500 {
      return Reject;
    }
    if config.retryCount >= config.retry {
      return Reject;
    }
    config.retryCount := config.retryCount + 1;
    d := RetryAfter(Backoff(config.retryCount));
  }

  /**
   * One request and its retries: attempt `n` gets `server(n)`; each retry
   * waits its backoff (recorded in `delays`) and re-issues the request with
   * the same config. The last reply is a success or one the interceptor
   * rejects; every earlier one was a retryable failure; the count never
   * passes the cap.
   */
  method Send(config: RequestConfig, server: nat -> Reply) returns (final: Reply, delays: seq<int>)
    modifies config
    ensures config.retry == old(config.retry)
    ensures config.retryCount == old(config.retryCount) + |delays|
    ensures final == server(|delays|)
    ensures IsSuccess(final) || Decide(config.retry, config.retryCount, final) == Reject
    ensures forall i :: 0 <= i < |delays| ==> !IsSuccess(server(i)) && Retryable(server(i))
    ensures forall i :: 0 <= i < |delays| ==> delays[i] == Backoff(old(config.retryCount) + i + 1)
    ensures |delays| > 0 ==> config.retry != 0 && config.retryCount <= config.retry
  {
    delays := [];
    final := server(0);
    while !IsSuccess(final)
      invariant config.retry == old(config.retry)
      invariant config.retryCount == old(config.retryCount) + |delays|
      invariant final == server(|delays|)
      invariant forall i :: 0 <= i < |delays| ==> !IsSuccess(server(i)) && Retryable(server(i))
      invariant forall i :: 0 <= i < |delays| ==> delays[i] == Backoff(old(config.retryCount) + i + 1)
      invariant |delays| > 0 ==> config.retry != 0 && config.retryCount <= config.retry
      decreases if config.retryCount <= config.retry then config.retry - config.retryCount else 0
    {
      var d := OnError(config, final);
      if d.Reject? {
        return;
      }
      delays := delays + [d.delayMs];
      final := server(|delays|);
    }
  }

  /**
   * `createExpense` and `getExpenses`: a fresh config with cap 3, so at most
   * three retries, waiting 2000, 4000 and 8000 ms.
   */
  method ClientRequest(server: nat -> Reply) returns (final: Reply, delays: seq<int>)
    ensures |delays| <= ClientRetryCap
    ensures delays <= [2000, 4000, 8000]
    ensures final == server(|delays|)
    ensures !IsSuccess(final) && Retryable(final) ==> |delays| == ClientRetryCap
  {
    var config := new RequestConfig(ClientRetryCap);
    final, delays := Send(config, server);
    BackoffDoubles(1);
    BackoffDoubles(2);
  }
}
