/**
 The retry decorator both PowerVS code paths use (`backoff.on_exception`):
 the wrapped call is repeated while it raises a `requests.RequestException`
 that the give-up predicate does not reject and the time elapsed since the
 first try, measured when the failed try started, is still below the
 budget. Any other exception, a rejected one, or one raised once the budget
 is spent propagates unchanged. Sleeping and jitter are not modelled: each
 try comes with the elapsed time at which it started.
 */
module Retry {
  import opened Errors
  import opened Wrappers

  /** One scripted try: when it started (seconds since the first try) and what it produced. */
  datatype Attempt<T> = Attempt(elapsed: int, outcome: Result<T>)

  /** The `k`-th try; tries past the end of the script raise `Unscripted`. */
  function AttemptAt<T>(attempts: seq<Attempt<T>>, k: nat): (a: Attempt<T>)
    ensures k < |attempts| ==> a == attempts[k]
    ensures k >= |attempts| ==> a.outcome == Err(Unscripted)
  {
    if k < |attempts| then attempts[k] else Attempt(0, Err(Unscripted))
  }

  /** The decorator's decision after a failed try: go round again. */
  predicate RetriesAfter(e: Exc, elapsed: int, maxTime: int, giveup: Exc -> bool) {
    IsRequestException(e) && !giveup(e) && elapsed < maxTime
  }

  /** The `k`-th try failed and was followed by another. */
  predicate RetriedAt<T>(attempts: seq<Attempt<T>>, k: nat, maxTime: int, giveup: Exc -> bool) {
    var a := AttemptAt(attempts, k);
    a.outcome.Err? && RetriesAfter(a.outcome.exc, a.elapsed, maxTime, giveup)
  }

  /** The decorator described try by try from the `k`-th on: how many tries
      have been made when the call ends, and what it returns or raises. */
  function Run<T>(attempts: seq<Attempt<T>>, k: nat, maxTime: int, giveup: Exc -> bool)
    : (r: (nat, Result<T>))
    ensures k < r.0 <= |attempts| + 1 || r.0 == k + 1
    ensures forall j :: k <= j < r.0 - 1 ==> RetriedAt(attempts, j, maxTime, giveup)
    ensures !RetriedAt(attempts, r.0 - 1, maxTime, giveup)
    ensures r.1 == AttemptAt(attempts, r.0 - 1).outcome
    decreases |attempts| - k
  {
    if k >= |attempts| then (k + 1, Err(Unscripted))
    else if RetriedAt(attempts, k, maxTime, giveup) then Run(attempts, k + 1, maxTime, giveup)
    else (k + 1, attempts[k].outcome)
  }

  /** `backoff.on_exception(..., requests.RequestException, max_time=maxTime, giveup=giveup)`
      around a call whose successive tries are scripted by `attempts`. */
  method OnException<T>(attempts: seq<Attempt<T>>, maxTime: int, giveup: Exc -> bool)
    returns (tries: nat, r: Result<T>)
    ensures 1 <= tries <= |attempts| + 1
    ensures forall k :: 0 <= k < tries - 1 ==> RetriedAt(attempts, k, maxTime, giveup)
    ensures !RetriedAt(attempts, tries - 1, maxTime, giveup)
    ensures r == AttemptAt(attempts, tries - 1).outcome
    ensures (tries, r) == Run(attempts, 0, maxTime, giveup)
  {
    tries := 0;
    while true
      invariant tries <= |attempts|
      invariant forall k :: 0 <= k < tries ==> RetriedAt(attempts, k, maxTime, giveup)
      invariant Run(attempts, 0, maxTime, giveup) == Run(attempts, tries, maxTime, giveup)
      decreases |attempts| - tries
    {
      var a := AttemptAt(attempts, tries);
      if a.outcome.Ok? || !RetriesAfter(a.outcome.exc, a.elapsed, maxTime, giveup) {
        tries := tries + 1;
        r := a.outcome;
        return;
      }
      tries := tries + 1;
    }
  }

  /** A try that raises something the decorator does not catch, or rejects,
      ends the call at once: when every try before the `k`-th was retried and
      the `k`-th is not, the call makes exactly `k + 1` tries and ends with
      the `k`-th try's outcome. */
  lemma {:induction false} FirstRejectedEndsCall<T>(attempts: seq<Attempt<T>>, maxTime: int,
                                                    giveup: Exc -> bool, k: nat)
    requires forall j :: 0 <= j < k ==> RetriedAt(attempts, j, maxTime, giveup)
    requires !RetriedAt(attempts, k, maxTime, giveup)
    ensures Run(attempts, 0, maxTime, giveup) == (k + 1, AttemptAt(attempts, k).outcome)
  {
    RunStopsAt(attempts, maxTime, giveup, 0, k);
  }

  /** `FirstRejectedEndsCall` from the `i`-th try on. */
  lemma {:induction false} RunStopsAt<T>(attempts: seq<Attempt<T>>, maxTime: int,
                                         giveup: Exc -> bool, i: nat, k: nat)
    requires i <= k
    requires forall j :: i <= j < k ==> RetriedAt(attempts, j, maxTime, giveup)
    requires !RetriedAt(attempts, k, maxTime, giveup)
    ensures Run(attempts, i, maxTime, giveup) == (k + 1, AttemptAt(attempts, k).outcome)
    decreases k - i
  {
    if i < k {
      assert RetriedAt(attempts, i, maxTime, giveup);
      RunStopsAt(attempts, maxTime, giveup, i + 1, k);
    }
  }
}
