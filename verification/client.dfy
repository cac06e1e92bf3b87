/**
 `Client::get_timestamp`: up to `RetryTimes` attempts to fetch a timestamp
 from the oracle, each raced against a timer whose deadline doubles from
 `BackoffTimeMs`. The first success is returned at once; when every attempt
 fails, the last attempt's error is returned.

 The RPC and the timer of attempt i are given as `races[i]`, the run of
 observations the i-th `Timeout` sees while `wait` polls it.
 */
module Client {
  import opened Futures
  import opened Rpc
  import opened TimeoutFuture

  /** The deadline of the first attempt, in milliseconds. */
  const BackoffTimeMs: u64 := 100

  /** The maximum number of attempts. */
  const RetryTimes: nat := 3

  /** The error the loop starts from, before any attempt has reported one. */
  const UnknownErrorMessage: string := "Unknown error"

  /** 2 to the power n. */
  function Pow2(n: nat): (p: nat)
    ensures p >= 1
  {
    if n == 0 then 1 else 2 * Pow2(n - 1)
  }

  /** The deadline of attempt i (counting from 0): 100, 200, 400, ... ms. */
  function Backoff(i: nat): (ms: nat) {
    BackoffTimeMs as nat * Pow2(i)
  }

  /** The deadlines of the first n attempts, in order. */
  function BackoffSchedule(n: nat): (s: seq<nat>)
    ensures |s| == n
  {
    seq(n, i requires 0 <= i => Backoff(i))
  }

  /** Total of a sequence of durations. */
  function SumMs(s: seq<nat>): (total: nat) {
    if |s| == 0 then 0 else SumMs(s[..|s| - 1]) + s[|s| - 1]
  }

  /** The timer of an attempt eventually fires or fails within the observed run. */
  predicate TimerSettles(race: seq<Observation>) {
    FirstTimerSettled(race) < |race|
  }

  /** What `wait` returns for an attempt that races its RPC against a timer with the given deadline. */
  function AttemptResult(race: seq<Observation>, deadlineMs: nat): (r: Result<TimestampResponse, Error>)
    requires TimerSettles(race)
    ensures r.Err? ==> IsTimerError(r.error) && r != Err(Other(UnknownErrorMessage))
  {
    Wait(NewTimeout(deadlineMs), race).result
  }

  /** What `wait` returns for each attempt, attempt i observing `races[i]` with deadline Backoff(i). */
  function AttemptResults(races: seq<seq<Observation>>): (w: seq<Result<TimestampResponse, Error>>)
    requires forall i :: 0 <= i < |races| ==> TimerSettles(races[i])
    ensures |w| == |races|
    ensures forall i :: 0 <= i < |w| ==> w[i] == AttemptResult(races[i], Backoff(i))
    ensures forall i :: 0 <= i < |w| ==> w[i].Err? ==> IsTimerError(w[i].error)
    ensures forall i :: 0 <= i < |w| ==> w[i] != Err(Other(UnknownErrorMessage))
  {
    seq(|races|, i requires 0 <= i < |races| && TimerSettles(races[i]) => AttemptResult(races[i], Backoff(i)))
  }

  /**
   `Client::get_timestamp`. `waits[i]` is what `wait` returns for attempt i
   (see `AttemptResults`). Besides the result, returns the deadline each
   attempt made was given, in order, so the attempts made are `|deadlines|`.
   */
  method GetTimestamp(waits: seq<Result<TimestampResponse, Error>>) returns (result: Result<u64, Error>, deadlines: seq<nat>)
    requires |waits| == RetryTimes
    // at least one and at most RetryTimes attempts, with deadlines 100, 200, 400 ms
    ensures 1 <= |deadlines| <= RetryTimes
    ensures deadlines == BackoffSchedule(|deadlines|)
    ensures deadlines <= [100, 200, 400]
    // every attempt but the last one made failed
    ensures forall j :: 0 <= j < |deadlines| - 1 ==> waits[j].Err?
    // success: the timestamp of the first successful attempt, with no attempt after it
    ensures result.Ok? <==> waits[|deadlines| - 1].Ok?
    ensures result.Ok? ==> result.value == waits[|deadlines| - 1].value.timestamp
    ensures result.Ok? <==> exists j :: 0 <= j < RetryTimes && waits[j].Ok?
    // failure: every attempt was made and the last one's error is returned, not the default
    ensures result.Err? ==> |deadlines| == RetryTimes && result.error == waits[RetryTimes - 1].error
    ensures result.Err? ==> SumMs(deadlines) == 700
  {
    result := Err(Other(UnknownErrorMessage));
    var backoffMs: u64 := BackoffTimeMs;
    deadlines := [];
    var i: nat := 0;
    while i < RetryTimes
      invariant i <= RetryTimes
      invariant backoffMs as nat == Backoff(i)
      invariant deadlines == BackoffSchedule(i)
      invariant forall j :: 0 <= j < i ==> waits[j].Err?
      invariant i == 0 ==> result == Err(Other(UnknownErrorMessage))
      invariant i > 0 ==> result == Err(waits[i - 1].error)
    {
      deadlines := deadlines + [backoffMs as nat];
      match waits[i] {
        case Ok(resp) =>
          return Ok(resp.timestamp), deadlines;
        case Err(e) =>
          result := Err(e);
      }
      backoffMs := backoffMs * 2;
      i := i + 1;
    }
    BackoffTotal(RetryTimes);
  }

  /**
   `Client::get_timestamp` end to end: attempt i races its RPC against a
   timer with deadline Backoff(i) over `races[i]`, and the retry loop runs
   over what those waits return. A failed fetch reports a timer error,
   never the "Unknown error" the loop starts from.
   */
  method FetchTimestamp(races: seq<seq<Observation>>) returns (result: Result<u64, Error>, deadlines: seq<nat>)
    requires |races| == RetryTimes
    requires forall i :: 0 <= i < |races| ==> TimerSettles(races[i])
    ensures 1 <= |deadlines| <= RetryTimes && deadlines == BackoffSchedule(|deadlines|)
    // every attempt but the last one made failed
    ensures forall j :: 0 <= j < |deadlines| - 1 ==> AttemptResults(races)[j].Err?
    // success: the timestamp of the first attempt whose wait succeeded
    ensures result.Ok? <==> exists j :: 0 <= j < RetryTimes && AttemptResults(races)[j].Ok?
    ensures result.Ok? ==> AttemptResults(races)[|deadlines| - 1] == Ok(TimestampResponse(result.value))
    // failure: every attempt was made, and the error is a timer error, not the loop's default
    ensures result.Err? ==> |deadlines| == RetryTimes
    ensures result.Err? ==> result.error == AttemptResults(races)[RetryTimes - 1].error
    ensures result.Err? ==> IsTimerError(result.error) && result.error != Other(UnknownErrorMessage)
  {
    result, deadlines := GetTimestamp(AttemptResults(races));
  }

  /** The deadlines of n consecutive attempts add up to 100 * (2^n - 1) ms. */
  lemma {:induction false} BackoffTotal(n: nat)
    ensures SumMs(BackoffSchedule(n)) == BackoffTimeMs as nat * (Pow2(n) - 1)
  {
    if n > 0 {
      BackoffTotal(n - 1);
      assert BackoffSchedule(n)[..n - 1] == BackoffSchedule(n - 1);
    }
  }
}
