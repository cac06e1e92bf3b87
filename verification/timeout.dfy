/**
 The `Timeout` future of the client: it races the oracle's RPC future
 against a `Delay` timer. A success of the RPC wins at once; an error of the
 RPC is swallowed and the timer alone then decides, so an attempt whose RPC
 fails still lasts until its timer settles: at the deadline, or earlier only
 if the timer itself fails.

 The two racing sources are not modelled as futures. Each call of `poll`
 is given an `Observation`: what the RPC future would return if it were
 polled now, and what the timer returns. Once the RPC has failed, poll no
 longer looks at the RPC component, which is how "the RPC future is never
 polled again" appears in the model.
 */
module TimeoutFuture {
  import opened Futures
  import opened Rpc

  /** Message of the error reported when the timer itself fails. */
  const TimerFailureMessage: string := "timeout error: error "

  /** An error reported by the `Delay` timer; the client discards its contents. */
  datatype TimerError = TimerError(detail: string)

  /**
   The `Timeout` struct: the deadline its timer was created with, and the
   one bit of state, whether the RPC future is still being raced.
   */
  datatype Timeout = Timeout(timeoutMs: nat, waitingOnFuture: bool)

  /** What one poll sees from the RPC future and from the timer. */
  datatype Observation = Observation(future: Poll<TimestampResponse, Error>, delay: Poll<(), TimerError>)

  /** The state after one poll and what that poll returned. */
  datatype Polled = Polled(next: Timeout, result: Poll<TimestampResponse, Error>)

  /**
   The outcome of `wait` on a finite run of observations: the value it
   returned and how many polls that took, or `Blocked` when the run ended
   while `wait` was still waiting.
   */
  datatype Waited = Decided(result: Result<TimestampResponse, Error>, polls: nat) | Blocked

  /** The only errors a `Timeout` ever reports. */
  predicate IsTimerError(e: Error) {
    e == Error.Timeout || e == Other(TimerFailureMessage)
  }

  /** `Timeout::new`: a fresh timeout races the RPC future. */
  function NewTimeout(timeoutMs: nat): (t: Timeout)
    ensures t.waitingOnFuture
    ensures t.timeoutMs == timeoutMs
  {
    Timeout.Timeout(timeoutMs, true)
  }

  /** What the timer's poll outcome makes the timeout return. */
  function TimerVerdict(delay: Poll<(), TimerError>): (r: Poll<TimestampResponse, Error>)
  {
    match delay
    case Ok(NotReady) => Ok(NotReady)
    case Ok(Ready(_)) => Err(Error.Timeout)
    case Err(_) => Err(Other(TimerFailureMessage))
  }

  /** `Timeout::poll`, as a transition of the timeout's state. */
  function PollTimeout(t: Timeout, o: Observation): (r: Polled)
    ensures r.next.timeoutMs == t.timeoutMs
    // the flag only ever goes from true to false, and only on an RPC error
    ensures r.next.waitingOnFuture ==> t.waitingOnFuture
    ensures r.next.waitingOnFuture != t.waitingOnFuture <==> t.waitingOnFuture && o.future.Err?
    // a success of the RPC short-circuits, whatever the timer says
    ensures t.waitingOnFuture && o.future.Ok? && o.future.value.Ready? ==> r == Polled(t, o.future)
    // a value is returned only when the raced RPC produced it
    ensures r.result.Ok? && r.result.value.Ready? ==> t.waitingOnFuture && r.result == o.future
    // errors come from the timer only, never from the RPC
    ensures r.result.Err? ==> IsTimerError(r.result.error) && Settled(o.delay)
    ensures r.result.Err? ==> (r.result.error == Error.Timeout <==> o.delay.Ok?)
    // while the timer has not fired and no value arrived, poll is not ready
    ensures r.result == Ok(NotReady) <==>
              !Settled(o.delay) && !(t.waitingOnFuture && o.future.Ok? && o.future.value.Ready?)
  {
    if t.waitingOnFuture then
      match o.future
      case Ok(Ready(v)) => Polled(t, Ok(Ready(v)))
      case Ok(NotReady) => Polled(t, TimerVerdict(o.delay))
      case Err(_) => Polled(t.(waitingOnFuture := false), TimerVerdict(o.delay))
    else
      Polled(t, TimerVerdict(o.delay))
  }

  /** The index of the first observation at which the timer has settled, or |obs| if none. */
  function FirstTimerSettled(obs: seq<Observation>): (k: nat)
    ensures k <= |obs|
    ensures forall j :: 0 <= j < k ==> !Settled(obs[j].delay)
    ensures k < |obs| ==> Settled(obs[k].delay)
  {
    if |obs| == 0 || Settled(obs[0].delay) then 0 else 1 + FirstTimerSettled(obs[1..])
  }

  /** The index of the first observation at which the RPC future has settled, or |obs| if none. */
  function FirstFutureSettled(obs: seq<Observation>): (k: nat)
    ensures k <= |obs|
    ensures forall j :: 0 <= j < k ==> !Settled(obs[j].future)
    ensures k < |obs| ==> Settled(obs[k].future)
  {
    if |obs| == 0 || Settled(obs[0].future) then 0 else 1 + FirstFutureSettled(obs[1..])
  }

  /** Turns a settled poll outcome into the value `wait` returns. */
  function Outcome(p: Poll<TimestampResponse, Error>): (r: Result<TimestampResponse, Error>)
    requires Settled(p)
  {
    match p
    case Ok(a) => Ok(a.value)
    case Err(e) => Err(e)
  }

  /**
   `Future::wait` on a timeout: poll until the result is not `NotReady`,
   one observation per poll.
   */
  function Wait(t: Timeout, obs: seq<Observation>): (r: Waited)
    ensures r.Decided? ==> 1 <= r.polls <= |obs|
    // only a raced RPC can make wait succeed
    ensures r.Decided? && r.result.Ok? ==> t.waitingOnFuture
    // wait fails only with the timer's errors, and only at the moment the timer settles
    ensures r.Decided? && r.result.Err? ==>
              IsTimerError(r.result.error) && r.polls == FirstTimerSettled(obs) + 1
    // wait returns no later than the timer settles
    ensures FirstTimerSettled(obs) < |obs| ==> r.Decided? && r.polls <= FirstTimerSettled(obs) + 1
    decreases |obs|
  {
    if |obs| == 0 then Blocked
    else
      var p := PollTimeout(t, obs[0]);
      if Settled(p.result) then Decided(Outcome(p.result), 1)
      else
        match Wait(p.next, obs[1..])
        case Decided(res, n) => Decided(res, n + 1)
        case Blocked => Blocked
  }

  /**
   Reference semantics of the race, stated by position instead of by
   iterated polling: with f the first settled RPC outcome (if the RPC is
   raced at all) and d the first settled timer outcome, a success at f wins
   when f <= d; otherwise the timer's outcome at d decides.
   */
  function Race(racing: bool, obs: seq<Observation>): (r: Waited)
  {
    var f := if racing then FirstFutureSettled(obs) else |obs|;
    var d := FirstTimerSettled(obs);
    if f < |obs| && f <= d && obs[f].future.Ok? then Decided(Outcome(obs[f].future), f + 1)
    else if d < |obs| then Decided(Outcome(TimerVerdict(obs[d].delay)), d + 1)
    else Blocked
  }

  /** Polling one observation at a time agrees with the positional reference semantics. */
  lemma {:induction false} WaitIsRace(t: Timeout, obs: seq<Observation>)
    ensures Wait(t, obs) == Race(t.waitingOnFuture, obs)
    decreases |obs|
  {
    if |obs| > 0 {
      var o, rest := obs[0], obs[1..];
      var p := PollTimeout(t, o);
      if !Settled(p.result) {
        WaitIsRace(p.next, rest);
        assert FirstTimerSettled(obs) == 1 + FirstTimerSettled(rest);
        if t.waitingOnFuture && !o.future.Err? {
          assert FirstFutureSettled(obs) == 1 + FirstFutureSettled(rest);
        }
        var f := if t.waitingOnFuture then FirstFutureSettled(obs) else |obs|;
        var d := FirstTimerSettled(obs);
        if d < |obs| {
          assert obs[d] == rest[d - 1];
        }
        if f < |obs| && f > 0 {
          assert obs[f] == rest[f - 1];
        }
      }
    }
  }

  /**
   Once the RPC future has failed, the race goes exactly as if the RPC had
   never been raced: its error, and anything it would report later, is
   discarded.
   */
  lemma {:induction false} FailedRpcIsIgnored(t: Timeout, obs: seq<Observation>)
    requires FirstFutureSettled(obs) < |obs| && obs[FirstFutureSettled(obs)].future.Err?
    ensures Wait(t, obs) == Wait(t.(waitingOnFuture := false), obs)
  {
    WaitIsRace(t, obs);
    WaitIsRace(t.(waitingOnFuture := false), obs);
  }

  /** Which error the RPC future fails with makes no difference to `wait`. */
  lemma {:induction false} RpcErrorIsDiscarded(t: Timeout, obs: seq<Observation>, k: nat, e: Error)
    requires k < |obs| && obs[k].future.Err?
    ensures Wait(t, obs[k := obs[k].(future := Err(e))]) == Wait(t, obs)
  {
    var obs' := obs[k := obs[k].(future := Err(e))];
    WaitIsRace(t, obs);
    WaitIsRace(t, obs');
    SettlednessDecidesFirsts(obs, obs');
  }

  /** The first settled positions depend only on which observations are settled. */
  lemma SettlednessDecidesFirsts(a: seq<Observation>, b: seq<Observation>)
    requires |a| == |b|
    requires forall j :: 0 <= j < |a| ==> (Settled(a[j].future) <==> Settled(b[j].future))
    requires forall j :: 0 <= j < |a| ==> (Settled(a[j].delay) <==> Settled(b[j].delay))
    ensures FirstFutureSettled(a) == FirstFutureSettled(b)
    ensures FirstTimerSettled(a) == FirstTimerSettled(b)
  {
  }

  /**
   Once the timeout no longer races the RPC, nothing the RPC future would
   report can change what `wait` does: the future is never polled again.
   */
  lemma {:induction false} UnracedFutureIsNeverPolled(t: Timeout, a: seq<Observation>, b: seq<Observation>)
    requires !t.waitingOnFuture
    requires |a| == |b|
    requires forall j :: 0 <= j < |a| ==> a[j].delay == b[j].delay
    ensures Wait(t, a) == Wait(t, b)
    decreases |a|
  {
    if |a| > 0 {
      assert PollTimeout(t, a[0]) == PollTimeout(t, b[0]);
      UnracedFutureIsNeverPolled(t, a[1..], b[1..]);
    }
  }

  /**
   A success of the raced RPC that arrives before the timer settles (or on
   the same poll) is what `wait` returns, on the poll at which it arrives.
   */
  lemma {:induction false} SuccessWinsRace(obs: seq<Observation>, f: nat, v: TimestampResponse, timeoutMs: nat)
    requires f < |obs| && obs[f].future == Ok(Ready(v))
    requires forall j :: 0 <= j < f ==> !Settled(obs[j].future) && !Settled(obs[j].delay)
    ensures Wait(NewTimeout(timeoutMs), obs) == Decided(Ok(v), f + 1)
  {
    WaitIsRace(NewTimeout(timeoutMs), obs);
    assert FirstFutureSettled(obs) == f;
  }
}
