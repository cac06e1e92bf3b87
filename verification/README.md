# Percolator client: timestamp fetch

A Dafny model of the working part of the Percolator transaction client
(`dss/percolator/src/client.rs`): fetching a timestamp from the timestamp
oracle (TSO). It has two pieces.

- The `Timeout` future races the oracle's RPC future against a `Delay`
  timer, with one bit of state, `waiting_on_future`. A success of the RPC
  wins at once. An error of the RPC is swallowed: it only clears the bit,
  and the timer then decides. So an attempt whose RPC fails still lasts
  until its timer settles: at the deadline, or earlier only if the timer
  itself fails. The timer firing yields `Error::Timeout`; the timer failing
  yields `Error::Other("timeout error: error ")`.
- `Client::get_timestamp` makes up to `RETRY_TIMES` (3) attempts. Attempt i
  gets a deadline of `BACKOFF_TIME_MS * 2^i` (100, 200, 400 ms). It returns
  the first timestamp received, or else the last attempt's error. The loop
  starts from an `Other("Unknown error")` default, which is never returned.

Asynchrony is replaced by observations. Each call of `poll` receives an
`Observation`: what the RPC future would return if polled now, and what the
timer returns. When `waiting_on_future` is false, poll ignores the RPC
component, so the future is never polled again. `wait` is repeated `poll`
over a finite run of observations. It returns `Decided(result, polls)`, or
`Blocked` when the run ends before the race is decided. `get_timestamp`
takes, for each attempt, the result of `wait` on that attempt's run
(`Client.AttemptResults`).

Modules:
- `futures.dfy` — `Futures`: `Async`, `Result` and `Poll` from the futures 0.1 crate.
- `rpc.dfy` — `Rpc`: `u64`, the oracle's `TimestampResponse`, and `labrpc::Error`.
- `timeout.dfy` — `TimeoutFuture`: the `Timeout` state machine, `wait`, and a
  positional reference semantics of the race (`Race`) proved equal to `wait`.
- `client.dfy` — `Client`: the backoff constants and `get_timestamp`.

## Model

| member | source | states |
|---|---|---|
| TimeoutFuture.NewTimeout | dss/percolator/src/client.rs:38-42 | A fresh timeout races the RPC future (`waiting_on_future` is true), and its timer has the requested deadline. |
| TimeoutFuture.PollTimeout | dss/percolator/src/client.rs:49-66 | While racing, an RPC success is returned at once and leaves the state unchanged, whatever the timer says. The flag goes from true to false exactly on an RPC error and never back. A value is returned only when the raced RPC produced it. Every error comes from the timer: `Timeout` if it fired, `Other("timeout error: error ")` if it failed. The result is `NotReady` exactly when the timer has not settled and no RPC success arrived. |
| TimeoutFuture.Wait | dss/percolator/src/client.rs:31-36 | Repeated polling succeeds only if the RPC was being raced. It fails only with the two timer errors, and only on the poll at which the timer settles. It always returns by the poll at which the timer settles. |
| TimeoutFuture.WaitIsRace | dss/percolator/src/client.rs:50-65 | Repeated polling equals the reference race. Let f be the first settled RPC outcome and d the first settled timer outcome. A success at f wins if f <= d, after f+1 polls. Otherwise the timer's outcome at d decides, after d+1 polls. If the run holds neither, `wait` is still blocked. |
| TimeoutFuture.FailedRpcIsIgnored | dss/percolator/src/client.rs:53-57 | If the RPC's first settled outcome is an error, `wait` behaves exactly as if the RPC had never been raced. |
| TimeoutFuture.RpcErrorIsDiscarded | dss/percolator/src/client.rs:57 | Replacing the RPC's error by any other error does not change what `wait` returns or when. |
| TimeoutFuture.UnracedFutureIsNeverPolled | dss/percolator/src/client.rs:53-59 | Once `waiting_on_future` is false, anything the RPC future would report has no effect on `wait`. |
| TimeoutFuture.SuccessWinsRace | dss/percolator/src/client.rs:53-55 | On a fresh timeout, if the RPC returns v at poll f and neither the RPC nor the timer settled before, `wait` returns v after f+1 polls. This holds even when the timer fires on that same poll. |
| Client.AttemptResult | dss/percolator/src/client.rs:91-93 | An attempt whose timer settles yields a decided `wait` result. Any error it yields is one of the two timer errors, never the "Unknown error" default. |
| Client.AttemptResults | dss/percolator/src/client.rs:89-97 | Attempt i observes `races[i]` with deadline `BACKOFF_TIME_MS * 2^i`. There is one result per attempt, result i being `AttemptResult(races[i], Backoff(i))`. Every error among them is a timer error, never the "Unknown error" default. |
| Client.GetTimestamp | dss/percolator/src/client.rs:87-101 | Given what `wait` returns for each attempt, the method makes between 1 and `RETRY_TIMES` attempts. Their deadlines are 100, 200, 400 ms (`BACKOFF_TIME_MS * 2^i`). Every attempt before the last one made failed. It succeeds exactly when some attempt succeeds, and then it returns the first successful attempt's timestamp with no attempt after it. On failure, all three attempts were made and the last attempt's error is returned, not the loop's starting default. The deadlines of a failed fetch add up to 700 ms. |
| Client.FetchTimestamp | dss/percolator/src/client.rs:87-101 | The whole fetch: attempt i waits on a fresh timeout with deadline `BACKOFF_TIME_MS * 2^i` over its observed run, and the retry loop runs over those results. It makes 1 to `RETRY_TIMES` attempts on the doubling schedule, and every attempt before the last one made failed. It succeeds exactly when some attempt's `wait` succeeds, and then the last attempt made is that first success and its timestamp is returned. A failed fetch makes all `RETRY_TIMES` attempts and returns the last attempt's error, which is `Timeout` or `Other("timeout error: error ")`, never the "Unknown error" default. |
| Client.BackoffTotal | dss/percolator/src/client.rs:11-18 | The deadlines of n consecutive attempts add up to `BACKOFF_TIME_MS * (2^n - 1)` ms. |

## Left out

- Real futures, the executor, `futures_timer::Delay` and wall-clock time. Their behaviour is supplied as observation runs, and deadlines are recorded but do not drive the timer.
- A `wait` that blocks forever: `Wait` is `Blocked` when a finite run ends undecided. `Client.AttemptResults` requires every attempt's timer to settle within its run, as the timer guarantees.
- Client.GetTimestamp: requires exactly one `wait` result per possible attempt; results for attempts after the first success are never consulted. Its contract speaks of those results; that each is a timer error or a value is stated by `Client.AttemptResults`, and `Client.FetchTimestamp` composes the two.
- The `labrpc` transport and the `TSOClient`/`TransactionClient` services (client.rs:1-9, 73-77). The RPC's outcomes are inputs. `labrpc::Error` variants other than `Timeout` and `Other` are folded into `Rpc.Transport`, because the client never builds or inspects them.
- `Client::new` (client.rs:81-84): a constructor that only stores the two service handles.
- `begin`, `get`, `set` and `commit` (client.rs:103-125): the source leaves them `unimplemented!()`, so there is no behaviour to model.
- Monotonicity of timestamps: a property of the oracle service, not of this code.

## Notes

- The comment at client.rs:11 calls `BACKOFF_TIME_MS` the wait before retrying. The code uses it as each attempt's deadline, and the next attempt starts right after the previous one fails (client.rs:92-97). The model follows the code.
- The code swallows every RPC error (client.rs:57), so `get_timestamp` fails only with `Timeout` or `Other("timeout error: error ")`. `Client.FetchTimestamp` states this.
