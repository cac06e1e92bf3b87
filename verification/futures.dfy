/**
 The slice of the `futures` 0.1 crate that the timestamp path relies on: the
 result of polling a future once. A poll either yields a value (`Ready`),
 says the future cannot make progress yet (`NotReady`), or fails.
 */
module Futures {

  /** `futures::Async`: whether a polled future has produced its value. */
  datatype Async<+T> = Ready(value: T) | NotReady

  /** Rust's `Result`, used both for poll outcomes and for `labrpc::Result`. */
  datatype Result<+T, +E> = Ok(value: T) | Err(error: E)

  /** `futures::Poll<T, E>`, which is `Result<Async<T>, E>`. */
  type Poll<+T, +E> = Result<Async<T>, E>

  /** A poll outcome that is final: a value or an error, not `NotReady`. */
  predicate Settled<T, E>(p: Poll<T, E>) {
    !(p.Ok? && p.value.NotReady?)
  }
}
