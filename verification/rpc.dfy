/**
 The types the client exchanges with the timestamp oracle over `labrpc`:
 the unsigned 64-bit timestamp, the oracle's response message and the
 RPC layer's error type.
 */
module Rpc {

  /** Rust's `u64`. */
  newtype u64 = x: int | 0 <= x < 0x1_0000_0000_0000_0000

  /** The oracle's reply to a timestamp request. */
  datatype TimestampResponse = TimestampResponse(timestamp: u64)

  /**
   `labrpc::Error`. The client itself only ever builds `Timeout` and
   `Other(message)`; every other failure the transport can report is
   represented by `Transport`, whose detail the client never inspects.
   */
  datatype Error = Timeout | Other(message: string) | Transport(detail: string)
}
