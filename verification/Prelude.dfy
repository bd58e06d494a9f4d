/** Shared result types, the service's error kinds, and machine integers. */
module Prelude {

  datatype Option<+T> = None | Some(value: T)

  /** A Go pair (value, error). */
  datatype Result<+T> = Ok(value: T) | Err(error: Error)

  /** The error kinds that callers tell apart; message texts are dropped. */
  datatype Error =
    | InvalidArgument
    | InsufficientStock
    | ReservationAlreadyExists
    | ReservationNotFound
    | ReservationNotActive
    | StockItemNotFound
    | StockInvariantViolation
    | InvalidIdempotencyKey
    | IdempotencyConflict
    | Cancelled
    | InvalidMessage
    | PublishFailed

  /** A clock reading; only its identity matters. */
  type Time = int

  const TWO_32: int := 0x1_0000_0000
  const TWO_64: int := 0x1_0000_0000_0000_0000
  const MAX_INT32: int := 0x7FFF_FFFF
  const MAX_INT64: int := 0x7FFF_FFFF_FFFF_FFFF

  /** Truncation of an integer to 32 bits, two's complement. */
  function Wrap32(x: int): (r: int)
    ensures -MAX_INT32 - 1 <= r <= MAX_INT32
    ensures -MAX_INT32 - 1 <= x <= MAX_INT32 ==> r == x
  {
    (x + MAX_INT32 + 1) % TWO_32 - MAX_INT32 - 1
  }

  /** Wrap-around of 64-bit signed arithmetic. */
  function Wrap64(x: int): (r: int)
    ensures -MAX_INT64 - 1 <= r <= MAX_INT64
    ensures -MAX_INT64 - 1 <= x <= MAX_INT64 ==> r == x
  {
    (x + MAX_INT64 + 1) % TWO_64 - MAX_INT64 - 1
  }

  /** Both keep the number modulo the range of the type. */
  lemma WrapsModulo(x: int)
    ensures (Wrap32(x) - x) % 0x1_0000_0000 == 0
    ensures (Wrap64(x) - x) % 0x1_0000_0000_0000_0000 == 0
  {
  }

  predicate IsInt64(x: int) {
    -MAX_INT64 - 1 <= x <= MAX_INT64
  }
}
