/** Values shared by every module of the model. */
module Base {

  datatype Option<+T> = None | Some(value: T)

  /** A transaction either commits with a value or returns an error and rolls back. */
  datatype Result<+T> = Ok(value: T) | Err(error: Error)

  /** The store's error returns (internal/store). */
  datatype Error = ErrInvalid | ErrNotFound | ErrConflict | ErrFenced | ErrSessionActive | ErrStaleHeartbeat | ErrInternal

  /** Durations and instants are integer nanoseconds, Go's unit. */
  type Time = int
  const MILLISECOND: Time := 1_000_000
  const SECOND: Time := 1_000_000_000

  function Min(a: int, b: int): int { if a <= b then a else b }

  function Max(a: int, b: int): int { if a <= b then b else a }
}
