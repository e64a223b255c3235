/** Small shared vocabulary: optional values, error returns and time. */
module Common {

  datatype Option<+T> = None | Some(value: T)

  datatype Result<+T, +E> = Success(value: T) | Failure(error: E)

  /** Milliseconds since the epoch. */
  type Time = int
}
