/** Failure-carrying return values used in place of Python's `None` and exceptions. */
module Results {

  /** A value that may be absent. */
  datatype Option<+T> = None | Some(value: T)

  /** Either a value or the reason an operation failed. */
  datatype Result<+T, +E> = Success(value: T) | Failure(error: E)
}
