/** Failure-carrying return values shared by the other modules. */
module Results {

  /** A value that may be absent. */
  datatype Option<+T> = None | Some(value: T)

  /** The outcome of an operation that can raise: a value, or the error it raised. */
  datatype Result<+T, +E> = Success(value: T) | Failure(error: E)
}
