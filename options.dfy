/** Optional values and failure outcomes shared by the other modules. */
module Options {

  /** A value that may be absent: models a C# reference that may be null. */
  datatype Option<+T> = None | Some(value: T)

  /** The outcome of an operation that may throw: a value, or the exception it raised. */
  datatype Result<+T, +E> = Success(value: T) | Failure(error: E)
}
