/** Option and Result values shared by the other modules. */
module Common {

  /** A value that may be missing (`null` or `undefined` in the source). */
  datatype Option<+T> = None | Some(value: T)

  /** The outcome of an operation that may throw: a value or an error. */
  datatype Result<+R, +E> = Success(value: R) | Failure(error: E)
}
