/** Failure-carrying wrappers shared by the other modules. */
module Common {

  /** A value that may be absent: the JavaScript `NaN` of a failed `parseInt`,
      an exception thrown by a built-in, a key that is missing. */
  datatype Option<T> = None | Some(value: T)

  /** The outcome of an operation that reports an error to the user instead of producing a value. */
  datatype Result<T, E> = Success(value: T) | Failure(error: E)
}
