/** An optional value and a value-or-error result. */
module Wrappers {

  datatype Option<T> = None | Some(value: T)

  /** What a call returns when it does not raise: `Success`, or the exception it raises as `Failure`. */
  datatype Result<T, E> = Success(value: T) | Failure(error: E)
}
