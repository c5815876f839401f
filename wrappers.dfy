/** Option and Result: the model's stand-ins for `undefined` and for thrown errors. */
module Wrappers {

  /** A value that may be missing; `None` plays the part of `undefined`. */
  datatype Option<+T> = None | Some(value: T)

  /** The outcome of an operation that may throw: `Failure` carries what was thrown. */
  datatype Result<+R, +E> = Success(value: R) | Failure(error: E)
}
