/** Optional values and error results shared by every module of the model. */
module Wrappers {

  /** A value that may be absent; `None` stands for TypeScript's `undefined`. */
  datatype Option<+T> = None | Some(value: T)

  /** The outcome of an operation that may throw: `Failure` carries what was thrown. */
  datatype Result<+T, +E> = Success(value: T) | Failure(error: E)
}
