/** Optional values and results with an error, as used throughout the model. */
module Wrappers {

  /** A value that may be missing (pandas NaN / a cleared dropdown). */
  datatype Option<+T> = None | Some(value: T)

  /** The outcome of an operation that may raise. */
  datatype Result<+T, +E> = Ok(value: T) | Err(error: E)
}
