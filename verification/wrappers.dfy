/** Optional values and results with an error, used by every module of the model. */
module Wrappers {

  /** A value that may be absent (JavaScript `undefined`/`null`, SQL NULL). */
  datatype Option<+T> = None | Some(value: T)

  /** The outcome of an operation that can fail with a business error. */
  datatype Result<+T, +E> = Success(value: T) | Failure(error: E)

  function Min(a: real, b: real): real
  {
    if a <= b then a else b
  }
}
