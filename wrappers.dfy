/** Optional values and success/failure results, standing in for Python's
    `None` and for exceptions raised across a call. */
module Wrappers {

  datatype Option<+T> = None | Some(value: T)

  datatype Result<+T, +E> = Ok(value: T) | Err(error: E)

  /** A step that either completes or fails with an error and yields no value. */
  datatype Outcome<+E> = Pass | Fail(error: E)
}
