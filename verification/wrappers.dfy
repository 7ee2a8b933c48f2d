/** Optional values and results with an error, used wherever the source may
    hand back Python's `None` or raise. */
module Wrappers {

  /** A value that may be absent (Python `None`). */
  datatype Option<+T> = None | Some(value: T)

  /** Either a computed value or the error the computation raised. */
  datatype Result<+R, +E> = Success(value: R) | Failure(error: E)
}
