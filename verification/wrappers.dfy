/** Optional values and results with an error, used for the missing values and
    the failure paths of the dashboard. */
module Wrappers {

  /** A value that may be absent: a missing cell (NaN / NaT in the data frame). */
  datatype Option<+T> = None | Some(value: T)

  /** The outcome of an operation that can fail. */
  datatype Result<+R, +E> = Success(value: R) | Failure(error: E)
}
