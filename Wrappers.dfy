/** Optional values and results with an error, as the store's operations return them. */
module Wrappers {

  /** A value that may be absent: the C# `DateTime?` of the store. */
  datatype Option<+T> = None | Some(value: T)

  /** Either a value or the error that an operation reports to its caller. */
  datatype Result<+R, +E> = Success(value: R) | Failure(error: E)
}
