/** Optional values, and results that carry the exception the modelled code raises. */
module Wrappers {

  datatype Option<+T> = None | Some(value: T)

  /** Either a value or the exception that stopped the computation. */
  datatype Result<+T, +E> = Success(value: T) | Failure(error: E)
}
