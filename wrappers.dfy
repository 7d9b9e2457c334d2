/** Option and Result, used for absent values and for the thrown or rejected errors of the API. */
module Wrappers {

  datatype Option<+T> = None | Some(value: T)

  datatype Result<+T, +E> = Success(value: T) | Failure(error: E)
}
