/** Option and Result, the two shapes the model uses for "may be null" and "returns or throws". */
module Wrappers {

  datatype Option<+T> = None | Some(value: T)

  datatype Result<+R, +E> = Success(value: R) | Failure(error: E)
}
