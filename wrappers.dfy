/** Option and Result, the two failure-carrying shapes the model needs:
    Kotlin's nullable values become Option, thrown exceptions become Result. */
module Wrappers {

  datatype Option<+T> = None | Some(value: T)

  datatype Result<+T, +E> = Success(value: T) | Failure(error: E)
}
