/** Option and Result, used for the values the source expresses as `null`
    and for the HTTP errors its handlers raise. */
module Wrappers {

  datatype Option<+T> = None | Some(value: T)

  datatype Result<+R, +E> = Success(value: R) | Failure(error: E) {
    predicate IsFailure() { Failure? }
  }
}
