/** Option and Result values used for lookups that may fail and for calls into
    the chat platform that may raise. */
module Wrappers {

  datatype Option<+T> = None | Some(value: T)

  datatype Result<+R, +E> = Success(value: R) | Failure(error: E)
}
