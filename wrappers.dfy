/** Option and Result, used for the library calls that can fail and for the
    answers of the remote services. */
module Wrappers {

  datatype Option<+T> = None | Some(value: T)

  datatype Result<+R, +E> = Success(value: R) | Failure(error: E)
}
