/** Wrappers shared by the model: a value that may be absent (Java's null)
    and a result that may carry an exception. */
module Wrappers {

  datatype Option<+T> = None | Some(value: T)

  datatype Result<+R, +E> = Success(value: R) | Failure(error: E)
}
