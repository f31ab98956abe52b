/** Option (a JavaScript `null` or a value) and Result (a value or a raised error). */
module Wrappers {

  datatype Option<+T> = None | Some(value: T)

  datatype Result<+R, +E> = Success(value: R) | Failure(error: E)
}
