/** Option and Result, used for the script's error paths (a raised exception, a `None` return). */
module Wrappers {

  datatype Option<+T> = None | Some(value: T)

  datatype Result<+T, +E> = Success(value: T) | Failure(error: E)
}
