/** Option and Result, used for Python's `None` and for exceptions a call raises. */
module Common {

  datatype Option<+T> = None | Some(value: T)

  datatype Result<+T, +E> = Success(value: T) | Failure(error: E)
}
