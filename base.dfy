/** Failure-carrying result types shared by the whole model. */
module Base {

  /** A value that may be absent; `None` also stands for Python's `None` where a
      source function returns "value or None". */
  datatype Option<+T> = None | Some(value: T)

  /** The outcome of an operation that the source lets raise an exception. */
  datatype Result<+T, +E> = Success(value: T) | Failure(error: E)
}
