// Result shapes shared by every module: Go's `(value, error)` pairs and bare `error` returns.
module Wrappers {
  datatype Option<T> = None | Some(value: T)

  /** A Go `(T, error)` pair where exactly one side is meaningful. */
  datatype Result<T, E> = Success(value: T) | Failure(error: E)
  {
    /** The value, dropping the error: what a caller keeps after `if err != nil`. */
    function ToOption(): Option<T>
    {
      if Success? then Some(value) else None
    }
  }

  /** A Go `error` return: nil (`Pass`) or a specific error. */
  datatype Outcome<E> = Pass | Fail(error: E)
}
