/** Option and Result values used wherever the source returns a nil pointer or an error. */
module Wrappers {
  datatype Option<+T> = None | Some(value: T) {
    predicate IsFailure() {
      None?
    }

    function PropagateFailure<U>(): Option<U>
      requires None?
    {
      None
    }

    function Extract(): T
      requires Some?
    {
      value
    }
  }

  /** A value or an error, as Go's `(T, error)` pairs and C++ null returns are used here. */
  datatype Result<+T, +E> = Ok(value: T) | Err(error: E)

  /** A Go function that returns only an `error`. */
  datatype Outcome<+E> = Pass | Fail(error: E)
}
