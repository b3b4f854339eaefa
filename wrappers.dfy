/** Option and Result, failure-compatible so that `:-` can be used with them. */
module Wrappers {

  datatype Option<+T> = None | Some(value: T) {
    predicate IsFailure() { None? }

    function PropagateFailure<U>(): Option<U>
      requires None?
    {
      None
    }

    function Extract(): T
      requires Some?
    {
      value
    }
  }

  /** A value or the error that replaced it (Go's `(value, err)` pair with a non-nil err). */
  datatype Result<+T, +E> = Ok(value: T) | Err(error: E)
}
