/** Failure-compatible value types shared by every module of the gateway model:
    Python's `Optional[...]`, a value-or-exception result, and a pass-or-raise outcome. */
module Wrappers {

  /** `Optional[T]`: `None` or a value. */
  datatype Option<+T> = None | Some(value: T)

  /** The value returned by a call, or the exception it raised. */
  datatype Result<+T, +E> = Success(value: T) | Failure(error: E)

  /** A call that returns nothing useful: it either passes or raises. */
  datatype Outcome<+E> = Pass | Fail(error: E)
}
