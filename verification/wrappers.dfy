/** Failure-carrying datatypes used to model Go's `(value, error)` returns and nil references. */
module Wrappers {

  /** A possibly absent value; `None` plays the role of a Go nil interface or pointer. */
  datatype Option<+T> = None | Some(value: T)

  /** A value or the error that prevented computing it, as in Go's `(v, err)` pair. */
  datatype Result<+R, +E> = Success(value: R) | Failure(error: E)

  /** The outcome of an operation that returns only a Go `error`: `Pass` is a nil error. */
  datatype Outcome<+E> = Pass | Fail(error: E)
}
