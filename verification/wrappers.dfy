/** Failure-carrying datatypes shared by every module of the model. */
module Wrappers {

  /** A value that may be absent. */
  datatype Option<+T> = None | Some(value: T)

  /** Either a successful value or an error; the shape of a Go `(T, error)` return whose
      value is discarded by every caller when the error is set. */
  datatype Result<+T, +E> = Success(value: T) | Failure(error: E)

  /** A Go `(T, error)` return whose value is observable even when the error is set,
      e.g. `("", err)` or `(-1, err)`. */
  datatype WithError<+T> = WithError(value: T, err: Option<string>)

  /** The outcome of one periodic collection: the task state after the call and the
      error the call returned (None for a nil error). */
  datatype Collected<+S> = Collected(state: S, err: Option<string>)
}
