/** Go's ways of ending a call, as values: a nil pointer or interface, an
    (value, error) pair, and a panic. */
module Outcomes {

  /** A Go pointer, slice or interface that may be nil. */
  datatype Option<+T> = None | Some(value: T)

  /** What a library call returns as (value, error); such calls do not panic. */
  datatype Result<+T> = Ok(value: T) | Err(message: string)

  /** What a function of this repository returns as (value, error), or a panic
      (a failed type assertion, a nil pointer dereference). Error(m) stands for
      the pair (zero value, an error whose Error() is m). */
  datatype Outcome<+T> = Return(value: T) | Error(message: string) | Panic

  /** The end of an HTTP middleware: it calls the next handler, or it answers
      401 Unauthorized with a message and does not call it, or it panics. */
  datatype Decision = Admit | Unauthorized(message: string) | Panicked
}
