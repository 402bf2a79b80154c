/** Optional values (Go's nil pointers) and the outcome of a compilation that may fail. */
module Wrappers {

  /** A Go pointer field that may be nil. */
  datatype Option<+T> = None | Some(value: T)

  /** The outcome of a visitor: a value, or the failure that aborts the compilation (a Go panic). */
  datatype Result<+T> = Ok(value: T) | Failure(message: string) {

    predicate IsFailure() {
      Failure?
    }

    function PropagateFailure<U>(): Result<U>
      requires Failure?
    {
      Failure(message)
    }

    function Extract(): T
      requires Ok?
    {
      value
    }
  }
}
