/** Failure-compatible results used by every component of the model. */
module Wrappers {

  datatype Option<+T> = None | Some(value: T)

  /** A normal return, or the error the source raises. */
  datatype Result<+T, +E> = Ok(value: T) | Err(error: E) {
    predicate IsFailure() {
      Err?
    }

    function PropagateFailure<U>(): Result<U, E>
      requires Err?
    {
      Err(error)
    }

    function Extract(): T
      requires Ok?
    {
      value
    }
  }

  /** A command to a server that works, or fails before or after it has taken effect. */
  datatype Reply = Works | FailsBefore | FailsAfter
}
