/** Failure-compatible wrappers shared by the other modules. */
module Wrappers {

  /** A value that may be absent; used for JSON object keys that may be missing. */
  datatype Option<+T> = None | Some(value: T)

  /** The outcome of a computation that can raise; `Err` carries the raised failure. */
  datatype Result<+T, +E> = Ok(value: T) | Err(error: E) {
    predicate IsFailure() {
      Err?
    }

    function PropagateFailure<U>(): Result<U, E>
      requires Err?
    {
      Err(error)
    }

    function Extract(): T
      requires Ok?
    {
      value
    }
  }
}
