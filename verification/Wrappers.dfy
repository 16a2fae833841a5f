/** Failure-compatible wrappers used throughout the model: `Option` stands for
    a JavaScript value that may be `null` or `undefined`, `Result` for a
    promise that either resolves with a value or rejects with an error. */
module Wrappers {

  datatype Option<+T> = None | Some(value: T) {
    /** The value, or `default` when there is none (JavaScript's `?? default`). */
    function GetOr(default: T): T {
      match this
      case Some(v) => v
      case None => default
    }
  }

  datatype Result<+T, +E> = Ok(value: T) | Err(error: E) {
    predicate IsFailure() {
      Err?
    }
  }
}
