/** Failure-carrying values shared by every module of the model. */
module Wrappers {

  /** A value that may be absent (the source's `Option` / Java `null`). */
  datatype Option<+T> = None | Some(value: T)

  /** The one error the modelled code raises. */
  datatype Error = NotFound

  /** The outcome of an operation that may fail with `NotFound`; usable with `:-` like Rust's `?`. */
  datatype Result<+T> = Ok(value: T) | Err(error: Error) {

    predicate IsFailure() {
      Err?
    }

    function PropagateFailure<U>(): Result<U>
      requires Err?
    {
      Err(error)
    }

    function Extract(): T
      requires Ok?
    {
      value
    }
  }

  function Max(a: int, b: int): int {
    if a < b then b else a
  }
}
