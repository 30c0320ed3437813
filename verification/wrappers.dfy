/** Failure-compatible datatypes used for the panics of `decision-tree`:
    every `expect`, `unwrap` or out-of-range index that would abort the run
    becomes an `Err` carrying what went wrong. */
module Wrappers {

  datatype Option<+T> = None | Some(value: T)

  datatype Result<+T, +E> = Ok(value: T) | Err(error: E) {

    predicate IsFailure() {
      Err?
    }

    function PropagateFailure<U>(): Result<U, E>
      requires Err?
    {
      Err(error)
    }

    function Extract(): T
      requires Ok?
    {
      value
    }
  }
}
