/** Small shared datatypes: an optional value and the outcome of a stage
    that can raise. */
module Basics {

  /** `None` stands for a missing value (pandas NaN) or an absent statistic. */
  datatype Option<+T> = None | Some(value: T)

  /** A value or the error a stage raised, usable with `:-`. */
  datatype Result<+T, +E> = Ok(value: T) | Err(error: E) {
    predicate IsFailure() { Err? }

    function PropagateFailure<U>(): Result<U, E>
      requires Err?
    {
      Err(error)
    }

    function Extract(): T
      requires Ok?
    {
      value
    }
  }
}
