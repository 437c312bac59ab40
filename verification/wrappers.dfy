/** Option, Result and Outcome: how the model writes JavaScript's `undefined`
    and a thrown exception. */
module Wrappers {

  /** `None` stands for JavaScript's `undefined` (a missing property). */
  datatype Option<+T> = None | Some(value: T)

  /** The value an operation computes, or the error it throws. */
  datatype Result<+T> = Ok(value: T) | Err(error: string) {
    predicate IsFailure() { Err? }

    function PropagateFailure<U>(): Result<U>
      requires Err?
    {
      Err(error)
    }

    function Extract(): T
      requires Ok?
    {
      value
    }

    function ToOption(): Option<T>
    {
      if Ok? then Some(value) else None
    }
  }

  /** The outcome of a method that only changes state: it either completes
      or throws. */
  datatype Outcome = Pass | Fail(error: string)
}
