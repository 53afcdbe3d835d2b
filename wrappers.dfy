/** Failure-carrying result types shared by every module of the model.
    A Python `raise` in the library becomes `Err(message)`. */
module Wrappers {

  datatype Option<T> = None | Some(value: T)

  datatype Result<T> = Ok(value: T) | Err(msg: string) {
    predicate IsFailure() { Err? }

    function PropagateFailure<U>(): Result<U>
      requires Err?
    {
      Err(msg)
    }

    function Extract(): T
      requires Ok?
    {
      value
    }
  }

  /** A state change that either succeeded or raised. */
  datatype Outcome = Pass | Fail(msg: string) {
    predicate IsFailure() { Fail? }

    function PropagateFailure(): Outcome
      requires Fail?
    {
      this
    }
  }
}
