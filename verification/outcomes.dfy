/** Failure-carrying wrappers: the Python code signals failure by raising, the model by returning. */
module Outcomes {

  datatype Option<+T> = None | Some(value: T)

  datatype Result<+T, +E> = Ok(value: T) | Err(error: E) {
    predicate IsFailure() { Err? }

    function PropagateFailure<U>(): Result<U, E>
      requires Err?
    {
      Err(error)
    }

    function Extract(): T
      requires Ok?
    {
      value
    }
  }

  /** The result of a step that either passes or raises. */
  datatype Outcome<+E> = Pass | Fail(error: E)
}
