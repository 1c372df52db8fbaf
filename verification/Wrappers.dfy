// Shared result types.
module Wrappers {
  datatype Option<+T> = None | Some(value: T)

  // The error itself is not modelled.
  datatype Result<+T> = Ok(value: T) | Err {
    predicate IsFailure() {
      Err?
    }

    function PropagateFailure<U>(): Result<U>
      requires Err?
    {
      Err
    }

    function Extract(): T
      requires Ok?
    {
      value
    }
  }
}
