/** The results the modelled operations hand back: a value, or the error the
    original raises. */
module Outcomes {
  datatype Option<+T> = None | Some(value: T)

  datatype Error =
    | FlowStyle(key: string)
    | EmptyCmdline
    | ManyCmdlines

  datatype Result<+T> = Ok(value: T) | Err(error: Error) {
    predicate IsFailure() {
      Err?
    }

    function PropagateFailure<U>(): Result<U>
      requires Err?
    {
      Err(error)
    }

    function Extract(): T
      requires Ok?
    {
      value
    }
  }
}
