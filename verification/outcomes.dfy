/** Shared result types: optional JavaScript values and the three error
    signals the HTTP boundary distinguishes (400, 404 and 409). */
module Outcomes {

  /** A value that may be absent, standing for an `undefined` key of a
      JavaScript object or a missing query parameter. */
  datatype Option<+T> = None | Some(value: T)

  /** The error signals of the service. The validation pipe answers with one
      constraint message per failed rule; `Invalid` reduces those messages
      to the names of the offending properties, in declaration order. */
  datatype Error =
    | Invalid(fields: seq<string>)
    | NotFound
    | Conflict

  datatype Result<+T> = Ok(value: T) | Err(error: Error) {
    predicate IsFailure() {
      Err?
    }

    function PropagateFailure<U>(): Result<U>
      requires Err?
    {
      Err(error)
    }

    function Extract(): T
      requires Ok?
    {
      value
    }
  }
}
