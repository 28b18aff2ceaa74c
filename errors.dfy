/** Python exceptions that the modelled code raises, and a result type for
    operations that either return a value or raise one of them. */
module Errors {

  datatype Option<+T> = None | Some(value: T)

  /** Why a ValueError was raised by the configuration parser. */
  datatype ValueErrorReason =
    | UnexpectedOperationObject          // an operation entry that is not a JSON object
    | UnexpectedOperationType(stage: string)  // a "type" that is not an operation name

  datatype Exception =
    | KeyError(key: string)
    | TypeError
    | IndexError
    | AttributeError
    | ValueError(reason: ValueErrorReason)
      /** A JSON object that the operation data model cannot be built from
          (a missing or ill-typed field). */
    | DeserializationError

  datatype Result<+T> = Ok(value: T) | Err(error: Exception) {
    predicate IsFailure() {
      Err?
    }

    function PropagateFailure<U>(): Result<U>
      requires Err?
    {
      Err(error)
    }

    function Extract(): T
      requires Ok?
    {
      value
    }
  }
}
