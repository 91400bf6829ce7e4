// Types shared by every module: bytes, the status codes of shared/consts.ts,
// and the value-or-status pair of shared/valstat.ts.

module Basics {
  type byte = b: int | 0 <= b < 256

  datatype Option<+T> = None | Some(value: T)

  datatype Status =
    | Success
    | InvalidSignature
    | MissingBody
    | InvalidParam
    | InternalError
    | NotFound
    | InvalidMessage
    | NoChange
    | StorageError
    | DatabaseError
    | HashMismatch
    | DecryptionError
    | OutOfBounds
    | VarLimitExceeded

  // Every status other than Success.
  type Failure = s: Status | !s.Success? witness InternalError

  // A value, or the status that says why there is none.
  datatype Result<+T> = Ok(value: T) | Err(status: Failure)
  {
    predicate IsFailure() { Err? }

    function PropagateFailure<U>(): Result<U>
      requires Err?
    {
      Err(status)
    }

    function Extract(): T
      requires Ok?
    {
      value
    }
  }
}
