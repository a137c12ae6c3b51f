/** Failure-compatible wrappers and the error taxonomy of the API.
    Each `ApiError` stands for an exception the services throw (or let
    escape from a framework call); `Result` replaces "return or throw". */
module Errors {

  datatype Option<+T> = None | Some(value: T)

  /** Why the bearer-token validator refused a token. */
  datatype TokenError =
    | InvalidSignature
    | NoExpiration
    | InvalidLifetime
    | NotYetValid
    | Expired
    | InvalidAudience
    | InvalidIssuer

  datatype ApiError =
    | BadRequest(message: string)   // BadRequestException
    | NotFound(message: string)     // NotFoundException
    | Forbid(message: string)       // ForbidException
    | NullReference                 // dereferencing a missing claim, user or navigation
    | FormatError                   // int.Parse on a non-numeric string
    | OverflowError                 // int.Parse on a number outside Int32
    | Unauthorized(reason: TokenError)

  datatype Result<+T> = Ok(value: T) | Err(error: ApiError) {
    predicate IsFailure() {
      Err?
    }

    function PropagateFailure<U>(): Result<U>
      requires Err?
    {
      Err(error)
    }

    function Extract(): T
      requires Ok?
    {
      value
    }
  }
}
