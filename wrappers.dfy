/** Option and Result types, and the HTTP error every request handler reports. */
module Wrappers {

  datatype Option<+T> = None | Some(value: T) {
    function GetOr(default: T): T {
      match this
      case Some(v) => v
      case None => default
    }
  }

  /** An error as the error-handling middleware sends it: the status code and the message. */
  datatype HttpError = HttpError(status: nat, message: string)

  datatype Result<+T> = Ok(value: T) | Err(error: HttpError) {
    predicate IsFailure() { Err? }
    function PropagateFailure<U>(): Result<U>
      requires Err?
    {
      Err(error)
    }
    function Extract(): T
      requires Ok?
    {
      value
    }
  }

  /** The status codes the handlers set before throwing. */
  const BadRequest: nat := 400
  const Unauthorized: nat := 401
  const Forbidden: nat := 403
  const NotFound: nat := 404
  /** What the error handler reports for an error thrown while the status was still 200. */
  const ServerError: nat := 500

  function Fail<T>(status: nat, message: string): Result<T> {
    Err(HttpError(status, message))
  }
}
