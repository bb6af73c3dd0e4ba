/** Optional values and the error outcomes the backend reports. */
module Wrappers {

  /** A value that may be absent: Java's null, JavaScript's undefined/null. */
  datatype Option<T> = None | Some(value: T)
  {
    function GetOr(default: T): T
    {
      match this
      case Some(v) => v
      case None => default
    }
  }

  /** The failures the services signal, by kind. Messages are kept where the
      source gives a fixed text; formatted amounts are kept as numbers. */
  datatype Error =
    | NotFound(message: string)
    | BadRequest(message: string)
    | IllegalArgument(message: string)
    | RuntimeFailure(message: string)
    | NullReference
    | AuthenticationFailed
    | InvalidAmountFormat
    | InsufficientBalance(available: int, requested: int)
    | InsufficientRevenue(revenue: int, required: int, shortfall: int)

  /** The value of a call that either returns or throws. */
  datatype Result<T> = Ok(value: T) | Err(error: Error)

  /** The outcome of a call that returns nothing or throws. */
  datatype Outcome = Pass | Fail(error: Error)
}
