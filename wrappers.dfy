/** Optional values and results with an error, as the route handlers use them:
    a JavaScript `null`/`undefined` field is `None`, an early error return is `Failure`. */
module Wrappers {

  datatype Option<+T> = None | Some(value: T) {
    function GetOr(default: T): T {
      match this
      case Some(v) => v
      case None => default
    }
  }

  /** An HTTP error response: status code and the `error` message of its JSON body. */
  datatype HttpError = HttpError(status: int, message: string)

  datatype Result<+R> = Success(value: R) | Failure(error: HttpError)
}
