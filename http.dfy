/** The HTTP errors the handlers raise, and the outcome of a check that may raise one. */
module Http {

  /** An `HTTPException` (or an unhandled exception) by the status it produces. */
  datatype Failure =
    | PreconditionFailed  // 412: the admin token is still the placeholder
    | Unauthorized        // 401: missing or wrong admin token
    | NotFound            // 404: no row with that id
    | Conflict            // 409: the wish is already reserved
    | Unprocessable       // 422: a wish without a title
    | BadRequest          // 400: an upload that is not an image
    | ServerError         // 500: a JSON body that does not validate, raised unhandled
  {
    /** The HTTP status code of the response. */
    function Status(): (code: int)
      ensures 400 <= code < 600
    {
      match this
      case PreconditionFailed => 412
      case Unauthorized => 401
      case NotFound => 404
      case Conflict => 409
      case Unprocessable => 422
      case BadRequest => 400
      case ServerError => 500
    }
  }

  /** A check that either lets the request through or raises. */
  datatype Outcome = Pass | Fail(failure: Failure)
}
