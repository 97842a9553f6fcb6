/** Reply shapes shared by every handler: an optional value, the HTTP error a
    handler raises, and the value-or-error every handler returns. */
module Http {

  datatype Option<+T> = None | Some(value: T) {
    function GetOr(default: T): T {
      match this
      case Some(v) => v
      case None => default
    }
  }

  /** The statuses the handlers raise: 400, 401, 403, 404 and 422.
      `Unprocessable` (422) is the request-body validation failure that the
      web framework reports before a handler body runs. */
  datatype Status =
    | BadRequest     // 400
    | Unauthorized   // 401
    | Forbidden      // 403
    | NotFound       // 404
    | Unprocessable  // 422

  datatype HttpError = HttpError(status: Status, detail: string)

  /** What a handler answers: a response body or an error status. */
  datatype Result<+T> = Ok(value: T) | Err(error: HttpError)
}
