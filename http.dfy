/** What a request handler leaves behind: the HTTP status it sends, or no response at all. */
module Http {

  /**
   * `ServerError` is the 500 a handler's own `catch` sends. `Unhandled` is an exception thrown
   * outside any `try` in an async handler: Express 4 does not catch the rejected promise, so
   * no response is written. The server installs no `unhandledRejection` handler, so on
   * Node 15 and later the rejection terminates the whole process; on earlier versions only
   * this request hangs. The model records the outcome and does not choose between the two.
   */
  datatype Status =
    | Ok            // 200
    | Created       // 201
    | BadRequest    // 400
    | Unauthorized  // 401
    | Forbidden     // 403
    | NotFound      // 404
    | ServerError   // 500
    | Unhandled
  {
    /** The status code sent, or 0 when nothing is sent. */
    function Code(): nat {
      match this
      case Ok => 200
      case Created => 201
      case BadRequest => 400
      case Unauthorized => 401
      case Forbidden => 403
      case NotFound => 404
      case ServerError => 500
      case Unhandled => 0
    }

    predicate Success() {
      this == Ok || this == Created
    }
  }
}
