/** Option and Result values, and the HTTP statuses the views answer with. */
module Wrappers {

  datatype Option<+T> = None | Some(value: T)

  datatype Result<+T, +E> = Success(value: T) | Failure(error: E)

  /** The response statuses the views of the backend produce. */
  datatype Status =
    | Ok            // 200
    | Created       // 201
    | NoContent     // 204
    | BadRequest    // 400
    | Unauthorized  // 401
    | Forbidden     // 403
    | NotFound      // 404
    | Conflict      // 409
    | ServerError   // 500
  {
    function HttpCode(): (code: nat)
      ensures 200 <= code < 600
      ensures code < 300 <==> this in {Ok, Created, NoContent}
    {
      match this
      case Ok => 200
      case Created => 201
      case NoContent => 204
      case BadRequest => 400
      case Unauthorized => 401
      case Forbidden => 403
      case NotFound => 404
      case Conflict => 409
      case ServerError => 500
    }
  }
}
