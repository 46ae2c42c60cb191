/** Vocabulary shared by the presence registry and the request handlers. */
module Common {

  /** A user's id as the handlers compare it: the string form of a document id. */
  type UserId = string

  datatype Option<+T> = None | Some(value: T)

  /**
   * The HTTP statuses the handlers answer with: 200, 201, 400, 403, 404
   * and 500 (an exception caught by the handler).
   */
  datatype Status = Ok | Created | BadRequest | Forbidden | NotFound | ServerError
}
