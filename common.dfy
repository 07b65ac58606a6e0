/** Identifiers, timestamps and the result kinds every controller answers with. */
module Common {

  /** A document id (MongoDB's ObjectId); ids are handed out in increasing order. */
  type Id = nat

  /** A creation timestamp, supplied by the caller (the clock is outside the model). */
  type Timestamp = int

  datatype Option<+T> = None | Some(value: T)

  /** The HTTP status classes the controllers answer with on failure. */
  datatype Status =
    | BadRequest   // 400
    | NotFound     // 404
    | Internal     // 500, the catch-all around every handler

  /** A controller's answer: the affected entity, or a failure with its message. */
  datatype Response<+T> = Ok(value: T) | Fail(status: Status, message: string)
}
