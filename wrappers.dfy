/** Small value wrappers shared by every module of the model. */
module Wrappers {

  /** A value that may be absent: an optional request field, a lookup that found nothing. */
  datatype Option<+T> = None | Some(value: T)

  /** What a route handler answers: the JSON body on success, or an HTTP status with the
      handler's error message. */
  datatype Response<+T> = Ok(body: T) | Err(status: nat, message: string)
}
