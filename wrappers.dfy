/** Values shared by every module of the model: optional values, the closed set
    of response statuses used by the controllers and the middleware, and the
    outcome of a controller action. */
module Wrappers {

  datatype Option<+T> = None | Some(value: T)

  /** The statuses the response envelope can carry. */
  datatype Status =
    | SUCCESS
    | VALIDATION_ERROR
    | UNAUTHORIZED
    | NOT_FOUND
    | FORBIDDEN
    | INTERNAL_SERVER_ERROR

  /** What a controller action hands to the response envelope: a result on
      SUCCESS, or a non-success status with its message. */
  datatype Result<+T> = Ok(value: T) | Fail(status: Status, message: string) {
    predicate IsFailure() { Fail? }
  }
}
