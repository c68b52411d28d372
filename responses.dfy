/** The results an action returns: one labelled outcome per guard. */
module Responses {
  /**
   * `Ok(value)`, `CreatedAtAction(..., value)`, `NoContent()`, `NotFound(message)`,
   * `Unauthorized(message)` and `BadRequest(message)`; a bare `NotFound()` carries "".
   * `Thrown` is an exception the action does not catch, which the framework
   * turns into a 500 response.
   */
  datatype Response<+T> =
    | Ok(value: T)
    | Created(value: T)
    | NoContent
    | NotFound(message: string)
    | Unauthorized(message: string)
    | BadRequest(message: string)
    | Thrown
}
