/** Small value types shared by every form and admin page of the model. */
module Outcomes {

  /** A value that may be absent (`null`/`undefined` on the JavaScript side). */
  datatype Option<T> = None | Some(value: T)

  /**
   * What a `fetch`/`axios` request came back with, seen from the handler that issued it:
   * a successful response carrying the `id` of the record the server created, or any
   * failure (network error, non-2xx status) that makes the handler take its error path.
   */
  datatype Response = Ok(id: int) | Failed
}
