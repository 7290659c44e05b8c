/** Option and Result values, standing for JavaScript's `null` results and
    for the `{ success: false, error }` objects the client returns. */
module Wrappers {

  datatype Option<+T> = None | Some(value: T)

  datatype Result<+R, +E> = Success(value: R) | Failure(error: E)
}
