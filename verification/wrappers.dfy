/** Option and Result, shared by the whole model: `Option` stands
    for a JavaScript value that may be `undefined`/`null`, `Result` for a
    computation that may throw. */
module Wrappers {

  datatype Option<+T> = None | Some(value: T)

  datatype Result<+R, +E> = Success(value: R) | Failure(error: E)
}
