/** Wrappers used throughout the model: an optional value (Python's
    `Optional[...]`/`None`) and a success-or-error result (a raised exception
    becomes a `Failure`). */
module Wrappers {

  datatype Option<+T> = None | Some(value: T)

  datatype Result<+T, +E> = Success(value: T) | Failure(error: E)
}
