/** Option and Result, the two shapes the export pipeline uses for "maybe absent"
    and "value or error message". */
module Wrappers {

  datatype Option<+T> = None | Some(value: T)

  datatype Result<+T, +E> = Success(value: T) | Failure(error: E)
}
