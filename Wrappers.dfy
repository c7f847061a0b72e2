/** Option and Result: a missing value (C# null) and the outcome of a
    validating constructor that throws ArgumentException in the source. */
module Wrappers {

  datatype Option<+T> = None | Some(value: T)

  datatype Result<+T, +E> = Success(value: T) | Failure(error: E)
}
