/** Go's nil pointers become Option; (value, error) pairs and panics become
    Result. */
module Wrappers {

  datatype Option<+T> = None | Some(value: T)

  datatype Result<+T, +E> = Success(value: T) | Failure(error: E)
}
