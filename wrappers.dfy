/** Option, the stand-in for Go's nil pointers and optional protobuf fields,
    and Result, for Go's (value, error) pairs. */
module Wrappers {

  datatype Option<+T> = None | Some(value: T)

  datatype Result<+T> = Success(value: T) | Failure(error: string)
}
