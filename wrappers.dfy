/** Result values used where the source raises. */
module Wrappers {

  datatype Result<+R, +E> = Success(value: R) | Failure(error: E)
}
