/** Failure-carrying result type used where the report code raises. */
module Wrappers {
  datatype Result<+T, +E> = Success(value: T) | Failure(error: E)
}
