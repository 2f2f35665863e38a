/** The outcome of an operation that can fail: either a value or an error. */
module Results {

  datatype Result<+T, +E> = Success(value: T) | Failure(error: E)
}
