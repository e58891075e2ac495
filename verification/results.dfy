/** The outcome of an operation the source can fail: a value, or the reason
    the source raises, panics or returns an error. */
module Results {
  datatype Result<+T, +E> = Ok(value: T) | Err(error: E)
}
