/** Outcome of an operation that can fail with a typed error instead of an exception. */
module Results {

  datatype Result<+T, +E> = Ok(value: T) | Err(error: E)

}
