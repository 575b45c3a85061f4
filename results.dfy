/** A value or the reason it could not be produced; stands in for the
    exceptions the engine raises. */
module Results {

  datatype Result<+T, +E> = Ok(value: T) | Err(error: E)
}
