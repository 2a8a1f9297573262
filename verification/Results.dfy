/** The outcome of an operation of the source that can fail. */
module Results {

  datatype Result<T> = Ok(value: T) | Err
}
