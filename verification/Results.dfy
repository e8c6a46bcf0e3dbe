/** Results of operations that raise in the original. */
module Results {
  datatype Option<T> = None | Some(value: T)

  datatype Result<T> = Ok(value: T) | MemoryError | ValueError
}
