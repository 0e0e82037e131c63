/** Rust's `Result<T, String>`, the return type of the host libraries and of the token parser. */
module Results {
  datatype Result<+T> = Ok(value: T) | Err(message: string)
}
