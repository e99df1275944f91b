/** Failure-compatible wrappers used throughout the model, named after Rust's
    `Option` and `Result` so that the handlers read like the service's code. */
module Results {

  datatype Option<+T> = None | Some(value: T)

  datatype Result<+T, +E> = Ok(value: T) | Err(error: E)
}
