/** Option and Result: the model's stand-ins for Rust's `Option`, `Result`
    and for the `unwrap`/`expect` calls that panic in the original program. */
module Results {

  datatype Option<+T> = None | Some(value: T)

  datatype Result<+T, +E> = Success(value: T) | Failure(error: E)
}
