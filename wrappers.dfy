/** Option and Result, the two failure shapes the repository uses
    (Rust's `Option<T>` and `Result<T, &'static str>`). */
module Wrappers {

  datatype Option<+T> = None | Some(value: T)

  datatype Result<+T, +E> = Ok(value: T) | Err(error: E)
}
