/** Option, Result and Outcome: the source's `Option`, `Result<_, String>` and the
    distinction between a recoverable error and a process abort (`panic!`, `unwrap`). */
module Wrappers {

  datatype Option<+T> = None | Some(value: T)

  /** A recoverable error returned to the caller, as Rust's `Result<T, String>`. */
  datatype Result<+T, +E> = Ok(value: T) | Err(error: E)

  /** A computation that either finishes or aborts the process (`panic!`, `unimplemented!`,
      a failing `unwrap` or an out-of-bounds index). */
  datatype Outcome<+T> = Done(value: T) | Panic(reason: string)
}
