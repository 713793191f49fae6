/** Rust's `Option`, for the results that may be absent. */
module Wrappers {
  datatype Option<+T> = None | Some(value: T)
}
