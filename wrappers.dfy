/** Rust's `Option`, used for `GameOpt`, for `Iterator::position` and for the selection iterator. */
module Wrappers {
  datatype Option<+T> = None | Some(value: T)
}
