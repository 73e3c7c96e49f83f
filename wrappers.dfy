/** Rust's `Option`, as used throughout the relay. */
module Wrappers {

  datatype Option<+T> = None | Some(value: T)
}
