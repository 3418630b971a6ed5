/** `Option`, the model of Rust's `Option` and of a `bool`-plus-out-parameter result. */
module Wrappers {
  datatype Option<T> = None | Some(value: T)
}
