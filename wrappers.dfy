/** Optional values: the model of Rust's `Option`, used for every clause a statement may lack. */
module Wrappers {
  datatype Option<+T> = None | Some(value: T)
}
