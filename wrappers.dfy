/** The optional value returned by the cache lookups (Rust's `Option`). */
module Wrappers {

  datatype Option<+T> = None | Some(value: T)
}
