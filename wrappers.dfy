/** Optional values, for the `Option` results of the Rust code. */
module Wrappers {
  datatype Option<+T> = None | Some(value: T)
}
