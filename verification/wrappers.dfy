/** Optional values, standing in for the nullable pointers of the
    modelled program. */
module Wrappers {

  /** `None` models a null pointer, `Some(v)` a valid one. */
  datatype Option<+T> = None | Some(value: T)
}
