/** Optional values, standing for the pointers of the source that may be null. */
module Wrappers {
  datatype Option<+T> = None | Some(value: T)
}
