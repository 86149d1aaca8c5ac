/** Optional values, standing for the nullable pointers of the source. */
module Wrappers {

  datatype Option<+T> = None | Some(value: T)
}
