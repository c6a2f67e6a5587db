/** Optional values: a ray that may or may not hit something. */
module Wrappers {
  datatype Option<+T> = None | Some(value: T)
}
