/** Optional values, used for catalog lookups that can miss. */
module Wrappers {
  datatype Option<+T> = None | Some(value: T)
}
