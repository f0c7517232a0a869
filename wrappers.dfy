/** Optional values, for results that Python signals by raising. */
module Wrappers {
  datatype Option<T> = None | Some(value: T)
}
