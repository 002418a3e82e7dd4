/** Optional values, used where the source returns null or None. */
module Wrappers {
  datatype Option<T> = None | Some(value: T)
}
