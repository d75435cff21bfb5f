/** Optional values, for lookups that may find nothing (pandas' empty frame, a
    loader that returns None). */
module Wrappers {
  datatype Option<+T> = None | Some(value: T)
}
