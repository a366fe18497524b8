/** Optional values: a YAML key that may be absent, a lookup that may fail. */
module Wrappers {
  datatype Option<+T> = None | Some(value: T)
}
