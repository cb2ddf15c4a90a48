/** Optional values, used where the source may produce nothing
    (an early return, an argument that does not parse). */
module Wrappers {
  datatype Option<+T> = None | Some(value: T)
}
