/** Optional values: JavaScript's `undefined` for fields and results that may be absent. */
module Wrappers {
  datatype Option<+T> = None | Some(value: T)
}
