/** Optional values: JavaScript's `T | undefined`. */
module Wrappers {

  datatype Option<+T> = None | Some(value: T)
}
