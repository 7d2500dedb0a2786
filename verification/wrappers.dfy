/** Optional values: a missing object, an unset callback, a call that did not happen. */
module Wrappers {

  datatype Option<+T> = None | Some(value: T)
}
