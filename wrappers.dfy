/** Optional values, for the JavaScript values of the provider that may be null. */
module Wrappers {
  datatype Option<+T> = None | Some(value: T)
}
