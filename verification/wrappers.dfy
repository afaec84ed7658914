/** Optional values, used where the Go code has a value that may be nil or
    missing. */
module Wrappers {

  datatype Option<+T> = None | Some(value: T)
}
