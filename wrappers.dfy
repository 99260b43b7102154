/** Optional values: Go's nil-able fields and "value or nothing" results. */
module Wrappers {

  datatype Option<+T> = None | Some(value: T)
}
