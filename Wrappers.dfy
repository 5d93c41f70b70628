/** Optional values, for the fields and state cells that the source leaves `null` or `undefined`. */
module Wrappers {

  datatype Option<+T> = None | Some(value: T)
}
