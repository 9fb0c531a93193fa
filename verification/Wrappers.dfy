/** Optional values, used for nullable columns, absent keys and calls that may raise. */
module Wrappers {

  datatype Option<+T> = None | Some(value: T)
}
