/** Optional values, used for the error results of parsing. */
module Wrappers {

  datatype Option<+T> = None | Some(value: T)
}
