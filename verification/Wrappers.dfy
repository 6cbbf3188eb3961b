/** Optional values: SQL NULL and PHP null are `None`. */
module Wrappers {
  datatype Option<+T> = None | Some(value: T)
}
