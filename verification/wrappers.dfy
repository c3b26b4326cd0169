/** Optional values: a register that is not described, a table pointer that is NULL. */
module Wrappers {
  datatype Option<+T> = None | Some(value: T)
}
