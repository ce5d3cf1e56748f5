/** Optional values: a Python `None` or an absent field. */
module Wrappers {

  datatype Option<+T> = None | Some(value: T)
}
