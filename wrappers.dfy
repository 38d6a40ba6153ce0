/** Optional values: a Python `None` default or a value that is present. */
module Wrappers {

  datatype Option<+T> = None | Some(value: T)
}
