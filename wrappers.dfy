/** Optional values, used for Python's None, pandas' NaN and failed parses. */
module Wrappers {
  datatype Option<+T> = None | Some(value: T)
}
