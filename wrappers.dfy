/** Optional values, used wherever the source has `null`, `undefined` or "not found". */
module Wrappers {
  datatype Option<+T> = None | Some(value: T)
}
