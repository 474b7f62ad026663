/** Optional values, used where the source has `undefined` or "no result". */
module Wrappers {

  datatype Option<+T> = None | Some(value: T)
}
