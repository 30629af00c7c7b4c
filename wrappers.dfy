/** Optional values, used for JavaScript's `null`/`undefined` and for `NaN`. */
module Wrappers {

  datatype Option<+T> = None | Some(value: T)
}
