/** Optional values: JavaScript's `undefined` / `null` alongside a present value. */
module Wrappers {
  datatype Option<+T> = None | Some(value: T)
}
