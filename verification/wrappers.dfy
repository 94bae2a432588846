/** Optional values: the model's rendering of `null` / `undefined` results. */
module Wrappers {
  datatype Option<T> = None | Some(value: T)
}
