/** Optional values: the model's stand-in for JavaScript's `undefined` and for
    an argument the caller leaves out. */
module Wrappers {

  datatype Option<T> = None | Some(value: T)
}
