/** Optional values: `undefined`/`null` in the source become `None`. */
module Wrappers {

  datatype Option<+T> = None | Some(value: T)
}
