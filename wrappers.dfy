/** Optional values, used for JavaScript's `undefined` and for absent table items. */
module Wrappers {

  datatype Option<+T> = None | Some(value: T)

}
