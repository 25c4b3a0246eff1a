/** Optional values: JavaScript's `null` / `undefined` for an object or a number that is not there. */
module Wrappers {

  datatype Option<+T> = None | Some(value: T)

}
