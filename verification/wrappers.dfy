/** Optional values, standing for the JavaScript `undefined`/`null` and SQL `NULL`. */
module Wrappers {
  datatype Option<+T> = None | Some(value: T)
}
