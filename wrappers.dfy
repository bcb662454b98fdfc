/** Optional values: the result of a query's `.first()`, which is a row or None. */
module Wrappers {

  datatype Option<+T> = None | Some(value: T)

}
