/** Optional results: PHP's `false` / `null` "not found" returns. */
module Wrappers {

  datatype Option<+T> = None | Some(value: T)
}
