/** Optional values, used for the prefetch handle and for the ratio-constrained spin-box values. */
module Wrappers {
  datatype Option<+T> = None | Some(value: T)
}
