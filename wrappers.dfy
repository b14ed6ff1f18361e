/** Optional values: PHP's `null` (or an absent array key) versus a present value. */
module Wrappers {

  datatype Option<+T> = None | Some(value: T)
}
