/** Optional values, used for lookups that may miss and for parse or encode steps that may fail. */
module Wrappers {
  datatype Option<+T> = None | Some(value: T)
}
