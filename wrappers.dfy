/** Optional values: an absent parse result, an undefined ratio, an unrecognised name. */
module Wrappers {

  datatype Option<+T> = None | Some(value: T)
}
