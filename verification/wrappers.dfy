/** Optional values: a missing file slot, an absent keyword argument. */
module Wrappers {

  datatype Option<+T> = None | Some(value: T)
}
