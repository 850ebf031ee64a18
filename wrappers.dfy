/** Optional values, used for absent schema entries and for the handler's failure paths. */
module Wrappers {
  datatype Option<+T> = None | Some(value: T)
}
