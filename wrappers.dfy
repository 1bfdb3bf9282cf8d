/** Optional values, for the loaders' "could not open" and "rejected" outcomes. */
module Wrappers {

  datatype Option<T> = None | Some(value: T)
}
