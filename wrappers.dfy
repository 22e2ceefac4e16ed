/** Optional values, used for the optional row index, match position and last search. */
module Wrappers {

  datatype Option<+T> = None | Some(value: T)
}
