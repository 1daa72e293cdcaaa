/** Optional values, for fields the feed may leave out. */
module Wrappers {

  datatype Option<+T> = None | Some(value: T)

}
