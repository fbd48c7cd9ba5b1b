/** Optional values, used for results that may be absent (a failed read, a failed parse). */
module Wrappers {

  datatype Option<+T> = None | Some(value: T)

}
