/** Optional values, used wherever the source returns `None`, omits a key
    or signals a failure by raising an exception that its caller catches. */
module Wrappers {

  datatype Option<+T> = None | Some(value: T)
}
