/** Optional values, used wherever the source tests a key for presence
    or a prompt may get no answer. */
module Wrappers {

  datatype Option<+T> = None | Some(value: T)
}
