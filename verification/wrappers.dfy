/** Optional values, used wherever the source has `null`/`undefined` or a
    parse that may fail. */
module Wrappers {

  datatype Option<+T> = None | Some(value: T)
}
