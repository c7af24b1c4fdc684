/** Optional values, used wherever the JavaScript code has `undefined`, a
    caught exception or an early error response. */
module Wrappers {

  datatype Option<+T> = None | Some(value: T)
}
