/** Optional values: a JavaScript value that may be `undefined`, or an awaited
    call that may reject (None) instead of producing a value (Some). */
module Wrappers {

  datatype Option<+T> = None | Some(value: T)
}
