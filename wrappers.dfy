/** Optional values: Go's nil pointers and missing map entries, TypeScript's
    `null` and `undefined`. */
module Wrappers {

  datatype Option<+T> = None | Some(value: T)
}
