/** Optional values, used for React state that may be `null` and for
    navigation options that may be `undefined`. */
module Wrappers {

  datatype Option<+T> = None | Some(value: T)
}
