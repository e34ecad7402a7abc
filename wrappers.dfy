/** Optional values: a Go `(value, error)` pair whose error is not inspected,
    or an input that may be absent. */
module Wrappers {

  datatype Option<+T> = None | Some(value: T)
}
