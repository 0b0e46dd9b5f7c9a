/** A value that may be absent, as `Map.prototype.get` returns `undefined`
    for a key it does not hold. */
module Wrappers {
  datatype Option<+T> = None | Some(value: T)
}
