/** An optional value: JavaScript's `undefined` / `null` for a missing field or result. */
module Wrappers {

  datatype Option<T> = None | Some(value: T)
}
