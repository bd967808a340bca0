/** An optional value: a JavaScript `undefined` or an absent key. */
module Wrappers {
  datatype Option<+T> = None | Some(value: T)
}
