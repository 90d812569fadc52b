/** The optional value used for JavaScript's `null` / absent properties. */
module Wrappers {
  datatype Option<+T> = None | Some(value: T)
}
