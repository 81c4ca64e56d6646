/** The optional value used for JavaScript's `undefined` in optional record fields. */
module Wrappers {

  datatype Option<+T> = None | Some(value: T)
}
