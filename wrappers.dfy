/** The optional value used for JavaScript's `undefined` and for a failed decode. */
module Wrappers {

  datatype Option<+T> = None | Some(value: T)
}
