/** The optional value used for JavaScript's `null`. */
module Wrappers {

  datatype Option<+T> = None | Some(value: T)
}
