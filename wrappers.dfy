/** The optional value used where the JavaScript source reads `undefined`. */
module Wrappers {

  datatype Option<+T> = None | Some(value: T)
}
