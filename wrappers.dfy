/** The optional value used wherever the browser answers "a value or nothing". */
module Wrappers {

  datatype Option<+T> = None | Some(value: T)
}
