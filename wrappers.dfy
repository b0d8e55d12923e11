/** The optional value used wherever the front end reads a property that may be `undefined`. */
module Wrappers {

  datatype Option<+T> = None | Some(value: T)
}
