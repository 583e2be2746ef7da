/** The optional value used wherever the front end has `undefined` or `null`. */
module Wrappers {

  datatype Option<+T> = None | Some(value: T)
}
