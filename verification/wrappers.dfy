/** The optional value used wherever the service returns "a row or nothing". */
module Wrappers {

  datatype Option<+T> = None | Some(value: T)
}
