/** The optional value used for what the browser storage may or may not hold. */
module Wrappers {

  datatype Option<+T> = None | Some(value: T)
}
