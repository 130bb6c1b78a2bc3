/** The optional values that every model here shares. */
module Wrappers {

  datatype Option<+T> = None | Some(value: T)
}
