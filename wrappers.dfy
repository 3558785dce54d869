/** Option, standing for the Java references that may be null. */
module Wrappers {

  datatype Option<+T> = None | Some(value: T)
}
