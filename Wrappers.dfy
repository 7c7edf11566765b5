/** The C++ null pointer and "no value" cases, as an ordinary datatype. */
module Wrappers {

  datatype Option<+T> = None | Some(value: T)
}
