/** The optional value used for absent constructor arguments and failed parses. */
module Wrappers {
  datatype Option<+T> = None | Some(value: T)
}
