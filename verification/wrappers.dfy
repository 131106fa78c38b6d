/** An optional value shared by the other modules. */
module Wrappers {

  /** A value that may be absent: used for input that did not parse and for
      an environment variable that is not set. */
  datatype Option<+T> = None | Some(value: T)
}
