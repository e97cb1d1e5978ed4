/** The optional value that stands for a JavaScript `null` result. */
module Wrappers {
  datatype Option<+T> = None | Some(value: T)
}
