/** The optional value used wherever the scanner's source returns an `Option`. */
module Wrappers {

  datatype Option<+T> = None | Some(value: T)
}
