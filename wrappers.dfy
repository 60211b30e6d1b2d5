/** The optional value used by the scanner and the classifier for "the pattern did not match". */
module Wrappers {

  datatype Option<+T> = None | Some(value: T)
}
