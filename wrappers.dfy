/** The optional value used wherever the analysed code returns None. */
module Wrappers {
  datatype Option<+T> = None | Some(value: T)
}
