/** The optional value used wherever a lookup or a decoder can come back empty. */
module Wrappers {
  datatype Option<+T> = None | Some(value: T)
}
