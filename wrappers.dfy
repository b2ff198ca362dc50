/** The optional value used for "no callback made" and for decoders that may fail. */
module Wrappers {

  datatype Option<+T> = None | Some(value: T)
}
