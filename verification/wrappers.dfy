/** The optional value used for results that the source signals with an exception or a
    non-zero exit status. */
module Wrappers {

  datatype Option<+T> = None | Some(value: T)
}
