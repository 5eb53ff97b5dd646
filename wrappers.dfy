/** The optional value used where the source has `undefined`, a missing
    entry or the -1 of `findIndex`. */
module Wrappers {

  datatype Option<+T> = None | Some(value: T)
}
