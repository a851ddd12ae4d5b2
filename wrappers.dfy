/** The optional value used for C fields that may hold "nothing" (a NULL pointer,
    a sentinel resource ID). */
module Wrappers {

  datatype Option<+T> = None | Some(value: T)
}
