/** The optional value used for Mongo's "no document" answers and for a queue that would block. */
module Wrappers {

  datatype Option<+T> = None | Some(value: T)
}
