/** The optional value the document store's `find_one` and the session hand back. */
module Wrappers {

  datatype Option<+T> = None | Some(value: T)
}
