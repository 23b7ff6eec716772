/** A value that may be absent: a JavaScript `undefined`, a file that could not be read. */
module Wrappers {

  datatype Option<+T> = None | Some(value: T)
}
