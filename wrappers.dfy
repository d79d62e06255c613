/** A value that may be missing: a JSON field the server may leave out, a cursor that may be null, or an offset that is not sent. */
module Wrappers {

  datatype Option<+T> = None | Some(value: T)

}
