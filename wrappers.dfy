/** The optional value used for regex groups that did not participate and for missing (NaN) cells. */
module Wrappers {

  datatype Option<+T> = None | Some(value: T)
}
