/** The optional value used for "this cell parsed" / "this row loaded". */
module Wrappers {

  datatype Option<+T> = None | Some(value: T)
}
