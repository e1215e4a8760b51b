/** The optional value used where the script has `None`. */
module Wrappers {

  datatype Option<+T> = None | Some(value: T)
}
