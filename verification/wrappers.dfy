/** The conventional Some/None datatype, used where the checkers return "no diagnostic". */
module Wrappers {

  datatype Option<+T> = None | Some(value: T)
}
