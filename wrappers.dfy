/** The absent-or-present value that the browser storage API hands back (a string or null). */
module Wrappers {

  datatype Option<+T> = None | Some(value: T)
}
