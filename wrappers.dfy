/** The optional value used where the Python code gets `None` back or raises on a missing value. */
module Wrappers {

  datatype Option<+T> = None | Some(value: T)
}
