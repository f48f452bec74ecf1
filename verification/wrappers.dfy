/** The optional value used for "not found" and "never happened" results. */
module Wrappers {

  datatype Option<+T> = None | Some(value: T)
}
