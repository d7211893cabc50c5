/** The optional result used where a loop of the original may run forever. */
module Wrappers {
  datatype Option<T> = None | Some(value: T)
}
