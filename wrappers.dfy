/** The optional value the source returns from `hit` and `scatter`, and the panic-free view of indexing. */
module Wrappers {
  datatype Option<+T> = None | Some(value: T)
}
