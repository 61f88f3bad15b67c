// The optional value that stands for a nullable column or a Python None.
module Wrappers {
  datatype Option<+T> = None | Some(value: T)
}
