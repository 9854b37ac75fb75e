// Optional values: Python's `None` for absent buildings, owners and operations.
module Wrappers {

  datatype Option<+T> = None | Some(value: T)

}
