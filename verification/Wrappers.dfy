/** The Some/None datatype used wherever the workers pass a nullable value. */
module Wrappers {
  datatype Option<+T> = None | Some(value: T)
}
