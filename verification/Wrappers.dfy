/** The option type that stands for a nullable column or a missing row. */
module Wrappers {
  datatype Option<+T> = None | Some(value: T)
}
