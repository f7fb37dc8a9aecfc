/** The optional value used for components an entity may or may not carry. */
module Wrappers {
  datatype Option<+T> = None | Some(value: T)
}
