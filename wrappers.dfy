/** The optional value the generator expresses with `None`. */
module Wrappers {
  datatype Option<T> = None | Some(value: T)
}
