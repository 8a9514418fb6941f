/** The optional value that the Rust source spells `Option<T>`. */
module Wrappers {

  datatype Option<+T> = None | Some(value: T)
}
