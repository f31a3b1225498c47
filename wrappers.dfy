/** Rust's `Option`, as the front-end uses it for the selected square and a piece's colour. */
module Wrappers {
  datatype Option<+T> = None | Some(value: T)
}
