/** The optional value that the player's getters and cursors return (Rust's `Option`). */
module Wrappers {
  datatype Option<+T> = None | Some(value: T)
}
