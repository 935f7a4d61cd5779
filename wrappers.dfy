/** The Option type shared by the modules of the model (Rust's `Option`). */
module Wrappers {

  datatype Option<+T> = None | Some(value: T)
}
