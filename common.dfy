/** Small helpers shared by the modules of the model. */
module Common {

  /** The conventional optional value (Rust's `Option`). */
  datatype Option<+T> = None | Some(value: T)
}
