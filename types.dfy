/** Small value types shared by the model. */
module Types {

  /** Rust's `Option<T>`. */
  datatype Option<+T> = None | Some(value: T)

  /** Rust's `u8`: the entry type of the observed map. */
  newtype u8 = x: int | 0 <= x < 0x100
}
