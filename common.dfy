/** Value types shared by every module: Rust's fixed-width integers and the
    `Option`/`Result` shapes the client uses for its `String` errors. */
module Common {

  /** Rust's `u8`. */
  type Byte = x: int | 0 <= x < 0x100

  /** Rust's `u16`. */
  type Word = x: int | 0 <= x < 0x1_0000

  datatype Option<+T> = None | Some(value: T)

  /** `Result<T, String>`: every error in the core is a plain message. */
  datatype Result<+T> = Ok(value: T) | Err(error: string)
}
