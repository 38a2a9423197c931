/** Value types shared by every part of the model: optional values, results,
    bytes and the fixed-width integers the service uses. */
module Base {

  /** `Option<T>`: `None` is a missing header field, a missing set id, an
      update field that was not supplied. */
  datatype Option<+T> = None | Some(value: T)

  /** `Result<T, E>`: the value of an operation that can fail. */
  datatype Result<+T, +E> = Ok(value: T) | Err(error: E)

  /** One octet of a request body or header value. */
  newtype byte = x: int | 0 <= x < 256

  /** Rust `i32`: every list, set and to-do id is one of these. */
  type i32 = x: int | -0x8000_0000 <= x < 0x8000_0000

  /** Rust `usize` on a 64-bit target: byte counts and limits. */
  type usize = x: nat | x < 0x1_0000_0000_0000_0000

  /** `u8::is_ascii_whitespace`: space, tab, line feed, form feed and
      carriage return (vertical tab is not included). */
  predicate IsAsciiWhitespace(b: byte) {
    b == 0x20 || b == 0x09 || b == 0x0A || b == 0x0C || b == 0x0D
  }
}
