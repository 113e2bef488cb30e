/** The few standard Rust types the model needs: `Option`, `Result` and
    `std::task::Poll`. Every `Poll` in the modelled code is already settled,
    but `Pending` is kept so that "is Ready" is a statement and not a type. */
module Core {

  datatype Option<+T> = None | Some(value: T)

  datatype Result<+T, +E> = Ok(value: T) | Err(error: E)

  datatype Poll<+T> = Ready(value: T) | Pending

  /** Rust's unsigned integer widths used by the modelled code. */
  newtype u8 = x: int | 0 <= x < 0x100
  newtype u16 = x: int | 0 <= x < 0x1_0000

  function Min(a: nat, b: nat): (m: nat)
    ensures m <= a && m <= b && (m == a || m == b)
  {
    if a <= b then a else b
  }
}
