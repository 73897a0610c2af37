/** Machine integer widths used by the railway model, and the counter steps
    the constructors perform on them (`*id += 1`, `*id -= 1`). Rust panics on
    overflow in a debug build and wraps in a release build; the model takes the
    wrapping behaviour, written out explicitly. */
module Ids {

  type u8 = x: int | 0 <= x < 0x100
  type u16 = x: int | 0 <= x < 0x1_0000
  type u32 = x: int | 0 <= x < 0x1_0000_0000

  const U16_MAX: u16 := 0xFFFF
  const U32_MAX: u32 := 0xFFFF_FFFF

  /** `*id += 1` on a `u32` counter. */
  function Inc32(x: u32): (r: u32)
    ensures r == (x + 1) % 0x1_0000_0000
  {
    if x == U32_MAX then 0 else x + 1
  }

  /** `*id -= 1` on a `u32` counter. */
  function Dec32(x: u32): (r: u32)
    ensures Inc32(r) == x
  {
    if x == 0 then U32_MAX else x - 1
  }

  /** `*id += 1` on a `u16` counter. */
  function Inc16(x: u16): (r: u16)
    ensures r == (x + 1) % 0x1_0000
  {
    if x == U16_MAX then 0 else x + 1
  }
}

/** Option and Result, as the Rust code uses them. */
module Results {

  datatype Option<+T> = None | Some(value: T)

  datatype Result<+T, +E> = Ok(value: T) | Err(error: E)
}
