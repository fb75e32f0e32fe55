/** Fixed-width integers. A value of a narrow type is a mathematical integer in range, so every
    store into one is a proof obligation; the `Wrap` functions are the explicit narrowing casts. */
module Words {

  type u8 = x: int | 0 <= x < 0x100
  type u16 = x: int | 0 <= x < 0x1_0000
  type u32 = x: int | 0 <= x < 0x1_0000_0000
  type i16 = x: int | -0x8000 <= x < 0x8000

  /** An opaque borrowed pointer that is only ever compared and handed back; zero is null. */
  type Handle = nat

  const NULL_HANDLE: Handle := 0
  const ADDRESS_SPACE: nat := 0x1_0000

  datatype Option<+T> = None | Some(value: T)

  function Wrap16(x: int): u16 {
    if 0 <= x < 0x1_0000 then x else x % 0x1_0000
  }

  function Wrap32(x: int): u32 {
    if 0 <= x < 0x1_0000_0000 then x else x % 0x1_0000_0000
  }

  function WrapI16(x: int): i16 {
    if -0x8000 <= x < 0x8000 then x else (x + 0x8000) % 0x1_0000 - 0x8000
  }

  function Min(a: int, b: int): int {
    if a < b then a else b
  }

  function Max(a: int, b: int): int {
    if a < b then b else a
  }
}
