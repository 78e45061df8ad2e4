/** Types and small functions shared by every component. */
module Common {

  type byte = x: int | 0 <= x < 256
  type uint16 = x: int | 0 <= x < 0x1_0000

  /** What C's conversion to `uint32_t` makes of an integer. */
  function Uint32(x: int): nat {
    x % 0x1_0000_0000
  }

  /** What C's conversion to `uint16_t` makes of an integer. */
  function Uint16(x: int): uint16 {
    x % 0x1_0000
  }

  datatype Option<+T> = None | Some(value: T)

  function Min(a: int, b: int): int {
    if a < b then a else b
  }

  function Max(a: int, b: int): int {
    if a < b then b else a
  }
}
