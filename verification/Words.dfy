/** Fixed-width unsigned words as the witness generators compute with them: additions wrap,
    the overflow flag is reported separately, shifts and truncations are division and remainder
    by a power of two. */
module Words {

  const B8 := 0x100
  const B16 := 0x1_0000
  const B32 := 0x1_0000_0000
  const B64 := 0x1_0000_0000_0000_0000

  type u16 = x: int | 0 <= x < B16
  type u32 = x: int | 0 <= x < B32

  predicate IsBit(x: int) { x == 0 || x == 1 }

  function Bit(b: bool): (x: int) { if b then 1 else 0 }

  function Wrap16(x: int): u16 { x % B16 }

  function Wrap32(x: int): u32 { x % B32 }

  /** The two 16-bit limbs of a register. */
  function Word(low: u16, high: u16): u32 { low + B16 * high }

  function Low(x: u32): u16 { x % B16 }

  function High(x: u32): u16 { x / B16 }

  /** A 32-bit word read as a two's complement integer. */
  function Signed(x: u32): int {
    if x < 0x8000_0000 then x else x - B32
  }
}
