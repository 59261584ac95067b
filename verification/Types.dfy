/** Machine integers, addresses, clock values and the optional value the other modules share. */
module Types {
  const TWO_TO_THE_64: int := 0x1_0000_0000_0000_0000

  type U8 = x: int | 0 <= x < 0x100
  type U16 = x: int | 0 <= x < 0x1_0000
  type U32 = x: int | 0 <= x < 0x1_0000_0000
  type U64 = x: int | 0 <= x < TWO_TO_THE_64

  /** An IPv4 address, compared as the 32-bit number it is. */
  type Addr = U32

  /** The all-zero address: the table's way of saying "no next hop". */
  const NO_ADDR: Addr := 0

  /** Simulator time in nanoseconds. */
  type Time = int

  datatype Option<+T> = None | Some(value: T)
}
