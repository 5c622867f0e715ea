/** Bytes of flash, of packets and of the serial line, and the size of the 32-bit address space. */
module Bytes {
  const TWO_32: int := 0x1_0000_0000

  type byte = x: int | 0 <= x < 256
}
